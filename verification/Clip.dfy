/**
 * Cutting what is copied to the clipboard's limit without splitting a
 * character (truncateClip in internal/ui/app.go).
 */
module Clip {
  import opened Basics

  const CLIP_LIMIT := 0x1_0000

  predicate Tail(b: byte) { 0x80 <= b <= 0xBF }

  /** The length of the UTF8-char that s begins with, section 4 of RFC 3629; 0 if it begins with none. */
  function CharLen(s: seq<byte>): (n: nat)
    ensures n <= 4 && n <= |s|
  {
    if |s| >= 1 && s[0] <= 0x7F then 1
    else if |s| >= 2 && 0xC2 <= s[0] <= 0xDF && Tail(s[1]) then 2
    else if |s| >= 3 && Three(s[0], s[1]) && Tail(s[2]) then 3
    else if |s| >= 4 && Four(s[0], s[1]) && Tail(s[2]) && Tail(s[3]) then 4
    else 0
  }

  /** The first two bytes of a UTF8-3: no overlong form, no surrogate. */
  predicate Three(a: byte, b: byte) {
    || (a == 0xE0 && 0xA0 <= b <= 0xBF)
    || (0xE1 <= a <= 0xEC && Tail(b))
    || (a == 0xED && 0x80 <= b <= 0x9F)
    || (0xEE <= a <= 0xEF && Tail(b))
  }

  /** The first two bytes of a UTF8-4: no overlong form, nothing past 10FFFF. */
  predicate Four(a: byte, b: byte) {
    || (a == 0xF0 && 0x90 <= b <= 0xBF)
    || (0xF1 <= a <= 0xF3 && Tail(b))
    || (a == 0xF4 && 0x80 <= b <= 0x8F)
  }

  /** Unicode scalar values: no surrogates. */
  predicate Scalar(c: int) { 0 <= c < 0xD800 || 0xE000 <= c < 0x11_0000 }

  /** A tail byte with six of the bits. */
  function Six(bits: int): byte { (0x80 + bits % 64) as byte }

  /** A scalar value in UTF-8, section 3 of RFC 3629. */
  function Encoded(c: int): seq<byte>
    requires Scalar(c)
  {
    if c < 0x80 then [c as byte]
    else if c < 0x800 then [(0xC0 + c / 64) as byte, Six(c)]
    else if c < 0x1_0000 then [(0xE0 + c / 64 / 64) as byte, Six(c / 64), Six(c)]
    else [(0xF0 + c / 64 / 64 / 64) as byte, Six(c / 64 / 64), Six(c / 64), Six(c)]
  }

  /** A value with six more bits. */
  function With(high: int, tail: byte): int { high * 64 + (tail as int - 0x80) }

  /** The scalar value of the character s begins with. */
  function Decoded(s: seq<byte>): int
    requires CharLen(s) > 0
  {
    match CharLen(s)
    case 1 => s[0] as int
    case 2 => With(s[0] as int - 0xC0, s[1])
    case 3 => With(With(s[0] as int - 0xE0, s[1]), s[2])
    case _ => With(With(With(s[0] as int - 0xF0, s[1]), s[2]), s[3])
  }

  lemma SixBack(high: int, tail: byte)
    requires Tail(tail)
    ensures With(high, tail) / 64 == high && Six(With(high, tail)) == tail
    ensures high * 64 <= With(high, tail) <= high * 64 + 63
  {
  }

  lemma ThreeIsEncoded(a: byte, b: byte, t: byte)
    requires Three(a, b) && Tail(t)
    ensures var c := With(With(a as int - 0xE0, b), t); 0x800 <= c < 0x1_0000 && Scalar(c) && Encoded(c) == [a, b, t]
  {
    SixBack(a as int - 0xE0, b);
    SixBack(With(a as int - 0xE0, b), t);
  }

  lemma FourIsEncoded(a: byte, b: byte, t: byte, u: byte)
    requires Four(a, b) && Tail(t) && Tail(u)
    ensures var c := With(With(With(a as int - 0xF0, b), t), u); 0x1_0000 <= c && Scalar(c) && Encoded(c) == [a, b, t, u]
  {
    var h := With(a as int - 0xF0, b);
    var m := With(h, t);
    SixBack(a as int - 0xF0, b);
    assert 0x10 <= h <= 0x10F;
    SixBack(h, t);
    SixBack(m, u);
    assert 0x1_0000 <= With(m, u) < 0x11_0000;
  }

  /** What counts as a character is the encoding of a scalar value. */
  lemma CharsAreScalars(s: seq<byte>)
    requires CharLen(s) > 0
    ensures Scalar(Decoded(s)) && s[..CharLen(s)] == Encoded(Decoded(s))
  {
    match CharLen(s)
    case 1 =>
    case 2 => SixBack(s[0] as int - 0xC0, s[1]);
    case 3 => ThreeIsEncoded(s[0], s[1], s[2]);
    case _ => FourIsEncoded(s[0], s[1], s[2], s[3]);
  }

  /** And the encoding of every scalar value is one. */
  lemma ScalarsAreChars(c: int, rest: seq<byte>)
    requires Scalar(c)
    ensures CharLen(Encoded(c) + rest) == |Encoded(c)|
  {
    assert 0x800 <= c < 0x1_0000 ==> Three(Encoded(c)[0], Encoded(c)[1]);
    assert 0x1_0000 <= c ==> Four(Encoded(c)[0], Encoded(c)[1]);
  }

  /** utf8.ValidString */
  predicate Valid(s: seq<byte>)
    decreases |s|
  {
    s == [] || (CharLen(s) > 0 && Valid(s[CharLen(s)..]))
  }

  /** r is a valid prefix of s, and no longer prefix is valid. */
  predicate LongestValid(s: seq<byte>, r: seq<byte>) {
    r <= s && Valid(r) && forall m | |r| < m <= |s| :: !Valid(s[..m])
  }

  method TruncateClip(s: seq<byte>) returns (cut: seq<byte>, truncated: bool)
    ensures truncated <==> |s| > CLIP_LIMIT
    ensures !truncated ==> cut == s
    ensures truncated ==> LongestValid(s[..CLIP_LIMIT], cut)
    ensures truncated && Valid(s) ==> |cut| > CLIP_LIMIT - 4
    ensures truncated && Valid(s) ==> (|cut| == CLIP_LIMIT <==> Valid(s[CLIP_LIMIT..]))
  {
    if |s| <= CLIP_LIMIT {
      return s, false;
    }
    ghost var limited := s[..CLIP_LIMIT];
    cut := s[..CLIP_LIMIT];
    while |cut| > 0 && !Valid(cut)
      invariant cut <= limited && cut == limited[..|cut|]
      invariant forall m | |cut| < m <= |limited| :: !Valid(limited[..m])
    {
      cut := cut[..|cut| - 1];
    }
    truncated := true;
    if Valid(s) {
      ValidPrefixNear(s, CLIP_LIMIT);
      ghost var k :| CLIP_LIMIT - 4 < k <= CLIP_LIMIT && Valid(s[..k]);
      assert limited[..k] == s[..k];
      ValidSplits(s, CLIP_LIMIT);
      assert limited[..CLIP_LIMIT] == limited;
    }
  }

  /** What a character is does not depend on what follows it. */
  lemma CharStands(s: seq<byte>, n: nat)
    requires 0 < CharLen(s) <= n <= |s|
    ensures CharLen(s[..n]) == CharLen(s)
  {
  }

  lemma CharThenValid(s: seq<byte>, n: nat)
    requires 0 < CharLen(s) == n && Valid(s[n..])
    ensures Valid(s)
  {
  }

  /** At most three bytes before any place in a valid text a character ends. */
  lemma {:induction false} ValidPrefixNear(s: seq<byte>, n: nat)
    requires Valid(s) && n <= |s|
    ensures exists k :: n - 4 < k <= n && 0 <= k && Valid(s[..k])
    decreases |s|
  {
    if n < CharLen(s) || s == [] {
      assert Valid(s[..0]);
    } else {
      var c := CharLen(s);
      ValidPrefixNear(s[c..], n - c);
      var k :| n - c - 4 < k <= n - c && 0 <= k && Valid(s[c..][..k]);
      CharStands(s, c + k);
      assert s[..c + k][c..] == s[c..][..k];
      CharThenValid(s[..c + k], c);
    }
  }

  /** A valid text's prefix is valid exactly if the rest is: the cut falls between characters. */
  lemma {:induction false} ValidSplits(s: seq<byte>, n: nat)
    requires Valid(s) && n <= |s|
    ensures Valid(s[..n]) <==> Valid(s[n..])
    decreases |s|
  {
    var c := CharLen(s);
    if n == 0 {
      assert s[..0] == [] && s[0..] == s;
    } else if n < c {
      CharNotCut(s, n);
    } else {
      CharStands(s, n);
      ValidSplits(s[c..], n - c);
      assert s[..n][c..] == s[c..][..n - c];
      assert s[n..] == s[c..][n - c..];
    }
  }

  /** Inside a character no text ends and none begins. */
  lemma CharNotCut(s: seq<byte>, n: nat)
    requires 0 < n < CharLen(s)
    ensures !Valid(s[..n]) && !Valid(s[n..])
  {
    assert CharLen(s[..n]) == 0;
    assert Tail(s[n..][0]);
  }
}
