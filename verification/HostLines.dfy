/** known_hosts as text: what a line is, and what is read back from what is written. */
module HostLines {
  import opened Options
  import opened Basics

  /** Only what decides identity is taken out; comments and markers ride along in raw. */
  datatype HostLine = HostLine(raw: string, hosts: string, keyType: string, key: string)

  // ---------------------------------------------------------------- cutting text

  /** unicode.IsSpace */
  predicate Space(c: char) {
    || '\t' <= c <= '\r' || c == ' ' || c == '\U{85}' || c == '\U{A0}' || c == '\U{1680}'
    || '\U{2000}' <= c <= '\U{200A}' || c == '\U{2028}' || c == '\U{2029}' || c == '\U{202F}' || c == '\U{205F}' || c == '\U{3000}'
  }

  predicate Newline(c: char) { c == '\n' }

  predicate Comma(c: char) { c == ',' }

  predicate Whole(p: string, cut: char -> bool) { forall i | 0 <= i < |p| :: !cut(p[i]) }

  /** strings.Split at every character `cut` picks: one piece more than there are cuts. */
  function Split(s: string, cut: char -> bool): (r: seq<string>)
    ensures r != []
    ensures forall i | 0 <= i < |r| :: Whole(r[i], cut)
  {
    if s == "" then [""]
    else
      var c, rest := s[|s| - 1], Split(s[..|s| - 1], cut);
      if cut(c) then rest + [""]
      else
        assert Whole(rest[|rest| - 1] + [c], cut);
        rest[..|rest| - 1] + [rest[|rest| - 1] + [c]]
  }

  /** What is in a piece is in the text. */
  lemma {:induction false} PiecesAreParts(s: string, cut: char -> bool, c: char)
    requires c !in s
    ensures forall p | p in Split(s, cut) :: c !in p
  {
    if s != "" {
      assert s == s[..|s| - 1] + [s[|s| - 1]];
      PiecesAreParts(s[..|s| - 1], cut, c);
    }
  }

  function NonEmpty(pieces: seq<string>): (r: seq<string>)
    ensures forall p | p in r :: p in pieces && p != ""
  {
    if pieces == [] then []
    else NonEmpty(pieces[..|pieces| - 1]) + if pieces[|pieces| - 1] == "" then [] else [pieces[|pieces| - 1]]
  }

  function Fields(s: string): (r: seq<string>)
    ensures forall p | p in r :: p != "" && Whole(p, Space)
  {
    NonEmpty(Split(s, Space))
  }

  predicate Trimmed(s: string) { s == "" || (!Space(s[0]) && !Space(s[|s| - 1])) }

  function TrimSpace(s: string): (r: string)
    ensures Trimmed(r) && (Trimmed(s) ==> r == s)
    ensures forall c | c in r :: c in s
  {
    if s == "" then s
    else if Space(s[0]) then TrimSpace(s[1..])
    else if Space(s[|s| - 1]) then TrimSpace(s[..|s| - 1])
    else s
  }

  lemma {:induction false} SomethingInFields(s: string)
    requires s != "" && !Space(s[|s| - 1])
    ensures Fields(s) != []
  {
    var pieces := Split(s, Space);
    assert pieces[|pieces| - 1] != "";
  }

  // ---------------------------------------------------------------- lines

  function ParseLine(text: string): (l: Option<HostLine>)
    ensures l.Some? ==> l.value.raw == TrimSpace(text)
  {
    var line := TrimSpace(text);
    if line == "" || line[0] == '#' then None
    else
      SomethingInFields(line);
      var all := Fields(line);
      assert all[0] in all;
      var fields := if all[0][0] == '@' then all[1..] else all;
      if |fields| < 3 then None else Some(HostLine(line, fields[0], fields[1], fields[2]))
  }

  function ParseAll(pieces: seq<string>): seq<HostLine> {
    if pieces == [] then []
    else
      var l := ParseLine(pieces[|pieces| - 1]);
      ParseAll(pieces[..|pieces| - 1]) + if l.Some? then [l.value] else []
  }

  function Lines(text: string): seq<HostLine> { ParseAll(Split(text, Newline)) }

  /** A line as it is read: its raw text is one line and parses to itself. */
  predicate Proper(l: HostLine) { ParseLine(l.raw) == Some(l) && '\n' !in l.raw }

  lemma {:induction false} ParsedAreProper(pieces: seq<string>)
    requires forall p | p in pieces :: '\n' !in p
    ensures forall l | l in ParseAll(pieces) :: Proper(l)
  {
    if pieces != [] {
      ParsedAreProper(pieces[..|pieces| - 1]);
      assert pieces[|pieces| - 1] in pieces;
    }
  }

  /** What is read from a file is proper, whatever the file. */
  lemma LinesAreProper(text: string)
    ensures forall l | l in Lines(text) :: Proper(l)
  {
    var pieces := Split(text, Newline);
    forall p | p in pieces ensures '\n' !in p {
      var i :| 0 <= i < |pieces| && pieces[i] == p;
      assert Whole(pieces[i], Newline);
    }
    ParsedAreProper(pieces);
  }

  // ---------------------------------------------------------------- printing and reading back

  function Raws(lines: seq<HostLine>): (r: seq<string>)
    ensures |r| == |lines| && forall i | 0 <= i < |r| :: r[i] == lines[i].raw
  {
    seq(|lines|, i requires 0 <= i < |lines| => lines[i].raw)
  }

  /** The file written for these lines. */
  function Text(lines: seq<HostLine>): string {
    if lines == [] then "" else Join(Raws(lines), "\n") + "\n"
  }

  lemma {:induction false} SplitOne(s: string, cut: char -> bool)
    requires Whole(s, cut)
    ensures Split(s, cut) == [s]
  {
    if s != "" {
      var init := s[..|s| - 1];
      assert s == init + [s[|s| - 1]];
      SplitOne(init, cut);
    }
  }

  lemma SplitMore(s: string, c: char, cut: char -> bool)
    ensures var pieces := Split(s, cut);
            Split(s + [c], cut) == if cut(c) then pieces + [""] else pieces[..|pieces| - 1] + [pieces[|pieces| - 1] + [c]]
  {
    assert (s + [c])[..|s|] == s;
  }

  lemma ExtendsRight(p: seq<string>, q: seq<string>, c: char)
    requires q != []
    ensures var all := p + q;
            all[..|all| - 1] + [all[|all| - 1] + [c]] == p + (q[..|q| - 1] + [q[|q| - 1] + [c]])
  {
  }

  lemma SplitOneOn(x: string, cut: char -> bool, p: seq<string>, b: string, c: char)
    requires Split(x + b, cut) == p + Split(b, cut)
    ensures Split(x + b + [c], cut) == p + Split(b + [c], cut)
  {
    SplitMore(x + b, c, cut);
    SplitMore(b, c, cut);
    ExtendsRight(p, Split(b, cut), c);
  }

  lemma {:induction false} SplitOn(x: string, cut: char -> bool, p: seq<string>, b: string)
    requires Split(x, cut) == p + [""]
    ensures Split(x + b, cut) == p + Split(b, cut)
  {
    if b == "" {
      assert x + b == x;
    } else {
      var init, c := b[..|b| - 1], b[|b| - 1];
      SplitOn(x, cut, p, init);
      SplitOneOn(x, cut, p, init, c);
      assert b == init + [c] && x + b == x + init + [c];
    }
  }

  /** What is before a cut and what is behind it are split apart. */
  lemma SplitBoth(a: string, c: char, b: string, cut: char -> bool)
    requires cut(c)
    ensures Split(a + [c] + b, cut) == Split(a, cut) + Split(b, cut)
  {
    SplitMore(a, c, cut);
    SplitOn(a + [c], cut, Split(a, cut), b);
  }

  lemma SplitCut(a: string)
    ensures Split(a + "\n", Newline) == Split(a, Newline) + [""]
  {
    SplitBoth(a, '\n', "", Newline);
    assert a + ['\n'] + "" == a + "\n";
  }

  lemma {:induction false} JoinedSplits(lines: seq<string>)
    requires lines != [] && forall i | 0 <= i < |lines| :: '\n' !in lines[i]
    ensures Split(Join(lines, "\n"), Newline) == lines
  {
    var init, last := lines[..|lines| - 1], lines[|lines| - 1];
    assert lines == init + [last];
    SplitOne(last, Newline);
    if |lines| > 1 {
      JoinedSplits(init);
      SplitBoth(Join(init, "\n"), '\n', last, Newline);
    }
  }

  lemma {:induction false} ParsedBack(lines: seq<HostLine>)
    requires forall l | l in lines :: Proper(l)
    ensures ParseAll(Raws(lines)) == lines
  {
    if lines != [] {
      var init := lines[..|lines| - 1];
      ParsedBack(init);
      assert Raws(lines)[..|lines| - 1] == Raws(init);
      assert lines[|lines| - 1] in lines;
    }
  }

  lemma TextSplits(lines: seq<HostLine>)
    requires lines != [] && forall i | 0 <= i < |lines| :: Proper(lines[i])
    ensures Split(Text(lines), Newline) == Raws(lines) + [""]
  {
    JoinedSplits(Raws(lines));
    SplitCut(Join(Raws(lines), "\n"));
  }

  /** A last empty piece, as the newline at a file's end leaves, is no line. */
  lemma EndsEmpty(pieces: seq<string>)
    ensures ParseAll(pieces + [""]) == ParseAll(pieces)
  {
    assert (pieces + [""])[..|pieces|] == pieces;
    assert ParseLine("") == None;
  }

  /** What is written for proper lines reads back as those lines, all of them, in order. */
  lemma WrittenReadsBack(lines: seq<HostLine>)
    requires forall l | l in lines :: Proper(l)
    ensures Lines(Text(lines)) == lines
  {
    if lines == [] {
      assert Split("", Newline) == [] + [""];
      EndsEmpty([]);
    } else {
      assert forall i | 0 <= i < |lines| :: lines[i] in lines;
      TextSplits(lines);
      EndsEmpty(Raws(lines));
      ParsedBack(lines);
    }
  }

  // ---------------------------------------------------------------- what a line is about

  function Id(pattern: string, keyType: string): string { pattern + " " + keyType }

  function IdsOf(patterns: seq<string>, keyType: string): seq<string> {
    if patterns == [] then []
    else
      var p := TrimSpace(patterns[|patterns| - 1]);
      IdsOf(patterns[..|patterns| - 1], keyType) + if p == "" then [] else [Id(p, keyType)]
  }

  /** keys: one for each host pattern of the line. */
  function Ids(l: HostLine): seq<string> { IdsOf(Split(l.hosts, Comma), l.keyType) }

  /** Two patterns without a space give one id only if they and the types are the same. */
  lemma IdsTellApart(p: string, t: string, p': string, t': string)
    requires ' ' !in p && ' ' !in p' && Id(p, t) == Id(p', t')
    ensures p == p' && t == t'
  {
    var s := Id(p, t);
    assert s[|p|] == ' ' && s[|p'|] == ' ';
    assert forall i | 0 <= i < |p| :: s[i] == p[i] && p[i] in p;
    assert forall i | 0 <= i < |p'| :: s[i] == p'[i] && p'[i] in p';
    assert |p| == |p'|;
    assert s[..|p|] == p && s[..|p'|] == p';
    assert s[|p| + 1..] == t && s[|p'| + 1..] == t';
  }

  lemma {:induction false} IdsNamePatterns(patterns: seq<string>, keyType: string, id: string)
    ensures id in IdsOf(patterns, keyType) <==> exists p | p in patterns :: GivesId(p, keyType, id)
  {
    if patterns != [] {
      var init, last := patterns[..|patterns| - 1], patterns[|patterns| - 1];
      IdsNamePatterns(init, keyType, id);
      assert patterns == init + [last];
      assert last in patterns;
      if id in IdsOf(init, keyType) {
        var p :| p in init && GivesId(p, keyType, id);
        assert p in patterns;
      }
      if p :| p in patterns && GivesId(p, keyType, id) && p != last {
        assert p in init;
      }
    }
  }

  predicate GivesId(p: string, keyType: string, id: string) { TrimSpace(p) != "" && id == Id(TrimSpace(p), keyType) }

  /** The host patterns of a line. */
  function Patterns(l: HostLine): seq<string> { Split(l.hosts, Comma) }

  lemma HostsHaveNoSpace(l: HostLine)
    requires Proper(l)
    ensures forall p | p in Patterns(l) :: ' ' !in p && TrimSpace(p) == p
  {
    assert l.hosts in Fields(l.raw);
    forall p | p in Patterns(l) ensures ' ' !in p && TrimSpace(p) == p {
      forall c | Space(c) ensures c !in p {
        PiecesAreParts(l.hosts, Comma, c);
      }
      assert p != "" ==> p[0] in p && p[|p| - 1] in p;
    }
  }

  /** Two lines have an id in common exactly if they name a host pattern alike and have the same key type. */
  lemma SharedId(l: HostLine, m: HostLine)
    requires Proper(l) && Proper(m)
    ensures (exists id :: id in Ids(l) && id in Ids(m)) <==>
            l.keyType == m.keyType && exists p :: p in Patterns(l) && p in Patterns(m) && p != ""
  {
    HostsHaveNoSpace(l);
    HostsHaveNoSpace(m);
    if id :| id in Ids(l) && id in Ids(m) {
      IdsNamePatterns(Patterns(l), l.keyType, id);
      IdsNamePatterns(Patterns(m), m.keyType, id);
      var p :| p in Patterns(l) && GivesId(p, l.keyType, id);
      var q :| q in Patterns(m) && GivesId(q, m.keyType, id);
      IdsTellApart(p, l.keyType, q, m.keyType);
    }
    if p :| p in Patterns(l) && p in Patterns(m) && p != "" && l.keyType == m.keyType {
      SharedPatternIsId(l, p);
      SharedPatternIsId(m, p);
    }
  }

  /** A host pattern and the key type make one of the line's ids. */
  lemma SharedPatternIsId(l: HostLine, p: string)
    requires Proper(l) && p in Patterns(l) && p != ""
    ensures Id(p, l.keyType) in Ids(l)
  {
    HostsHaveNoSpace(l);
    assert TrimSpace(p) == p;
    assert GivesId(p, l.keyType, Id(p, l.keyType));
    IdsNamePatterns(Patterns(l), l.keyType, Id(p, l.keyType));
  }

  /** @cert-authority, @revoked, or "" for a line that just lists a key. */
  function MarkerOf(l: HostLine): string {
    var fields := Fields(l.raw);
    if fields != [] && fields[0] != "" && fields[0][0] == '@' then fields[0] else ""
  }
}
