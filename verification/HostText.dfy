/**
 * Which line a text is read as, told by its words: the text between stretches
 * of white space.
 */
module HostText {
  import opened Options
  import opened Basics
  import opened HostLines
  import opened KnownHosts
  import opened KnownHostsSafety

  predicate Blank(s: string) { forall i | 0 <= i < |s| :: Space(s[i]) }

  predicate Word(s: string) { s != "" && Whole(s, Space) }

  /** Words with white space between them; gaps[i] follows words[i]. */
  predicate Separated(words: seq<string>, gaps: seq<string>) {
    && |gaps| == (if words == [] then 0 else |words| - 1)
    && (forall i | 0 <= i < |words| :: Word(words[i]))
    && (forall i | 0 <= i < |gaps| :: gaps[i] != "" && Blank(gaps[i]))
  }

  function Woven(words: seq<string>, gaps: seq<string>): string
    requires |gaps| == (if words == [] then 0 else |words| - 1)
  {
    if words == [] then ""
    else if |words| == 1 then words[0]
    else Woven(words[..|words| - 1], gaps[..|gaps| - 1]) + gaps[|gaps| - 1] + words[|words| - 1]
  }

  // ---------------------------------------------------------------- the fields of a text are its words

  lemma {:induction false} NonEmptyBoth(a: seq<string>, b: seq<string>)
    ensures NonEmpty(a + b) == NonEmpty(a) + NonEmpty(b)
  {
    if b == [] {
      assert a + b == a;
    } else {
      var init := b[..|b| - 1];
      assert (a + b)[..|a + b| - 1] == a + init;
      NonEmptyBoth(a, init);
    }
  }

  lemma FieldsBoth(a: string, c: char, b: string)
    requires Space(c)
    ensures Fields(a + [c] + b) == Fields(a) + Fields(b)
  {
    SplitBoth(a, c, b, Space);
    NonEmptyBoth(Split(a, Space), Split(b, Space));
  }

  lemma OneField(w: string)
    requires Word(w)
    ensures Fields(w) == [w]
  {
    SplitOne(w, Space);
    NonEmptyBoth([], [w]);
    assert [] + [w] == [w];
    assert NonEmpty([w]) == NonEmpty([w][..0]) + [w];
  }

  lemma NoField()
    ensures Fields("") == []
  {
    assert NonEmpty([""]) == NonEmpty([""][..0]) + [];
  }

  lemma {:induction false} FieldsGap(s: string, gap: string)
    requires Blank(gap)
    ensures Fields(s + gap) == Fields(s)
  {
    if gap == "" {
      assert s + gap == s;
    } else {
      var g, c := gap[..|gap| - 1], gap[|gap| - 1];
      assert s + gap == (s + g) + [c] + "";
      FieldsGap(s, g);
      FieldsBoth(s + g, c, "");
      NoField();
    }
  }

  lemma Regrouped(s: string, g: string, c: char, w: string)
    ensures s + (g + [c]) + w == (s + g) + [c] + w
  {
  }

  lemma OneMoreField(s: string, g: string, c: char, w: string)
    requires Blank(g) && Space(c) && Word(w)
    ensures Fields(s + (g + [c]) + w) == Fields(s) + [w]
  {
    FieldsGap(s, g);
    OneField(w);
    FieldsBoth(s + g, c, w);
    Regrouped(s, g, c, w);
  }

  lemma WovenMore(words: seq<string>, gaps: seq<string>) returns (init: string, g: string, c: char)
    requires Separated(words, gaps) && |words| > 1
    ensures var n := |words| - 1;
            && Separated(words[..n], gaps[..n - 1]) && init == Woven(words[..n], gaps[..n - 1])
            && Blank(g) && Space(c) && Woven(words, gaps) == init + (g + [c]) + words[n]
  {
    var n := |words| - 1;
    var gap := gaps[n - 1];
    init, g, c := Woven(words[..n], gaps[..n - 1]), gap[..|gap| - 1], gap[|gap| - 1];
    assert gap == g + [c];
  }

  lemma AllFields(words: seq<string>, n: nat, s: string, init: string, g: string, c: char)
    requires |words| == n + 1 && Word(words[n]) && Blank(g) && Space(c)
    requires s == init + (g + [c]) + words[n] && Fields(init) == words[..n]
    ensures Fields(s) == words
  {
    OneMoreField(init, g, c, words[n]);
  }

  lemma {:induction false} WovenFields(words: seq<string>, gaps: seq<string>)
    requires Separated(words, gaps)
    ensures Fields(Woven(words, gaps)) == words
  {
    if words == [] {
      NoField();
    } else if |words| == 1 {
      OneField(words[0]);
    } else {
      var n := |words| - 1;
      var init, g, c := WovenMore(words, gaps);
      WovenFields(words[..n], gaps[..n - 1]);
      AllFields(words, n, Woven(words, gaps), init, g, c);
    }
  }

  lemma {:induction false} WovenEnds(words: seq<string>, gaps: seq<string>)
    requires Separated(words, gaps) && words != []
    ensures var s := Woven(words, gaps); s != "" && s[0] == words[0][0] && !Space(s[0]) && !Space(s[|s| - 1])
  {
    if |words| > 1 {
      WovenEnds(words[..|words| - 1], gaps[..|gaps| - 1]);
    }
  }

  lemma {:induction false} TrimmedAround(lead: string, s: string, trail: string)
    requires Blank(lead) && Blank(trail) && (s == "" || (!Space(s[0]) && !Space(s[|s| - 1])))
    ensures TrimSpace(lead + s + trail) == s
    decreases |lead| + |trail|
  {
    var all := lead + s + trail;
    if lead != "" {
      assert all[1..] == lead[1..] + s + trail;
      TrimmedAround(lead[1..], s, trail);
    } else if trail != "" {
      var n := |trail| - 1;
      assert all == s + trail;
      if s == "" {
        assert all[1..] == lead + s + trail[1..];
        TrimmedAround(lead, s, trail[1..]);
      } else {
        assert all[..|all| - 1] == lead + s + trail[..n];
        TrimmedAround(lead, s, trail[..n]);
      }
    } else {
      assert all == s;
    }
  }

  /** The text is these words, with white space between and around them. */
  ghost predicate ReadsAs(text: string, words: seq<string>) {
    exists lead, gaps, trail :: Separated(words, gaps) && Blank(lead) && Blank(trail) && text == lead + Woven(words, gaps) + trail
  }

  lemma LongerWord(words: seq<string>, gaps: seq<string>, c: char)
    requires Separated(words, gaps) && words != [] && !Space(c)
    ensures var k := |words| - 1;
            var longer := words[..k] + [words[k] + [c]];
            Separated(longer, gaps) && Woven(longer, gaps) == Woven(words, gaps) + [c]
  {
    var k := |words| - 1;
    var longer := words[..k] + [words[k] + [c]];
    assert longer[..k] == words[..k];
    if k > 0 {
      var init := Woven(words[..k], gaps[..k - 1]) + gaps[k - 1];
      assert init + (words[k] + [c]) == (init + words[k]) + [c];
    }
  }

  lemma OneMoreWord(words: seq<string>, gaps: seq<string>, gap: string, c: char)
    requires Separated(words, gaps) && words != [] && gap != "" && Blank(gap) && !Space(c)
    ensures Separated(words + [[c]], gaps + [gap]) && Woven(words + [[c]], gaps + [gap]) == Woven(words, gaps) + gap + [c]
  {
    assert (words + [[c]])[..|words|] == words && (gaps + [gap])[..|gaps|] == gaps;
  }

  /** Every text has words. */
  lemma {:induction false} HasWords(text: string) returns (lead: string, words: seq<string>, gaps: seq<string>, trail: string)
    ensures Separated(words, gaps) && Blank(lead) && Blank(trail) && text == lead + Woven(words, gaps) + trail
    ensures words == [] ==> trail == ""
  {
    if text == "" {
      return "", [], [], "";
    }
    var n := |text| - 1;
    var c := text[n];
    lead, words, gaps, trail := HasWords(text[..n]);
    assert text == text[..n] + [c];
    if Space(c) {
      if words == [] {
        lead := lead + [c];
      } else {
        trail := trail + [c];
      }
    } else if words == [] {
      words := [[c]];
    } else if trail == "" {
      LongerWord(words, gaps, c);
      words := words[..|words| - 1] + [words[|words| - 1] + [c]];
    } else {
      OneMoreWord(words, gaps, trail, c);
      words, gaps, trail := words + [[c]], gaps + [trail], "";
    }
  }

  // ---------------------------------------------------------------- lines

  /** How many words come before the hosts: a marker, if there is one. */
  function Marked(words: seq<string>): nat { if words != [] && "@" <= words[0] then 1 else 0 }

  lemma FirstChar(w: string, c: char)
    requires w != ""
    ensures [c] <= w <==> w[0] == c
  {
  }

  lemma ReadFields(text: string, words: seq<string>)
    requires ReadsAs(text, words)
    ensures Fields(TrimSpace(text)) == words && (TrimSpace(text) == "" <==> words == [])
    ensures words != [] ==> TrimSpace(text)[0] == words[0][0]
  {
    var lead, gaps, trail :|
      Separated(words, gaps) && Blank(lead) && Blank(trail) && text == lead + Woven(words, gaps) + trail;
    if words != [] {
      WovenEnds(words, gaps);
    }
    TrimmedAround(lead, Woven(words, gaps), trail);
    WovenFields(words, gaps);
  }

  /**
   * A text is no line exactly if it is blank, a comment, or too short: fewer
   * than three words after the marker. Otherwise these three words are the
   * hosts, the key type and the key.
   */
  lemma LineIsItsWords(text: string, words: seq<string>)
    requires ReadsAs(text, words)
    ensures ParseLine(text) == None <==> words == [] || "#" <= words[0] || |words| < Marked(words) + 3
    ensures ParseLine(text).Some? ==>
              var l, m := ParseLine(text).value, Marked(words);
              l.hosts == words[m] && l.keyType == words[m + 1] && l.key == words[m + 2] && l.raw == TrimSpace(text)
  {
    ReadFields(text, words);
    if words != [] {
      assert words[0] in words;
      FirstChar(words[0], '#');
      FirstChar(words[0], '@');
    }
  }

  lemma WordsOf(text: string) returns (words: seq<string>)
    ensures ReadsAs(text, words)
  {
    var lead, gaps, trail;
    lead, words, gaps, trail := HasWords(text);
  }

  // ---------------------------------------------------------------- a line written out

  lemma {:induction false} FieldsTrimmed(s: string)
    ensures Fields(TrimSpace(s)) == Fields(s)
    decreases |s|
  {
    if s != "" && Space(s[0]) {
      assert s == "" + [s[0]] + s[1..];
      FieldsBoth("", s[0], s[1..]);
      NoField();
      FieldsTrimmed(s[1..]);
    } else if s != "" && Space(s[|s| - 1]) {
      var init := s[..|s| - 1];
      assert s == init + [s[|s| - 1]] + "";
      FieldsBoth(init, s[|s| - 1], "");
      NoField();
      FieldsTrimmed(init);
    }
  }

  lemma FieldsOfThree(a: string, b: string, c: string)
    requires Word(a) && Word(b) && Word(c)
    ensures Fields(a + " " + b + " " + c) == [a, b, c]
  {
    OneField(a);
    OneField(b);
    OneField(c);
    FieldsBoth(a, ' ', b);
    FieldsBoth(a + " " + b, ' ', c);
  }

  lemma ParsedFields(text: string, fields: seq<string>)
    requires Fields(text) == fields && fields != [] && !("#" <= fields[0]) && |fields| >= Marked(fields) + 3
    ensures var m := Marked(fields);
            ParseLine(text) == Some(HostLine(TrimSpace(text), fields[m], fields[m + 1], fields[m + 2]))
  {
    var words := WordsOf(text);
    ReadFields(text, words);
    FieldsTrimmed(text);
    LineIsItsWords(text, words);
  }

  predicate HostsWord(s: string) { Word(s) && s[0] != '#' && s[0] != '@' }

  /** hosts, type and key are read back from a line that has them, with anything behind and with or without a marker. */
  lemma LineReadsBack(hosts: string, keyType: string, key: string, rest: string, marker: string)
    requires HostsWord(hosts) && Word(keyType) && Word(key) && Word(marker) && marker[0] == '@'
    ensures var text := hosts + " " + keyType + " " + key;
            && ParseLine(text) == Some(HostLine(TrimSpace(text), hosts, keyType, key))
            && ParseLine(text + " " + rest) == Some(HostLine(TrimSpace(text + " " + rest), hosts, keyType, key))
            && var marked := marker + " " + (text + " " + rest);
               ParseLine(marked) == Some(HostLine(TrimSpace(marked), hosts, keyType, key))
  {
    var text := hosts + " " + keyType + " " + key;
    FieldsOfThree(hosts, keyType, key);
    ParsedFields(text, [hosts, keyType, key]);
    FieldsBoth(text, ' ', rest);
    ParsedFields(text + " " + rest, [hosts, keyType, key] + Fields(rest));
    OneField(marker);
    FieldsBoth(marker, ' ', text + " " + rest);
    ParsedFields(marker + " " + (text + " " + rest), [marker] + ([hosts, keyType, key] + Fields(rest)));
  }

  // ---------------------------------------------------------------- two files of one line

  predicate OneHost(s: string) { HostsWord(s) && ',' !in s }

  lemma OneLineFile(hosts: string, keyType: string, key: string) returns (l: HostLine)
    requires OneHost(hosts) && Word(keyType) && Word(key)
    ensures l == HostLine(hosts + " " + keyType + " " + key, hosts, keyType, key)
    ensures Lines(hosts + " " + keyType + " " + key) == [l] && Ids(l) == [Id(hosts, keyType)] && Proper(l)
  {
    var text := hosts + " " + keyType + " " + key;
    FieldsOfThree(hosts, keyType, key);
    ParsedFields(text, [hosts, keyType, key]);
    assert Trimmed(text);
    l := HostLine(text, hosts, keyType, key);
    assert '\n' !in text;
    SplitOne(text, Newline);
    assert ParseAll([text]) == ParseAll([text][..0]) + [l];
    SplitOne(hosts, Comma);
    assert IdsOf([hosts], keyType) == IdsOf([hosts][..0], keyType) + [Id(hosts, keyType)];
  }

  lemma TrustOfOne(l: HostLine, id: string)
    requires Ids(l) == [id]
    ensures Trust([l]) == map[id := l.key]
  {
    assert [l][..0] == [];
    assert Trust([l]) == Learn(Trust([]), l);
    assert forall k :: k in Ids(l) <==> k == id;
  }

  lemma MergedOfTwo(l: HostLine, l2: HostLine, id: string, id2: string)
    requires Proper(l) && Proper(l2) && Ids(l) == [id] && Ids(l2) == [id2]
    ensures var m := Merged([l], [l2]);
            if l == l2 then m.out == [l] && m.conflicts == []
            else if id == id2 && l.key != l2.key then m.out == [l] && m.conflicts == [l2.hosts]
            else m.out == [l] + [l2] && m.conflicts == []
  {
    MergedNext([l], [l2], 1);
    assert [l2][..1] == [l2] && [l2][..0] == [];
    TrustOfOne(l, id);
    assert Disagrees(Trust([l]), l2) <==> id2 == id && l.key != l2.key by {
      assert id2 in Ids(l2);
    }
    assert l2.raw in RawSet([l]) <==> l2 == l;
  }

  /**
   * Two files of one line each. Another key for the same host and type is
   * turned away and reported; a line for another host, or of another type,
   * joins; the same line again is nothing.
   */
  lemma TwoLines(hosts: string, keyType: string, key: string, hosts2: string, keyType2: string, key2: string)
    requires OneHost(hosts) && Word(keyType) && Word(key) && OneHost(hosts2) && Word(keyType2) && Word(key2)
    ensures var local, incoming := hosts + " " + keyType + " " + key, hosts2 + " " + keyType2 + " " + key2;
            var m := Merged(Lines(local), Lines(incoming));
            if hosts == hosts2 && keyType == keyType2 then m.out == Lines(local) && m.conflicts == (if key == key2 then [] else [hosts])
            else m.out == Lines(local) + Lines(incoming) && m.conflicts == []
  {
    var l := OneLineFile(hosts, keyType, key);
    var l2 := OneLineFile(hosts2, keyType2, key2);
    MergedOfTwo(l, l2, Id(hosts, keyType), Id(hosts2, keyType2));
    if Id(hosts, keyType) == Id(hosts2, keyType2) {
      assert ' ' !in hosts && ' ' !in hosts2;
      IdsTellApart(hosts, keyType, hosts2, keyType2);
    }
  }
}
