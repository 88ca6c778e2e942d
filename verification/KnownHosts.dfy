/**
 * The union of two known_hosts files (internal/config/bundle.go): local trust
 * is never replaced, and a disagreement is reported, not resolved.
 */
module KnownHosts {
  import opened Options
  import opened HostLines

  type Trusted = map<string, string>

  /** Lines read from a file. */
  predicate AllProper(lines: seq<HostLine>) { forall i | 0 <= i < |lines| :: Proper(lines[i]) }

  // ---------------------------------------------------------------- the merge

  function LearnIds(have: Trusted, ids: seq<string>, key: string): Trusted {
    map k | k in have.Keys + (set k | k in ids) :: if k in ids then key else have[k]
  }

  lemma LearnOneMore(have: Trusted, ids: seq<string>, id: string, key: string)
    ensures LearnIds(have, ids + [id], key) == LearnIds(have, ids, key)[id := key]
  {
    assert forall k :: k in ids + [id] <==> k in ids || k == id;
  }

  function Learn(have: Trusted, l: HostLine): Trusted { LearnIds(have, Ids(l), l.key) }

  /** What is trusted after reading these lines in order. */
  function Trust(lines: seq<HostLine>): Trusted {
    if lines == [] then map[] else Learn(Trust(lines[..|lines| - 1]), lines[|lines| - 1])
  }

  predicate Disagrees(have: Trusted, l: HostLine) { exists k | k in Ids(l) :: k in have && have[k] != l.key }

  datatype Merge = Merge(have: Trusted, seen: set<string>, out: seq<HostLine>, conflicts: seq<string>)

  function RawSet(lines: seq<HostLine>): set<string> { set l | l in lines :: l.raw }

  function Start(local: seq<HostLine>): Merge { Merge(Trust(local), RawSet(local), local, []) }

  function Report(conflicts: seq<string>, hosts: string): seq<string> {
    if hosts in conflicts then conflicts else conflicts + [hosts]
  }

  function Step(m: Merge, l: HostLine): Merge {
    if l.raw in m.seen then m
    else if Disagrees(m.have, l) then m.(conflicts := Report(m.conflicts, l.hosts))
    else Merge(Learn(m.have, l), m.seen + {l.raw}, m.out + [l], m.conflicts)
  }

  function Merged(local: seq<HostLine>, incoming: seq<HostLine>): Merge {
    if incoming == [] then Start(local)
    else Step(Merged(local, incoming[..|incoming| - 1]), incoming[|incoming| - 1])
  }

  // ---------------------------------------------------------------- what a merge keeps

  /** have only grows. */
  predicate Extends(have: Trusted, have': Trusted) { forall k | k in have :: k in have' && have'[k] == have[k] }

  predicate Coherent(m: Merge) { m.have == Trust(m.out) && m.seen == RawSet(m.out) }

  predicate Grown(m: Merge, m': Merge) { m.out <= m'.out && Extends(m.have, m'.have) && m.seen <= m'.seen }

  lemma StepKeeps(m: Merge, l: HostLine)
    requires Coherent(m)
    ensures Coherent(Step(m, l)) && Grown(m, Step(m, l))
  {
    OneMoreLine(m.out, l);
    forall k | k in m.have && !Disagrees(m.have, l) ensures Learn(m.have, l)[k] == m.have[k] {
      assert k in Ids(l) ==> m.have[k] == l.key;
    }
  }

  lemma OneMoreLine(out: seq<HostLine>, l: HostLine)
    ensures Trust(out + [l]) == Learn(Trust(out), l) && RawSet(out + [l]) == RawSet(out) + {l.raw}
  {
    assert (out + [l])[..|out|] == out;
    assert forall k :: k in out + [l] <==> k in out || k == l;
  }

  lemma {:induction false} MergeKeeps(local: seq<HostLine>, incoming: seq<HostLine>)
    ensures Coherent(Merged(local, incoming)) && Grown(Start(local), Merged(local, incoming))
  {
    if incoming != [] {
      var init := incoming[..|incoming| - 1];
      MergeKeeps(local, init);
      StepKeeps(Merged(local, init), incoming[|incoming| - 1]);
    }
  }

  /** Coherent, of lines read from files. */
  predicate Sane(m: Merge) { Coherent(m) && AllProper(m.out) }

  lemma MergedIsSane(local: seq<HostLine>, incoming: seq<HostLine>)
    requires AllProper(local) && AllProper(incoming)
    ensures Sane(Merged(local, incoming))
  {
    MergeKeeps(local, incoming);
    MergeKeepsProper(local, incoming);
  }

  lemma {:induction false} MergeKeepsProper(local: seq<HostLine>, incoming: seq<HostLine>)
    requires AllProper(local) && AllProper(incoming)
    ensures AllProper(Merged(local, incoming).out)
  {
    if incoming != [] {
      MergeKeepsProper(local, incoming[..|incoming| - 1]);
    }
  }

  /** A proper line is in a list exactly if its text is. */
  lemma SeenIsThere(lines: seq<HostLine>, l: HostLine)
    requires AllProper(lines) && Proper(l)
    ensures l.raw in RawSet(lines) <==> l in lines
  {
    if l.raw in RawSet(lines) {
      var same :| same in lines && same.raw == l.raw;
    }
  }

  // ---------------------------------------------------------------- merging again

  lemma {:induction false} MergeGrows(local: seq<HostLine>, incoming: seq<HostLine>, i: nat)
    requires i <= |incoming|
    ensures Grown(Merged(local, incoming[..i]), Merged(local, incoming))
    decreases |incoming|
  {
    if i == |incoming| {
      assert incoming[..i] == incoming;
    } else {
      var init := incoming[..|incoming| - 1];
      assert init[..i] == incoming[..i];
      MergeGrows(local, init, i);
      MergeKeeps(local, init);
      StepKeeps(Merged(local, init), incoming[|incoming| - 1]);
    }
  }

  predicate TurnedAway(m: Merge, l: HostLine) { l.raw !in m.seen && Disagrees(m.have, l) }

  lemma StepTurnsAway(m: Merge, last: HostLine, l: HostLine)
    requires Proper(l) && Proper(last) && TurnedAway(m, l)
    ensures TurnedAway(Step(m, last), l)
  {
    if Step(m, last).have != m.have {
      assert last != l;
      var k :| k in Ids(l) && k in m.have && m.have[k] != l.key;
      assert Learn(m.have, last)[k] == m.have[k];
    }
  }

  lemma StepKeepsReports(m: Merge, l: HostLine, hosts: string)
    ensures hosts in m.conflicts ==> hosts in Step(m, l).conflicts
    ensures hosts in Step(m, l).conflicts ==> hosts in m.conflicts || (hosts == l.hosts && TurnedAway(m, l))
  {
  }

  /** In, or turned away and reported. */
  predicate Decided(m: Merge, l: HostLine) {
    (l in m.out && !TurnedAway(m, l)) || (l !in m.out && TurnedAway(m, l) && l.hosts in m.conflicts)
  }

  lemma StepDecided(m: Merge, last: HostLine, l: HostLine)
    requires Sane(m) && Proper(last) && Proper(l)
    requires Decided(m, l) || l == last
    ensures Decided(Step(m, last), l)
  {
    StepKeeps(m, last);
    SeenIsThere(m.out, l);
    SeenIsThere(Step(m, last).out, l);
    if TurnedAway(m, l) {
      StepTurnsAway(m, last, l);
    }
  }
}
