/** What a merge of known_hosts guarantees, and when it does not matter which side is local. */
module KnownHostsSafety {
  import opened HostLines
  import opened KnownHosts

  /** Local entries come first, in order, and a key trusted here for a host and type stays the one trusted. */
  lemma LocalTrustStays(local: seq<HostLine>, incoming: seq<HostLine>, id: string)
    requires id in Trust(local)
    ensures local <= Merged(local, incoming).out
    ensures id in Trust(Merged(local, incoming).out) && Trust(Merged(local, incoming).out)[id] == Trust(local)[id]
  {
    MergeKeeps(local, incoming);
  }

  /** What the merge writes reads back as the local entries followed by the added ones. */
  lemma MergedReadsBack(local: string, incoming: string)
    ensures var m := Merged(Lines(local), Lines(incoming));
            Lines(Text(m.out)) == m.out && Lines(local) <= m.out
  {
    LinesAreProper(local);
    LinesAreProper(incoming);
    MergeKeeps(Lines(local), Lines(incoming));
    MergeKeepsProper(Lines(local), Lines(incoming));
    WrittenReadsBack(Merged(Lines(local), Lines(incoming)).out);
  }

  // ---------------------------------------------------------------- merging again

  /** A line turned away once is turned away for good. */
  lemma {:induction false} TurnedAwayForGood(local: seq<HostLine>, incoming: seq<HostLine>, i: nat, l: HostLine)
    requires AllProper(incoming) && Proper(l) && i <= |incoming| && TurnedAway(Merged(local, incoming[..i]), l)
    ensures TurnedAway(Merged(local, incoming), l)
    decreases |incoming|
  {
    if i == |incoming| {
      assert incoming[..i] == incoming;
    } else {
      var init := incoming[..|incoming| - 1];
      assert init[..i] == incoming[..i];
      TurnedAwayForGood(local, init, i, l);
      StepTurnsAway(Merged(local, init), incoming[|incoming| - 1], l);
    }
  }

  /** Merging the same lines into the result adds none and reports the same conflicts. */
  lemma {:induction false} MergingAgain(local: seq<HostLine>, incoming: seq<HostLine>, i: nat)
    requires AllProper(incoming) && i <= |incoming|
    ensures var m := Merged(local, incoming);
            Merged(m.out, incoming[..i]) == m.(conflicts := Merged(local, incoming[..i]).conflicts)
  {
    var m := Merged(local, incoming);
    MergeKeeps(local, incoming);
    if i > 0 {
      MergingAgain(local, incoming, i - 1);
      var l := incoming[i - 1];
      assert incoming[..i][..i - 1] == incoming[..i - 1];
      MergeGrows(local, incoming, i - 1);
      MergeGrows(local, incoming, i);
      var before := Merged(local, incoming[..i - 1]);
      if l.raw !in before.seen && Disagrees(before.have, l) {
        TurnedAwayForGood(local, incoming, i - 1, l);
      }
    }
  }

  /** Through print and re-read: the second merge of the same file changes nothing. */
  lemma MergeIsIdempotent(local: string, incoming: string)
    ensures var m := Merged(Lines(local), Lines(incoming)); Merged(Lines(Text(m.out)), Lines(incoming)) == m
  {
    LinesAreProper(incoming);
    MergedReadsBack(local, incoming);
    MergingAgain(Lines(local), Lines(incoming), |Lines(incoming)|);
    assert Lines(incoming)[..|Lines(incoming)|] == Lines(incoming);
  }

  // ---------------------------------------------------------------- agreement

  /** Whatever lists a host and type lists one key for it. */
  predicate OneKeyEach(lines: seq<HostLine>) {
    forall l, m, k | l in lines && m in lines && k in Ids(l) && k in Ids(m) :: l.key == m.key
  }

  lemma {:induction false} TrustIsLast(lines: seq<HostLine>, k: string)
    ensures k in Trust(lines) <==> exists l :: l in lines && k in Ids(l)
    ensures k in Trust(lines) ==> exists l :: l in lines && k in Ids(l) && l.key == Trust(lines)[k]
  {
    if lines != [] {
      var init, last := lines[..|lines| - 1], lines[|lines| - 1];
      TrustIsLast(init, k);
      assert forall l :: l in lines <==> l in init || l == last;
    }
  }

  /** Where each host and type has one key, trust is that key. */
  lemma TrustIsTheKey(lines: seq<HostLine>, l: HostLine, k: string)
    requires OneKeyEach(lines) && l in lines && k in Ids(l)
    ensures k in Trust(lines) && Trust(lines)[k] == l.key
  {
    TrustIsLast(lines, k);
  }

  /** A line that agrees with the trust of single-keyed lines keeps them so, and no other does. */
  lemma OneMoreAgrees(lines: seq<HostLine>, l: HostLine)
    requires OneKeyEach(lines)
    ensures OneKeyEach(lines + [l]) <==> !Disagrees(Trust(lines), l)
  {
    assert forall m :: m in lines + [l] <==> m in lines || m == l;
    if k :| k in Ids(l) && k in Trust(lines) && Trust(lines)[k] != l.key {
      TrustIsLast(lines, k);
      var m :| m in lines && k in Ids(m) && m.key == Trust(lines)[k];
      assert !OneKeyEach(lines + [l]);
    } else {
      forall m, k | m in lines && k in Ids(m) && k in Ids(l) ensures m.key == l.key {
        TrustIsTheKey(lines, m, k);
      }
    }
  }

  /** If the local file has one key for each host and type, so does the result; and only then. */
  lemma {:induction false} OneKeyEachStays(local: seq<HostLine>, incoming: seq<HostLine>)
    ensures OneKeyEach(Merged(local, incoming).out) <==> OneKeyEach(local)
  {
    MergeKeeps(local, incoming);
    if incoming != [] {
      var init := incoming[..|incoming| - 1];
      OneKeyEachStays(local, init);
      MergeKeeps(local, init);
      if OneKeyEach(local) {
        OneMoreAgrees(Merged(local, init).out, incoming[|incoming| - 1]);
      }
    }
    if OneKeyEach(Merged(local, incoming).out) {
      assert forall l | l in local :: l in Merged(local, incoming).out;
    }
  }

  lemma MergedNext(local: seq<HostLine>, incoming: seq<HostLine>, n: nat)
    requires 0 < n <= |incoming|
    ensures Merged(local, incoming[..n]) == Step(Merged(local, incoming[..n - 1]), incoming[n - 1])
  {
    assert incoming[..n][..n - 1] == incoming[..n - 1];
  }

  lemma {:induction false} DecidedUpTo(local: seq<HostLine>, incoming: seq<HostLine>, i: nat, n: nat)
    requires AllProper(local) && AllProper(incoming) && i < n <= |incoming|
    ensures Decided(Merged(local, incoming[..n]), incoming[i])
    decreases n
  {
    var m, last, l := Merged(local, incoming[..n - 1]), incoming[n - 1], incoming[i];
    MergedIsSane(local, incoming[..n - 1]);
    MergedNext(local, incoming, n);
    assert Proper(last) && Proper(l);
    if i < n - 1 {
      DecidedUpTo(local, incoming, i, n - 1);
    }
    assert Decided(Step(m, last), l) by {
      StepDecided(m, last, l);
    }
  }

  /**
   * Every incoming line is in the result, or contradicts what is trusted there
   * and is reported; never both.
   */
  lemma KeptOrReported(local: seq<HostLine>, incoming: seq<HostLine>, l: HostLine)
    requires AllProper(local) && AllProper(incoming) && l in incoming
    ensures Decided(Merged(local, incoming), l)
  {
    var i :| 0 <= i < |incoming| && incoming[i] == l;
    DecidedUpTo(local, incoming, i, |incoming|);
    assert incoming[..|incoming|] == incoming;
  }

  /** Only hosts of incoming lines that were turned away are reported. */
  lemma {:induction false} ReportedWereTurnedAway(local: seq<HostLine>, incoming: seq<HostLine>, hosts: string)
    requires AllProper(local) && AllProper(incoming)
    ensures hosts in Merged(local, incoming).conflicts ==>
              exists l :: l in incoming && l.hosts == hosts && TurnedAway(Merged(local, incoming), l)
  {
    if incoming != [] && hosts in Merged(local, incoming).conflicts {
      var init, last := incoming[..|incoming| - 1], incoming[|incoming| - 1];
      assert incoming == init + [last];
      ReportedWereTurnedAway(local, init, hosts);
      var m := Merged(local, init);
      StepKeepsReports(m, last, hosts);
      if hosts in m.conflicts {
        var l :| l in init && l.hosts == hosts && TurnedAway(m, l);
        assert l in incoming;
        StepTurnsAway(m, last, l);
      } else {
        StepTurnsAway(m, last, last);
        assert last in incoming;
      }
    }
  }

  /** Everything in the result was in one of the two. */
  lemma {:induction false} NothingInvented(local: seq<HostLine>, incoming: seq<HostLine>, l: HostLine)
    requires l in Merged(local, incoming).out
    ensures l in local || l in incoming
  {
    if incoming != [] && l !in local {
      var init := incoming[..|incoming| - 1];
      if l in Merged(local, init).out {
        NothingInvented(local, init, l);
      }
      assert incoming == init + [incoming[|incoming| - 1]];
    }
  }

  /**
   * From a local file with one key for each host and type, nothing is reported
   * exactly if the two files together have one key for each.
   */
  lemma QuietWhenTheyAgree(local: seq<HostLine>, incoming: seq<HostLine>)
    requires AllProper(local) && AllProper(incoming) && OneKeyEach(local)
    ensures Merged(local, incoming).conflicts == [] <==> OneKeyEach(local + incoming)
  {
    var m := Merged(local, incoming);
    OneKeyEachStays(local, incoming);
    MergeKeeps(local, incoming);
    if OneKeyEach(local + incoming) {
      assert m.conflicts != [] ==> m.conflicts[0] in m.conflicts;
      forall hosts ensures hosts !in m.conflicts {
        AgreedIsQuiet(local, incoming, hosts);
      }
    }
    if m.conflicts == [] {
      forall l | l in local + incoming ensures l in m.out {
        if l in incoming {
          KeptOrReported(local, incoming, l);
        }
      }
    }
  }

  lemma AgreedIsQuiet(local: seq<HostLine>, incoming: seq<HostLine>, hosts: string)
    requires AllProper(local) && AllProper(incoming) && OneKeyEach(local + incoming)
    ensures hosts !in Merged(local, incoming).conflicts
  {
    var m := Merged(local, incoming);
    ReportedWereTurnedAway(local, incoming, hosts);
    forall l | l in incoming ensures !TurnedAway(m, l) {
      AgreedIsKept(local, incoming, l);
    }
  }

  lemma AgreedIsKept(local: seq<HostLine>, incoming: seq<HostLine>, l: HostLine)
    requires OneKeyEach(local + incoming) && l in incoming
    ensures !TurnedAway(Merged(local, incoming), l)
  {
    var m := Merged(local, incoming);
    MergeKeeps(local, incoming);
    forall k | k in Ids(l) && k in m.have ensures m.have[k] == l.key {
      TrustIsLast(m.out, k);
      var o :| o in m.out && k in Ids(o) && o.key == m.have[k];
      NothingInvented(local, incoming, o);
    }
  }

  /** And then it does not matter which of the two was the local one. */
  lemma EitherDirection(a: seq<HostLine>, b: seq<HostLine>, l: HostLine)
    requires AllProper(a) && AllProper(b) && OneKeyEach(a + b)
    ensures l in Merged(a, b).out <==> l in a || l in b
    ensures l in Merged(b, a).out <==> l in a || l in b
  {
    assert OneKeyEach(b + a) by {
      assert forall m :: m in b + a <==> m in a + b;
    }
    AllAreKept(a, b, l);
    AllAreKept(b, a, l);
  }

  lemma AllAreKept(local: seq<HostLine>, incoming: seq<HostLine>, l: HostLine)
    requires AllProper(local) && AllProper(incoming) && OneKeyEach(local + incoming)
    ensures l in Merged(local, incoming).out <==> l in local || l in incoming
  {
    MergeKeeps(local, incoming);
    if l in Merged(local, incoming).out {
      NothingInvented(local, incoming, l);
    }
    if l in incoming {
      AgreedIsKept(local, incoming, l);
      KeptOrReported(local, incoming, l);
    }
  }

  // ---------------------------------------------------------------- markers

  /** The line lists the key for the id, unmarked. */
  predicate Vouches(l: HostLine, id: string, key: string) { MarkerOf(l) == "" && id in Ids(l) && l.key == key }

  /** A revoked key is refused whatever hosts its line names. */
  predicate Revokes(l: HostLine, key: string) { MarkerOf(l) == "@revoked" && l.key == key }

  /** Some line lists the key for the id, and none revokes it. */
  predicate Accepted(lines: seq<HostLine>, id: string, key: string) {
    (exists l | l in lines :: Vouches(l, id, key)) && forall l | l in lines :: !Revokes(l, key)
  }

  lemma WhatIsThere(local: seq<HostLine>, incoming: seq<HostLine>, l: HostLine)
    requires AllProper(local) && AllProper(incoming)
    ensures var m := Merged(local, incoming);
            l in m.out <==> l in local || (l in incoming && !TurnedAway(m, l))
  {
    MergeKeeps(local, incoming);
    if l in incoming {
      KeptOrReported(local, incoming, l);
    }
    if l in Merged(local, incoming).out {
      NothingInvented(local, incoming, l);
    }
  }

  /** What was accepted here still is, exactly if every incoming revocation of that key was turned away. */
  lemma AcceptedStaysWhen(local: seq<HostLine>, incoming: seq<HostLine>, id: string, key: string)
    requires AllProper(local) && AllProper(incoming) && Accepted(local, id, key)
    ensures Accepted(Merged(local, incoming).out, id, key) <==>
            forall l | l in incoming && Revokes(l, key) :: TurnedAway(Merged(local, incoming), l)
  {
    var v :| v in local && Vouches(v, id, key);
    WhatIsThere(local, incoming, v);
    forall l | Revokes(l, key) ensures l in Merged(local, incoming).out <==> l in incoming && !TurnedAway(Merged(local, incoming), l) {
      WhatIsThere(local, incoming, l);
    }
  }

  /** What was added agrees with what was trusted here before. */
  lemma {:induction false} AddedAgrees(local: seq<HostLine>, incoming: seq<HostLine>, l: HostLine)
    requires l in Merged(local, incoming).out && l !in local
    ensures !Disagrees(Trust(local), l)
  {
    var n := |incoming| - 1;
    if incoming != [] {
      MergeKeeps(local, incoming[..n]);
      var m := Merged(local, incoming[..n]);
      if l in m.out {
        AddedAgrees(local, incoming[..n], l);
      } else {
        assert !Disagrees(m.have, l) && Extends(Trust(local), m.have);
      }
    }
  }

  /** A line that contradicts what is trusted here is turned away, whatever else comes in. */
  lemma ContradictionIsTurnedAway(local: seq<HostLine>, incoming: seq<HostLine>, l: HostLine)
    requires AllProper(local) && AllProper(incoming) && l in incoming && l !in local && Disagrees(Trust(local), l)
    ensures TurnedAway(Merged(local, incoming), l)
  {
    KeptOrReported(local, incoming, l);
    if l in Merged(local, incoming).out {
      AddedAgrees(local, incoming, l);
    }
  }

  /** From a file with one key each, no other line is. */
  lemma OnlyContradictionsAreTurnedAway(local: seq<HostLine>, incoming: seq<HostLine>, l: HostLine)
    requires AllProper(local) && AllProper(incoming) && OneKeyEach(incoming) && l in incoming
    ensures TurnedAway(Merged(local, incoming), l) <==> l !in local && Disagrees(Trust(local), l)
  {
    var m := Merged(local, incoming);
    KeptOrReported(local, incoming, l);
    MergeKeeps(local, incoming);
    if TurnedAway(m, l) {
      assert l !in local;
      var k :| k in Ids(l) && k in m.have && m.have[k] != l.key;
      TrustIsLast(m.out, k);
      var o :| o in m.out && k in Ids(o) && o.key == m.have[k];
      NothingInvented(local, incoming, o);
      TrustIsLast(local, k);
    } else if l !in local && Disagrees(Trust(local), l) {
      ContradictionIsTurnedAway(local, incoming, l);
    }
  }

  /** Over the two files: what was accepted here still is, if every incoming revocation of its key contradicts what is trusted here. */
  lemma AcceptedStaysIf(local: seq<HostLine>, incoming: seq<HostLine>, id: string, key: string)
    requires AllProper(local) && AllProper(incoming) && Accepted(local, id, key)
    requires forall l | l in incoming && Revokes(l, key) :: Disagrees(Trust(local), l)
    ensures Accepted(Merged(local, incoming).out, id, key)
  {
    forall l | l in incoming && Revokes(l, key) ensures TurnedAway(Merged(local, incoming), l) {
      ContradictionIsTurnedAway(local, incoming, l);
    }
    AcceptedStaysWhen(local, incoming, id, key);
  }

  /** And only if, where the incoming file has one key for each host and type. */
  lemma AcceptedStaysExactlyWhen(local: seq<HostLine>, incoming: seq<HostLine>, id: string, key: string)
    requires AllProper(local) && AllProper(incoming) && OneKeyEach(incoming) && Accepted(local, id, key)
    ensures Accepted(Merged(local, incoming).out, id, key) <==>
            forall l | l in incoming && Revokes(l, key) :: Disagrees(Trust(local), l)
  {
    AcceptedStaysWhen(local, incoming, id, key);
    forall l | l in incoming && Revokes(l, key)
      ensures TurnedAway(Merged(local, incoming), l) <==> Disagrees(Trust(local), l)
    {
      OnlyContradictionsAreTurnedAway(local, incoming, l);
    }
  }

  /** A revocation that contradicts nothing trusted here joins without a report, and its key is accepted for nothing any more. */
  lemma ARevocationJoins(local: seq<HostLine>, l: HostLine, id: string, key: string)
    requires AllProper(local) && Proper(l) && Revokes(l, key) && !Disagrees(Trust(local), l)
    ensures var m := Merged(local, [l]); m.conflicts == [] && !Accepted(m.out, id, key)
  {
    var m := Merged(local, [l]);
    MergedNext(local, [l], 1);
    assert [l][..1] == [l] && [l][..0] == [];
    SeenIsThere(local, l);
    assert l in m.out;
  }

  /** So does one for hosts not known here. */
  lemma ARevocationOfOthersCanJoin(local: seq<HostLine>, l: HostLine, id: string, key: string)
    requires AllProper(local) && Proper(l) && Revokes(l, key) && Accepted(local, id, key)
    requires forall k | k in Ids(l) :: k !in Trust(local)
    ensures var m := Merged(local, [l]); m.conflicts == [] && !Accepted(m.out, id, key)
  {
    ARevocationJoins(local, l, id, key);
  }

  /** And one for the very host the key is trusted for. */
  lemma ARevocationOfItsHostCanJoin(host: HostLine, l: HostLine, id: string)
    requires Proper(host) && Proper(l) && Vouches(host, id, host.key) && Revokes(l, host.key)
    requires l.hosts == host.hosts && l.keyType == host.keyType
    ensures Accepted([host], id, host.key)
    ensures var m := Merged([host], [l]); m.conflicts == [] && !Accepted(m.out, id, host.key)
  {
    assert host in [host];
    assert [host][..0] == [] && Trust([host]) == Learn(map[], host);
    assert Ids(l) == Ids(host);
    ARevocationJoins([host], l, id, host.key);
  }

  /** From a local file with one key for each host and type, no other key is accepted for an id known here. */
  lemma NoOtherKeyIsAccepted(local: seq<HostLine>, incoming: seq<HostLine>, id: string, key: string)
    requires OneKeyEach(local) && id in Trust(local) && Accepted(Merged(local, incoming).out, id, key)
    ensures key == Trust(local)[id]
  {
    OneKeyEachStays(local, incoming);
    LocalTrustStays(local, incoming, id);
    var l :| l in Merged(local, incoming).out && Vouches(l, id, key);
    TrustIsTheKey(Merged(local, incoming).out, l, id);
  }
}
