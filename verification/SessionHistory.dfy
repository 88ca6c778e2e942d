/** What the events of a run make of the session, and of its end. */
module SessionHistory {
  import opened Options
  import opened SessionModel
  import opened SessionEvents

  // ---------------------------------------------------------------- one more event

  lemma Before(h: seq<Event>, e: Event)
    ensures (h + [e])[..|h|] == h && forall k | 0 <= k <= |h| :: (h + [e])[..k] == h[..k]
  {
  }

  lemma ClosedOnce(h: seq<Event>, e: Event)
    ensures ClosedIn(h + [e]) <==> ClosedIn(h) || e.UserCloses? || e.MarksClosed?
  {
    var h' := h + [e];
    assert h'[|h|] == e;
    if k :| 0 <= k < |h| && (h[k].UserCloses? || h[k].MarksClosed?) {
      assert h'[k] == h[k];
    }
  }

  lemma ExitedOnce(h: seq<Event>, e: Event, err: Option<Error>)
    ensures ExitedWith(h + [e], err) <==> ExitedWith(h, err) || e == ShellExits(err)
  {
    var h' := h + [e];
    assert h'[|h|] == e;
    if k :| 0 <= k < |h| && h[k] == ShellExits(err) {
      assert h'[k] == h[k];
    }
  }

  lemma NotedOnce(h: seq<Event>, e: Event)
    ensures NotedIn(h + [e]) <==> NotedIn(h) || (e.NotesExit? && !ClosedIn(h))
  {
    var h' := h + [e];
    Before(h, e);
    assert h'[|h|] == e;
    if k :| 0 <= k < |h| && h[k].NotesExit? && !ClosedIn(h[..k]) {
      assert h'[k] == h[k] && h'[..k] == h[..k];
    }
    if k :| 0 <= k < |h'| && h'[k].NotesExit? && !ClosedIn(h'[..k]) {
      assert h'[..k] == h[..k];
    }
  }

  lemma LostOnce(h: seq<Event>, e: Event)
    ensures LostIn(h + [e]) <==> LostIn(h) || (e.Fails? && !ClosedIn(h) && !ReportedIn(h))
  {
    var h' := h + [e];
    Before(h, e);
    assert h'[|h|] == e;
    if k :| 0 <= k < |h| && h[k].Fails? && !ClosedIn(h[..k]) && !ReportedIn(h[..k]) {
      assert h'[k] == h[k] && h'[..k] == h[..k];
    }
    if k :| 0 <= k < |h'| && h'[k].Fails? && !ClosedIn(h'[..k]) && !ReportedIn(h'[..k]) {
      assert h'[..k] == h[..k];
    }
  }

  // ---------------------------------------------------------------- the state is what the events say

  lemma KeeperMoves(s: Session, h: seq<Event>, e: Event)
    requires KeeperTold(s, h) && (s.sh.closed <==> ClosedIn(h)) && Enabled(s, e)
    ensures KeeperTold(After(s, e), h + [e])
  {
    var h' := h + [e];
    Before(h, e);
    assert h'[|h|] == e;
    if OfKeeper(e) {
      forall k | LastOfKeeper(h', k) ensures k == |h| {
        assert |h| <= k;
      }
    } else {
      KeeperStays(s, e);
      assert forall k | 0 <= k < |h| :: h'[k] == h[k];
      forall k | LastOfKeeper(h', k) ensures LastOfKeeper(h, k) && h'[..k] == h[..k] {
      }
    }
  }

  lemma KeeperStays(s: Session, e: Event)
    requires Enabled(s, e) && !OfKeeper(e)
    ensures After(s, e).keeper == s.keeper
  {
    if OfPump(e) {
      PumpMovesItself(s, e);
    }
  }

  /** A step of a pump, its lane and the channel put aside, is none. */
  predicate OnlyLanes(s: Session, s': Session) {
    && s'.keeper == s.keeper && s'.waiter == s.waiter && s'.byUser == s.byUser
    && s'.lost == s.lost && s'.noted == s.noted && s'.sh.closed == s.sh.closed
  }

  lemma LaneAlone(s: Session, side: Side, l: Lane)
    ensures OnlyLanes(s, WithLane(s, side, l))
  {
  }

  lemma PumpMovesItself(s: Session, e: Event)
    requires Enabled(s, e) && OfPump(e)
    ensures OnlyLanes(s, After(s, e))
  {
    var l := LaneOf(s, e.side);
    match e
    case Reads(side, chunk, last) => LaneAlone(s, side, Lane(Holding(chunk, last), l.read + [chunk]));
    case ReadStops(side) => LaneAlone(s, side, l.(pump := Done([])));
    case Checks(side) =>
      LaneAlone(s, side, l.(pump := if s.sh.closed then Done([l.pump.chunk]) else Sending(l.pump.chunk, l.pump.last)));
    case Sends(side) => SendAlone(s, side);
  }

  lemma SendAlone(s: Session, side: Side)
    requires Enabled(s, Sends(side))
    ensures OnlyLanes(s, After(s, Sends(side)))
  {
  }

  lemma ReportedWhen(s: Session, h: seq<Event>)
    requires Inv(s) && Told(s, h) && !s.sh.closed && !s.lost
    ensures ReportedIn(h) <==> s.sh.exitErr.Some?
  {
  }

  /** Which events close the session, note its exit, and lose it. */
  lemma WhatTells(s: Session, e: Event)
    requires Enabled(s, e)
    ensures var s' := After(s, e);
            && (s'.sh.closed <==> s.sh.closed || e.UserCloses? || e.MarksClosed?)
            && (s'.lost <==> s.lost || (e.Fails? && !s.sh.closed && s.sh.exitErr.None?))
            && (s'.noted <==> if e.NotesExit? then !s.sh.closed else s.noted)
            && (e.ShellExits? ==> s.waiter.Waiting? && !s'.waiter.Waiting? && s'.waiter.err == e.err)
            && (!e.ShellExits? ==> s'.waiter.Waiting? == s.waiter.Waiting? && (!s.waiter.Waiting? ==> s'.waiter.err == s.waiter.err))
  {
    if OfPump(e) {
      PumpMovesItself(s, e);
    }
  }

  lemma StepTells(s: Session, h: seq<Event>, e: Event)
    requires Inv(s) && Told(s, h) && Enabled(s, e)
    ensures Told(After(s, e), h + [e])
  {
    WhatTells(s, e);
    ClosedOnce(h, e);
    NotedOnce(h, e);
    LostOnce(h, e);
    KeeperMoves(s, h, e);
    forall err ensures ExitedWith(h + [e], err) <==> ExitedWith(h, err) || e == ShellExits(err) {
      ExitedOnce(h, e, err);
    }
    if e.Fails? && !s.sh.closed && !s.lost {
      ReportedWhen(s, h);
    }
  }

  lemma {:induction false} HistoryTells(run: seq<Session>, events: seq<Event>, n: nat)
    requires IsHistory(run, events) && n < |run|
    ensures Inv(run[n]) && Told(run[n], events[..n])
  {
    if n == 0 {
      ConnectedKeeps();
    } else {
      HistoryTells(run, events, n - 1);
      assert run[n - 1 + 1] == After(run[n - 1], events[n - 1]);
      StepKeeps(run[n - 1], events[n - 1]);
      StepTells(run[n - 1], events[..n - 1], events[n - 1]);
      assert events[..n] == events[..n - 1] + [events[n - 1]];
    }
  }

  // ---------------------------------------------------------------- the keepalive

  /** From then on the keepalive may do exactly what its last event allows. */
  lemma KeeperTurns(run: seq<Session>, events: seq<Event>, n: nat, k: nat, e: Event)
    requires IsHistory(run, events) && n < |run| && LastOfKeeper(events[..n], k) && OfKeeper(e)
    ensures Enabled(run[n], e) <==> KeeperMay(events, k, ClosedIn(events[..k]), e)
  {
    HistoryTells(run, events, n);
    assert events[..n][..k] == events[..k];
  }

  lemma KeeperBegins(run: seq<Session>, events: seq<Event>, n: nat, e: Event)
    requires IsHistory(run, events) && n < |run| && OfKeeper(e) && forall k | 0 <= k < n :: !OfKeeper(events[k])
    ensures Enabled(run[n], e) <==> e.Ticks?
  {
    HistoryTells(run, events, n);
  }

  lemma {:induction false} LastThereIs(h: seq<Event>) returns (k: int)
    ensures k == -1 ==> forall j | 0 <= j < |h| :: !OfKeeper(h[j])
    ensures k != -1 ==> LastOfKeeper(h, k)
  {
    if h == [] {
      return -1;
    }
    var n := |h| - 1;
    if OfKeeper(h[n]) {
      return n;
    }
    k := LastThereIs(h[..n]);
    assert forall j | 0 <= j < n :: h[..n][j] == h[j];
  }

  /** It gives up only when the last thing it did was to wait for an answer in vain. */
  lemma OnlySilenceFails(run: seq<Session>, events: seq<Event>, n: nat) returns (k: nat)
    requires IsHistory(run, events) && n < |events| && events[n].Fails?
    ensures LastOfKeeper(events[..n], k) && events[k].NoAnswer?
  {
    var l := LastThereIs(events[..n]);
    if l == -1 {
      KeeperBegins(run, events, n, events[n]);
      assert false;
    }
    KeeperTurns(run, events, n, l, events[n]);
    k := l;
  }

  /** And giving up on an open session without a reason yet gives it one: that the connection was lost. */
  lemma FailingRecords(run: seq<Session>, events: seq<Event>, n: nat)
    requires IsHistory(run, events) && n < |events| && events[n].Fails?
    ensures run[n + 1].sh.exitErr == if run[n].sh.closed || run[n].sh.exitErr.Some? then run[n].sh.exitErr else Some(Lost)
  {
    HistoryTells(run, events, n);
    assert run[n + 1] == After(run[n], events[n]);
  }

  /**
   * A session counts as lost exactly if the keepalive gave up on it while it
   * was open and had no reason yet, so never without a keepalive unanswered.
   */
  lemma LostMeansUnanswered(run: seq<Session>, events: seq<Event>, n: nat)
    requires IsHistory(run, events) && n < |run|
    ensures run[n].sh.exitErr == Some(Lost) <==> LostIn(events[..n])
    ensures run[n].sh.exitErr == Some(Lost) ==> exists k :: 0 <= k < n && events[k].NoAnswer?
  {
    HistoryTells(run, events, n);
    NeverTheShells(run, events, n);
    if LostIn(events[..n]) {
      var k :| 0 <= k < n && events[..n][k].Fails? && !ClosedIn(events[..n][..k]) && !ReportedIn(events[..n][..k]);
      var a := OnlySilenceFails(run, events, k);
      assert 0 <= a < n && events[a].NoAnswer?;
    }
  }

  lemma NeverTheShells(run: seq<Session>, events: seq<Event>, n: nat)
    requires IsHistory(run, events) && n < |run|
    ensures !ExitedWith(events[..n], Some(Lost))
  {
    forall k | 0 <= k < n ensures events[k] != ShellExits(Some(Lost)) {
      assert Enabled(run[k], events[k]);
    }
  }

  // ---------------------------------------------------------------- the end

  /**
   * Who sees the channel closed reads, then and ever after: lost, if the
   * keepalive gave up in time; else what the shell exited with, if the waiter
   * came before anybody closed the session; else nothing.
   */
  lemma EndSaysWhatHappened(run: seq<Session>, events: seq<Event>, i: nat, j: nat)
    requires IsHistory(run, events) && i <= j < |run| && run[i].sawEnd
    ensures EndsFor(events[..i], run[j].sh.exitErr)
    ensures (exists k :: 0 <= k < i && events[k].UserCloses?) || NotedIn(events[..i])
  {
    HistoryTells(run, events, i);
    HistoryIsRun(run, events);
    EndIsFinal(run, i, j);
    if run[i].byUser {
      ClosedByUser(run, events, i);
    }
  }

  lemma HistoryIsRun(run: seq<Session>, events: seq<Event>)
    requires IsHistory(run, events)
    ensures IsRun(run)
  {
    forall i | 0 <= i < |run| - 1 ensures Next(run[i], run[i + 1]) {
      assert Enabled(run[i], events[i]) && run[i + 1] == After(run[i], events[i]);
    }
  }

  lemma {:induction false} ClosedByUser(run: seq<Session>, events: seq<Event>, n: nat)
    requires IsHistory(run, events) && n < |run| && run[n].byUser
    ensures exists k :: 0 <= k < n && events[k].UserCloses?
  {
    if n > 0 {
      assert run[n - 1 + 1] == After(run[n - 1], events[n - 1]);
      if run[n - 1].byUser {
        ClosedByUser(run, events, n - 1);
      } else {
        assert events[n - 1].UserCloses?;
      }
    }
  }

  // ---------------------------------------------------------------- the pumps

  lemma LastReadStays(h: seq<Event>, e: Event, side: Side)
    requires !(e.Reads? && e.side == side)
    ensures ReadTheLast(h + [e], side) <==> ReadTheLast(h, side)
  {
    var h' := h + [e];
    assert h'[|h|] == e && forall j | 0 <= j < |h| :: h'[j] == h[j];
    if r :| 0 <= r < |h| && h[r].Reads? && h[r].side == side && h[r].last
            && forall j | r < j < |h| :: !(h[j].Reads? && h[j].side == side) {
      assert h'[r] == h[r];
    }
    if r :| 0 <= r < |h'| && h'[r].Reads? && h'[r].side == side && h'[r].last
            && forall j | r < j < |h'| :: !(h'[j].Reads? && h'[j].side == side) {
      assert h[r] == h'[r];
    }
  }

  lemma LastReadIs(h: seq<Event>, e: Event, side: Side)
    requires e.Reads? && e.side == side
    ensures ReadTheLast(h + [e], side) <==> e.last
  {
    assert (h + [e])[|h|] == e;
  }

  lemma LaneStays(s: Session, e: Event, side: Side)
    requires Enabled(s, e) && !OfSide(e, side)
    ensures LaneOf(After(s, e), side) == LaneOf(s, side)
  {
    if !OfPump(e) {
      OthersLeaveLanes(s, e);
    } else {
      OtherPumpAfter(s, e, side);
    }
  }

  lemma OtherEvent(s: Session, h: seq<Event>, e: Event, side: Side)
    requires PumpTold(s, h, side) && Enabled(s, e) && !OfSide(e, side)
    ensures PumpTold(After(s, e), h + [e], side)
  {
    var h' := h + [e];
    Before(h, e);
    LaneStays(s, e, side);
    LastReadStays(h, e, side);
    assert h'[|h|] == e && forall k | 0 <= k < |h| :: h'[k] == h[k];
    forall k | LastOfPump(h', side, k) ensures LastOfPump(h, side, k) && h'[..k] == h[..k] {
    }
  }

  lemma OwnEvent(s: Session, h: seq<Event>, e: Event, side: Side)
    requires PumpTold(s, h, side) && (s.sh.closed <==> ClosedIn(h)) && !s.sh.ended && Enabled(s, e) && OfSide(e, side)
    ensures PumpTold(After(s, e), h + [e], side)
  {
    var h' := h + [e];
    Before(h, e);
    if e.Reads? {
      LastReadIs(h, e, side);
    } else {
      LastReadStays(h, e, side);
    }
    assert h'[|h|] == e;
    forall k | LastOfPump(h', side, k) ensures k == |h| && h'[..k] == h {
      assert |h| <= k;
    }
  }

  lemma {:induction false} PumpsTold(run: seq<Session>, events: seq<Event>, n: nat, side: Side)
    requires IsHistory(run, events) && n < |run|
    ensures PumpTold(run[n], events[..n], side)
  {
    if n > 0 {
      var s, h, e := run[n - 1], events[..n - 1], events[n - 1];
      PumpsTold(run, events, n - 1, side);
      HistoryTells(run, events, n - 1);
      assert run[n - 1 + 1] == After(s, e) && events[..n] == h + [e];
      if OfSide(e, side) {
        NotEnded(s, e, side);
        OwnEvent(s, h, e, side);
      } else {
        OtherEvent(s, h, e, side);
      }
    }
  }

  lemma NotEnded(s: Session, e: Event, side: Side)
    requires Inv(s) && Enabled(s, e) && OfSide(e, side)
    ensures !s.sh.ended
  {
  }

  /** From then on a pump may do exactly what its last event allows: nothing is sent that was looked at once closed. */
  lemma PumpTurns(run: seq<Session>, events: seq<Event>, n: nat, side: Side, k: nat, e: Event)
    requires IsHistory(run, events) && n < |run| && LastOfPump(events[..n], side, k) && OfSide(e, side)
    ensures Enabled(run[n], e) <==>
            PumpMay(events[..n], side, k, e) && (e.Sends? ==> |run[n].sh.channel| < CHANNEL_SIZE)
  {
    PumpsTold(run, events, n, side);
    HistoryTells(run, events, n);
  }
}
