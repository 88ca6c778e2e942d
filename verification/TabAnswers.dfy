/** What each message, and each key, makes of the tab it is for. */
module TabAnswers {
  import opened Options
  import opened TabModel
  import opened TabWorld
  import opened TabOutcomes
  import opened TabRuns

  // ---------------------------------------------------------------- one message taken

  lemma Taken(w: World, m: Flight)
    requires OnePerGen(w) && m in w.flights
    ensures !HasDriver(w.flights - multiset{m}, m.gen)
  {
    assert w.flights[m] == 1;
    forall f | f in w.flights - multiset{m} ensures f.gen != m.gen {
      assert f in w.flights && f != m;
    }
  }

  lemma TheTab(app: App, i: nat)
    requires TabsOk(app) && i < |app.tabs|
    ensures TabByGen(app.tabs, app.tabs[i].gen) == i
  {
  }

  /** With one flight of its generation started, there is one. */
  lemma Started(flights: multiset<Flight>, f: Flight)
    requires !HasDriver(flights, f.gen)
    ensures Start(flights, Some(f))[f] == 1
  {
    assert f !in flights;
  }

  lemma ClosedIsGone(w: World, i: nat, w': World)
    requires AppOk(w.app) && i < |w.app.tabs| && w'.app == CloseTab(w.app, i)
    ensures Gone(w, i, w')
  {
    CloseTabTabs(w.app, i);
  }

  lemma WaitIsDoubled(failed: nat)
    ensures Backoff(failed + 1) == DoubledUpTo30(failed)
  {
    BackoffIsCappedDoubling(failed + 1);
    CappedEachTime(failed);
  }

  /** Capping at every doubling is capping at the end. */
  lemma {:induction false} CappedEachTime(failed: nat)
    ensures DoubledUpTo30(failed) == if Pow2(failed) < 30 then Pow2(failed) else 30
  {
    if failed > 0 {
      CappedEachTime(failed - 1);
    }
  }

  // ---------------------------------------------------------------- a session's end

  lemma LossRetries(w: World, i: nat, m: Flight)
    requires OnePerGen(w) && TabsOk(w.app) && i < |w.app.tabs| && m in w.flights && m.Ended? && m.gen == w.app.tabs[i].gen
    requires m.reason == Some(ConnectionLost)
    ensures WillRetry(w, i, After(w, Deliver(m)))
  {
    TheTab(w.app, i);
    Taken(w, m);
    Started(w.flights - multiset{m}, Tick(m.gen, Backoff(w.app.tabs[i].attempt + 1)));
    WaitIsDoubled(w.app.tabs[i].attempt);
  }

  lemma EndCloses(w: World, i: nat, m: Flight)
    requires OnePerGen(w) && AppOk(w.app) && i < |w.app.tabs| && m in w.flights && m.Ended? && m.gen == w.app.tabs[i].gen
    requires m.reason != Some(ConnectionLost)
    ensures Gone(w, i, After(w, Deliver(m))) && !HasDriver(After(w, Deliver(m)).flights, m.gen)
  {
    TheTab(w.app, i);
    Taken(w, m);
    ClosedIsGone(w, i, After(w, Deliver(m)));
  }

  /**
   * A session's end leaves its tab waiting for a timer if and only if the
   * connection was lost, and takes the tab away if and only if it was not.
   */
  lemma EndedDecides(ws: seq<World>, n: nat, i: nat, from: Option<Session>, reason: Option<Error>)
    requires IsRun(ws, false) && n < |ws| && i < |ws[n].app.tabs|
    requires Ended(ws[n].app.tabs[i].gen, from, reason) in ws[n].flights
    ensures var w, m := ws[n], Ended(ws[n].app.tabs[i].gen, from, reason);
            var w' := After(w, Deliver(m));
            && (WillRetry(w, i, w') <==> reason == Some(ConnectionLost))
            && (Gone(w, i, w') && !HasDriver(w'.flights, m.gen) <==> reason != Some(ConnectionLost))
  {
    InvInEveryRun(false, ws, n);
    var w, m := ws[n], Ended(ws[n].app.tabs[i].gen, from, reason);
    if reason == Some(ConnectionLost) {
      LossRetries(w, i, m);
    } else {
      EndCloses(w, i, m);
    }
  }

  // ---------------------------------------------------------------- a dial's answer

  lemma FailureCloses(w: World, i: nat, m: Flight)
    requires OnePerGen(w) && AppOk(w.app) && i < |w.app.tabs| && m in w.flights && m.ConnectFailed? && m.gen == w.app.tabs[i].gen
    requires w.app.tabs[i].state.Connecting?
    ensures Gone(w, i, After(w, Deliver(m))) && !HasDriver(After(w, Deliver(m)).flights, m.gen)
  {
    TheTab(w.app, i);
    Taken(w, m);
    assert TabOk(w.app.tabs[i]);
    ClosedIsGone(w, i, After(w, Deliver(m)));
  }

  lemma UnknownKeyParks(w: World, i: nat, m: Flight)
    requires OnePerGen(w) && TabsOk(w.app) && i < |w.app.tabs| && m in w.flights && m.ConnectFailed? && m.gen == w.app.tabs[i].gen
    requires w.app.tabs[i].state.Reconnecting? && m.error.HostKeyUnknown?
    ensures WaitsForR(w, i, After(w, Deliver(m)))
  {
    TheTab(w.app, i);
    Taken(w, m);
    assert TabOk(w.app.tabs[i]);
  }

  lemma FailureRetries(w: World, i: nat, m: Flight)
    requires OnePerGen(w) && TabsOk(w.app) && i < |w.app.tabs| && m in w.flights && m.ConnectFailed? && m.gen == w.app.tabs[i].gen
    requires w.app.tabs[i].state.Reconnecting? && !m.error.HostKeyUnknown?
    ensures WillRetry(w, i, After(w, Deliver(m)))
  {
    TheTab(w.app, i);
    Taken(w, m);
    assert TabOk(w.app.tabs[i]);
    Started(w.flights - multiset{m}, Tick(m.gen, Backoff(w.app.tabs[i].attempt + 1)));
    WaitIsDoubled(w.app.tabs[i].attempt);
  }

  /**
   * A dial that fails takes its tab away if it was the first; if it was to
   * bring the tab back, an unknown host key leaves it waiting for the user and
   * anything else waiting for a timer.
   */
  lemma ConnectFailedDecides(ws: seq<World>, n: nat, i: nat, error: Error)
    requires IsRun(ws, false) && n < |ws| && i < |ws[n].app.tabs|
    requires ConnectFailed(ws[n].app.tabs[i].gen, error) in ws[n].flights
    ensures var w, m := ws[n], ConnectFailed(ws[n].app.tabs[i].gen, error);
            var w', first := After(w, Deliver(m)), w.app.tabs[i].state.Connecting?;
            && (Gone(w, i, w') && !HasDriver(w'.flights, m.gen) <==> first)
            && (WaitsForR(w, i, w') <==> !first && error.HostKeyUnknown?)
            && (WillRetry(w, i, w') <==> !first && !error.HostKeyUnknown?)
  {
    InvInEveryRun(false, ws, n);
    var w, m := ws[n], ConnectFailed(ws[n].app.tabs[i].gen, error);
    assert Drives(w.log, m, w.app.tabs[i]);
    if w.app.tabs[i].state.Connecting? {
      FailureCloses(w, i, m);
    } else if error.HostKeyUnknown? {
      UnknownKeyParks(w, i, m);
    } else {
      FailureRetries(w, i, m);
    }
  }

  lemma ConnectedIsLive(w: World, i: nat, m: Flight)
    requires OnePerGen(w) && TabsOk(w.app) && i < |w.app.tabs| && m in w.flights && m.Connected? && m.gen == w.app.tabs[i].gen
    requires Drives(w.log, m, w.app.tabs[i])
    ensures IsLive(w, i, m.session, After(w, Deliver(m)))
  {
    TheTab(w.app, i);
    Taken(w, m);
    assert TabOk(w.app.tabs[i]);
    Started(w.flights - multiset{m}, Receive(m.gen, Some(m.session)));
  }

  /** A dial that succeeds leaves its tab live on its session. */
  lemma ConnectedDecides(ws: seq<World>, n: nat, i: nat, s: Session)
    requires IsRun(ws, false) && n < |ws| && i < |ws[n].app.tabs|
    requires Connected(ws[n].app.tabs[i].gen, s) in ws[n].flights
    ensures IsLive(ws[n], i, s, After(ws[n], Deliver(Connected(ws[n].app.tabs[i].gen, s))))
  {
    InvInEveryRun(false, ws, n);
    assert Drives(ws[n].log, Connected(ws[n].app.tabs[i].gen, s), ws[n].app.tabs[i]);
    ConnectedIsLive(ws[n], i, Connected(ws[n].app.tabs[i].gen, s));
  }

  // ---------------------------------------------------------------- output, timers, stale messages

  lemma OutputIsShown(w: World, i: nat, m: Flight)
    requires OnePerGen(w) && TabsOk(w.app) && i < |w.app.tabs| && m in w.flights && m.Output? && m.gen == w.app.tabs[i].gen
    ensures ShowsMore(w, i, m.data, After(w, Deliver(m)))
  {
    TheTab(w.app, i);
    Taken(w, m);
    Started(w.flights - multiset{m}, Receive(m.gen, w.app.tabs[i].session));
  }

  /** Output goes to the end of its tab's screen, wherever the tab is, and marks it if it is not on screen. */
  lemma OutputDecides(ws: seq<World>, n: nat, i: nat, from: Option<Session>, data: Chunk)
    requires IsRun(ws, false) && n < |ws| && i < |ws[n].app.tabs|
    requires Output(ws[n].app.tabs[i].gen, from, data) in ws[n].flights
    ensures ShowsMore(ws[n], i, data, After(ws[n], Deliver(Output(ws[n].app.tabs[i].gen, from, data))))
  {
    InvInEveryRun(false, ws, n);
    OutputIsShown(ws[n], i, Output(ws[n].app.tabs[i].gen, from, data));
  }

  lemma NoneOfTheNext(w: World)
    requires OnePerGen(w)
    ensures !HasDriver(w.flights, w.app.gen + 1)
  {
  }

  lemma TimerDials(w: World, i: nat, m: Flight)
    requires OnePerGen(w) && TabsOk(w.app) && i < |w.app.tabs| && m in w.flights && m.Reconnect? && m.gen == w.app.tabs[i].gen
    requires w.app.tabs[i].state.Lost?
    ensures DialsAgain(w, i, false, After(w, Deliver(m)))
  {
    TheTab(w.app, i);
    NoneOfTheNext(w);
    assert !HasDriver(w.flights - multiset{m}, w.app.gen + 1);
    Started(w.flights - multiset{m}, Dial(w.app.gen + 1, false));
  }

  /** The timer's message dials again, without a question to the user. */
  lemma ReconnectDecides(ws: seq<World>, n: nat, i: nat)
    requires IsRun(ws, false) && n < |ws| && i < |ws[n].app.tabs|
    requires Reconnect(ws[n].app.tabs[i].gen) in ws[n].flights
    ensures DialsAgain(ws[n], i, false, After(ws[n], Deliver(Reconnect(ws[n].app.tabs[i].gen))))
  {
    InvInEveryRun(false, ws, n);
    assert Drives(ws[n].log, Reconnect(ws[n].app.tabs[i].gen), ws[n].app.tabs[i]);
    TimerDials(ws[n], i, Reconnect(ws[n].app.tabs[i].gen));
  }

  /** A message no tab is waiting for changes nothing; a session that comes with it is closed. */
  lemma StaleDecides(w: World, m: Flight)
    requires m in w.flights && m.IsMessage() && forall i | 0 <= i < |w.app.tabs| :: w.app.tabs[i].gen != m.gen
    ensures Dropped(if m.Connected? then w.(app := w.app.(closed := w.app.closed + {m.session})) else w, m, After(w, Deliver(m)))
  {
  }

  // ---------------------------------------------------------------- keys

  /** The reconnect key dials for the tab on screen if it is lost, with questions to the user, and else does nothing. */
  lemma PressRDecides(w: World)
    requires Inv(w, false)
    ensures var i, w' := w.app.active, After(w, PressR);
            if 0 <= i < |w.app.tabs| && w.app.tabs[i].state.Lost? then DialsAgain(w, i, true, w') else w' == w
  {
    var i := w.app.active;
    if 0 <= i < |w.app.tabs| && w.app.tabs[i].state.Lost? {
      NoneOfTheNext(w);
      Started(w.flights, Dial(w.app.gen + 1, true));
    }
  }

  /** The close key takes away the tab on screen. */
  lemma CloseVisibleDecides(w: World)
    requires Inv(w, false)
    ensures var w' := After(w, CloseVisible);
            if w.app.tabs == [] then w' == w else 0 <= w.app.active < |w.app.tabs| && Gone(w, w.app.active, w')
  {
    if w.app.tabs != [] {
      ClosedIsGone(w, w.app.active, After(w, CloseVisible));
    }
  }

  /** Cycling goes delta tabs on, around the end and around the beginning. */
  lemma CycleDecides(w: World, delta: int)
    requires ActiveOk(w.app) && w.app.tabs != []
    ensures OnScreen(w, (w.app.active + delta) % |w.app.tabs|, After(w, Cycle(delta)))
  {
    var n := |w.app.tabs|;
    WrapsAround(w.app.active + delta, n);
  }

  lemma WrapsAround(a: int, n: nat)
    requires n > 0
    ensures GoRem(GoRem(a, n) + n, n) == a % n
  {
    var r := GoRem(a, n);
    assert -(n as int) < r < n;
    var q := if a >= 0 then a / n else -((-a) / n);
    if a >= 0 {
      Remainder(r + n, n, 1, r);
    } else {
      Negated(n, (-a) / n);
      if r == 0 {
        Remainder(r + n, n, 1, 0);
        Remainder(a, n, q, 0);
      } else {
        Remainder(r + n, n, 0, r + n);
        Negated(n, 1 - q);
        Remainder(a, n, q - 1, r + n);
      }
    }
  }

  lemma Negated(n: nat, k: int)
    ensures n * -k == -(n * k)
    ensures n * (k + 1) == n * k + n && n * (k - 1) == n * k - n
  {
  }

  /** Only one remainder fits. */
  lemma Remainder(a: int, n: nat, q: int, r: nat)
    requires a == n * q + r && r < n
    ensures a % n == r
  {
    var d, m := a / n, a % n;
    assert n * (q - d) == m - r;
    Times(n, q - d);
  }

  lemma Times(n: nat, k: int)
    ensures k >= 1 ==> n * k >= n
    ensures k <= -1 ==> n * k <= -(n as int)
  {
  }

  /** Choosing a server shows its first tab; with none, or if asked for another session, one more is opened unless eight are open. */
  lemma OpenDecides(w: World, server: string, force: bool)
    requires Inv(w, false)
    ensures var w', i := After(w, Open(server, force)), TabIndexFor(w.app.tabs, server);
            if !force && i >= 0 then OnScreen(w, i, w')
            else if |w.app.tabs| < MAX_TABS then Opened(w, server, w')
            else w' == w
  {
    if (force || TabIndexFor(w.app.tabs, server) < 0) && |w.app.tabs| < MAX_TABS {
      OpensOneMore(w, server, force);
    }
  }

  lemma OpensOneMore(w: World, server: string, force: bool)
    requires OnePerGen(w) && PoolOk(w.app) && |w.app.tabs| < MAX_TABS
    requires force || TabIndexFor(w.app.tabs, server) < 0
    ensures Opened(w, server, After(w, Open(server, force)))
  {
    NoneOfTheNext(w);
    Started(w.flights, Dial(w.app.gen + 1, true));
    OpensOnAFreeSlot(w.app, server, OpenTab(w.app, server, true).app);
  }

  lemma OpensOnAFreeSlot(app: App, server: string, after: App)
    requires PoolOk(app) && |app.tabs| < MAX_TABS && after == OpenTab(app, server, true).app
    ensures |after.tabs| == |app.tabs| + 1 && after.tabs[..|app.tabs|] == app.tabs
    ensures var t := after.tabs[|app.tabs|];
            && t == Tab(server, app.gen + 1, None, Slot(t.slot.id, None, []), Connecting, 0, false, false)
            && forall j | 0 <= j < |app.tabs| :: app.tabs[j].slot.id != t.slot.id
  {
    forall j | 0 <= j < |app.tabs| ensures app.tabs[j].slot.id != after.tabs[|app.tabs|].slot.id {
      assert SlotAt(app, j) == app.tabs[j].slot;
      if app.free != [] {
        assert SlotAt(app, app.live - 1) == app.free[|app.free| - 1];
      }
    }
  }
}
