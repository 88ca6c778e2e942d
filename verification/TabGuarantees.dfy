/**
 * What the invariant of TabWorld means to a user: one driver per tab, screens
 * that show exactly their own session, slots and sessions that are never lost,
 * and host keys that are never approved unattended.
 */
module TabGuarantees {
  import opened Options
  import opened TabModel
  import opened TabWorld
  import opened TabRuns

  // ---------------------------------------------------------------- drivers

  /**
   * A tab never has two things in flight for its generation, and what it has
   * is what its state is waiting for.
   */
  lemma AtMostOneDriver(ws: seq<World>, n: nat, i: nat, f: Flight)
    requires IsRun(ws, false) && n < |ws| && i < |ws[n].app.tabs|
    requires f in ws[n].flights && f.gen == ws[n].app.tabs[i].gen
    ensures ws[n].flights[f] == 1
    ensures forall g | g in ws[n].flights && g.gen == f.gen :: g == f
    ensures match ws[n].app.tabs[i].state
            case Connecting => f.Dial? || f.Connected? || f.ConnectFailed?
            case Reconnecting => f.Dial? || f.Connected? || f.ConnectFailed?
            case Live => f.Receive? || f.Output? || f.Ended?
            case Lost => f.Tick? || f.Reconnect?
  {
    InvInEveryRun(false, ws, n);
    assert Drives(ws[n].log, f, ws[n].app.tabs[i]);
  }

  /** Without the RetryFiles step, a tab that is not parked has exactly one. */
  lemma ExactlyOneDriverUnlessParked(ws: seq<World>, n: nat, i: nat)
    requires IsRun(ws, true) && n < |ws| && i < |ws[n].app.tabs|
    ensures HasDriver(ws[n].flights, ws[n].app.tabs[i].gen) <==> !ws[n].app.tabs[i].Parked()
  {
    InvInEveryRun(true, ws, n);
    var t := ws[n].app.tabs[i];
    if HasDriver(ws[n].flights, t.gen) {
      var f :| f in ws[n].flights && f.gen == t.gen;
      assert Drives(ws[n].log, f, t);
    }
  }

  /**
   * That step is where it fails: it leaves every tab that is not parked with a
   * driver exactly when all eight slots are taken, so that it opens nothing.
   */
  lemma RetryFilesStrandsATab(w: World, server: string)
    requires Inv(w, true)
    ensures Inv(After(w, RetryFiles(server)), true) <==> |w.app.tabs| == MAX_TABS
  {
    var w' := After(w, RetryFiles(server));
    if |w.app.tabs| == MAX_TABS {
      assert w' == w;
    } else {
      var t := w'.app.tabs[|w.app.tabs|];
      assert t.state.Connecting? && t.gen == w.app.gen + 1;
      forall f | f in w'.flights ensures f.gen != t.gen {
        assert f in w.flights;
      }
      assert Driven(w', true) ==> HasDriver(w'.flights, t.gen);
    }
  }

  /** From nothing open: one tab, connecting, and nothing that will ever answer it. */
  lemma ARetryStrands(server: string)
    ensures Enabled(INITIAL_WORLD, RetryFiles(server))
    ensures var w := After(INITIAL_WORLD, RetryFiles(server));
            |w.app.tabs| == 1 && w.app.tabs[0].state.Connecting? && w.flights == multiset{}
  {
    assert TabIndexFor(INITIAL_WORLD.app.tabs, server) == -1;
  }

  /** An output message that finds its tab finds the session it came from, so the next receive has one to wait on. */
  lemma OutputFindsItsSession(ws: seq<World>, n: nat, gen: int, from: Option<Session>, data: Chunk)
    requires IsRun(ws, false) && n < |ws| && Output(gen, from, data) in ws[n].flights
    ensures var i := TabByGen(ws[n].app.tabs, gen);
            i >= 0 ==> from.Some? && OnOutput(ws[n].app, gen, data).cmd == Some(Receive(gen, from))
  {
    InvInEveryRun(false, ws, n);
    var i := TabByGen(ws[n].app.tabs, gen);
    if i >= 0 {
      assert Drives(ws[n].log, Output(gen, from, data), ws[n].app.tabs[i]);
    }
  }

  /** The retry count is positive exactly while the tab is down; a tab that is up or in its first dial has none. */
  lemma AttemptCountsFailures(ws: seq<World>, n: nat, i: nat)
    requires IsRun(ws, false) && n < |ws| && i < |ws[n].app.tabs|
    ensures ws[n].app.tabs[i].attempt > 0 <==> ws[n].app.tabs[i].state in {Lost, Reconnecting}
  {
    InvInEveryRun(false, ws, n);
    assert TabOk(ws[n].app.tabs[i]);
  }

  // ---------------------------------------------------------------- screens

  /** The chunk read for a tab but not yet printed. */
  ghost predicate Pending(w: World, gen: int, chunks: seq<Chunk>) {
    if exists from, data :: Output(gen, from, data) in w.flights
    then exists from, data :: Output(gen, from, data) in w.flights && chunks == [data]
    else chunks == []
  }

  /**
   * On screen or in the background, a live tab shows everything its session
   * printed, in order, once, and nothing else, but for the chunk on its way.
   */
  lemma LiveScreenIsItsSession(ws: seq<World>, n: nat, i: nat, chunks: seq<Chunk>)
    requires IsRun(ws, false) && n < |ws| && i < |ws[n].app.tabs|
    requires ws[n].app.tabs[i].state.Live? && Pending(ws[n], ws[n].app.tabs[i].gen, chunks)
    ensures var t := ws[n].app.tabs[i];
            t.session.Some? && t.session.value < |ws[n].log| && ws[n].log[t.session.value] == t.slot.screen + chunks
  {
    InvInEveryRun(false, ws, n);
    var w, t := ws[n], ws[n].app.tabs[i];
    assert HasDriver(w.flights, t.gen);
    var f :| f in w.flights && f.gen == t.gen;
    assert Drives(w.log, f, t);
    if exists from, data :: Output(t.gen, from, data) in w.flights {
      var from, data :| Output(t.gen, from, data) in w.flights && chunks == [data];
      assert f == Output(t.gen, from, data);
    } else {
      assert !f.Output?;
    }
  }

  /** A tab waiting to come back keeps showing all its last session printed; a tab in its first dial is blank. */
  lemma DownScreenIsTheLastSession(ws: seq<World>, n: nat, i: nat)
    requires IsRun(ws, false) && n < |ws| && i < |ws[n].app.tabs|
    ensures var t := ws[n].app.tabs[i];
            && (t.Down() ==> exists s :: s in ws[n].ended && s < |ws[n].log| && t.slot.screen == ws[n].log[s])
            && (t.state.Connecting? ==> t.slot.screen == [])
  {
    InvInEveryRun(false, ws, n);
    assert TabOk(ws[n].app.tabs[i]);
    if ws[n].app.tabs[i].Down() {
      assert ShowsDead(ws[n], ws[n].app.tabs[i]);
    }
  }

  /** Closing another tab, whichever it is, leaves the one on screen on screen. */
  lemma ClosingAnotherKeepsTheVisible(app: App, i: nat)
    requires AppOk(app) && i < |app.tabs| && i != app.active
    ensures var after := CloseTab(app, i);
            0 <= after.active < |after.tabs| && after.tabs[after.active] == app.tabs[app.active]
  {
  }

  /** The visible tab's index is valid whenever a tab is open, and -1 otherwise. */
  lemma ActiveInRange(ws: seq<World>, n: nat)
    requires IsRun(ws, false) && n < |ws|
    ensures -1 <= ws[n].app.active < |ws[n].app.tabs|
    ensures ws[n].app.active == -1 <==> ws[n].app.tabs == []
  {
    InvInEveryRun(false, ws, n);
  }

  // ---------------------------------------------------------------- slots

  /** Positions of the slots with this id. */
  ghost function Positions(app: App, id: nat): set<nat>
    requires PoolOk(app)
  {
    set k: nat | 0 <= k < app.live && SlotAt(app, k).id == id
  }

  ghost function Ids(app: App, n: nat): set<nat>
    requires PoolOk(app) && n <= app.live
  {
    set k: nat | k < n :: SlotAt(app, k).id
  }

  lemma NewId(app: App, n: nat)
    requires PoolOk(app) && n < app.live
    ensures SlotAt(app, n).id !in Ids(app, n)
  {
  }

  lemma {:induction false} DistinctIds(app: App, n: nat)
    requires PoolOk(app) && n <= app.live
    ensures |Ids(app, n)| == n
  {
    if n == 0 {
      assert Ids(app, 0) == {};
    } else {
      DistinctIds(app, n - 1);
      NewId(app, n - 1);
      assert Ids(app, n) == Ids(app, n - 1) + {SlotAt(app, n - 1).id};
    }
  }

  lemma {:induction false} Below(n: nat, s: set<nat>)
    requires forall x | x in s :: x < n
    ensures |s| <= n
    ensures |s| == n ==> forall x: nat | x < n :: x in s
  {
    if n == 0 {
      assert s == {};
    } else {
      var rest := s - {n - 1};
      Below(n - 1, rest);
      assert s == if n - 1 in s then rest + {n - 1} else rest;
    }
  }

  /**
   * At most eight slots are ever made; each is held by exactly one open tab or
   * is free, never both and never neither, and no free one writes or shows
   * anything.
   */
  lemma SlotsArePartitioned(ws: seq<World>, n: nat, id: nat)
    requires IsRun(ws, false) && n < |ws| && id < ws[n].app.live
    ensures ws[n].app.live == |ws[n].app.tabs| + |ws[n].app.free| <= MAX_TABS
    ensures PoolOk(ws[n].app) && |Positions(ws[n].app, id)| == 1
    ensures forall k | 0 <= k < |ws[n].app.free| :: ws[n].app.free[k].writer == None && ws[n].app.free[k].screen == []
  {
    InvInEveryRun(false, ws, n);
    var app := ws[n].app;
    DistinctIds(app, app.live);
    Below(app.live, Ids(app, app.live));
    assert id in Ids(app, app.live);
    var k: nat :| k < app.live && SlotAt(app, k).id == id;
    forall j | j in Positions(app, id) ensures j == k {
    }
    assert Positions(app, id) == {k};
  }

  /** A slot's key pump feeds session s exactly while its tab is live on s. */
  lemma PumpFollowsTheSession(ws: seq<World>, n: nat, i: nat, s: Session)
    requires IsRun(ws, false) && n < |ws| && i < |ws[n].app.tabs|
    ensures var t := ws[n].app.tabs[i]; t.slot.writer == Some(s) <==> t.state.Live? && t.session == Some(s)
  {
    InvInEveryRun(false, ws, n);
    assert TabOk(ws[n].app.tabs[i]);
  }

  // ---------------------------------------------------------------- sessions

  /** Every session delivered is on its way to the loop, held by exactly one tab, closed, or over. */
  lemma NoSessionLeaks(ws: seq<World>, n: nat, s: Session)
    requires IsRun(ws, false) && n < |ws| && s < |ws[n].dialed|
    ensures || s in ws[n].ended || s in ws[n].app.closed
            || Connected(ws[n].dialed[s], s) in ws[n].flights || Held(ws[n].app, s)
    ensures forall i, j | 0 <= i < |ws[n].app.tabs| && 0 <= j < |ws[n].app.tabs|
              && ws[n].app.tabs[i].session == Some(s) && ws[n].app.tabs[j].session == Some(s) :: i == j
    ensures Held(ws[n].app, s) ==> s !in ws[n].app.closed && Connected(ws[n].dialed[s], s) !in ws[n].flights
  {
    InvInEveryRun(false, ws, n);
    var w := ws[n];
    forall i, j | 0 <= i < |w.app.tabs| && 0 <= j < |w.app.tabs|
      && w.app.tabs[i].session == Some(s) && w.app.tabs[j].session == Some(s)
      ensures i == j
    {
      assert w.app.tabs[i].gen == w.dialed[s] == w.app.tabs[j].gen;
    }
    if Held(w.app, s) && Connected(w.dialed[s], s) in w.flights {
      var i :| 0 <= i < |w.app.tabs| && w.app.tabs[i].session == Some(s);
      HeldHasArrived(w, i, Connected(w.dialed[s], s));
      assert false;
    }
  }

  /** After quitting, every session that reached the loop has been closed or was already over. */
  lemma QuitLeavesNothingOpen(ws: seq<World>, n: nat, s: Session)
    requires IsRun(ws, false) && n < |ws| && s < |ws[n].dialed|
    ensures var w' := After(ws[n], Quit);
            && w'.app.tabs == []
            && (s in w'.ended || s in w'.app.closed || Connected(w'.dialed[s], s) in w'.flights)
  {
    InvInEveryRun(false, ws, n);
    QuitKeeps(false, ws[n], After(ws[n], Quit));
  }

  // ---------------------------------------------------------------- host keys

  /** What a message can start: more of its own generation, or an unattended dial of a new one. */
  lemma UpdateStarts(app: App, m: Flight)
    requires m.IsMessage()
    ensures var cmd := Update(app, m).cmd;
            cmd.None? || (cmd.value.gen == m.gen && !cmd.value.Dial?) || cmd == Some(Dial(app.gen + 1, false))
  {
  }

  /** Outside the loop a flight only turns into another of its generation. */
  lemma OutsideTurns(w: World, e: Event, f: Flight)
    requires e.DialSucceeds? || e.DialFails? || e.ChunkArrives? || e.ChannelCloses? || e.TimerFires?
    requires Enabled(w, e) && f in After(w, e).flights && f !in w.flights
    ensures !f.Dial? && HasDriver(w.flights, f.gen)
  {
    match e
    case DialSucceeds(gen, prompts) => assert Dial(gen, prompts) in w.flights;
    case DialFails(gen, prompts, _) => assert Dial(gen, prompts) in w.flights;
    case ChunkArrives(gen, from, _) => assert Receive(gen, Some(from)) in w.flights;
    case ChannelCloses(gen, from, _) => assert Receive(gen, Some(from)) in w.flights;
    case TimerFires(gen, wait) => assert Tick(gen, wait) in w.flights;
  }

  lemma StartAdds(flights: multiset<Flight>, m: Option<Flight>, cmd: Option<Flight>, f: Flight)
    requires f in Start(Without(flights, m), cmd) && f !in flights
    ensures cmd == Some(f)
  {
  }

  lemma DeliverStarts(w: World, m: Flight, f: Flight)
    requires Enabled(w, Deliver(m)) && f in After(w, Deliver(m)).flights && f !in w.flights
    ensures (!f.Dial? && HasDriver(w.flights, f.gen)) || f == Dial(w.app.gen + 1, false)
  {
    UpdateStarts(w.app, m);
    assert m in w.flights;
    StartAdds(w.flights, Some(m), Update(w.app, m).cmd, f);
  }

  /** Where a flight that was not there before has come from. */
  lemma NewFlight(w: World, e: Event, f: Flight)
    requires Enabled(w, e) && f in After(w, e).flights && f !in w.flights
    ensures || (!f.Dial? && HasDriver(w.flights, f.gen))
            || (e.Deliver? && f == Dial(w.app.gen + 1, false))
            || ((e.Open? || e.PressR?) && f == Dial(w.app.gen + 1, true))
  {
    if e.DialSucceeds? || e.DialFails? || e.ChunkArrives? || e.ChannelCloses? || e.TimerFires? {
      OutsideTurns(w, e, f);
    } else if e.Deliver? {
      DeliverStarts(w, e.msg, f);
    } else if e.Open? {
      StartAdds(w.flights, None, OpenTab(w.app, e.server, e.force).cmd, f);
    } else if e.PressR? {
      StartAdds(w.flights, None, PressReconnect(w.app).cmd, f);
    }
  }

  /**
   * A dial that may ask about a host key starts only with a key the user
   * pressed; one started by a timer never may.
   */
  lemma UnattendedDialsNeverAsk(w: World, e: Event, gen: int, prompts: bool)
    requires Enabled(w, e)
    requires Dial(gen, prompts) !in w.flights && Dial(gen, prompts) in After(w, e).flights
    ensures prompts <==> e.Open? || e.PressR?
  {
    NewFlight(w, e, Dial(gen, prompts));
  }

  /** The tab of generation gen waits for the user: lost, no timer armed, nothing in flight. */
  ghost predicate WaitsForUser(w: World, gen: int) {
    && (exists i :: 0 <= i < |w.app.tabs| && w.app.tabs[i].gen == gen && w.app.tabs[i].Parked())
    && !HasDriver(w.flights, gen)
  }

  /** An automatic retry that meets an unknown host key leaves the tab waiting for the user. */
  lemma UnknownKeyParksTheTab(w: World, gen: int)
    requires Inv(w, false) && ConnectFailed(gen, HostKeyUnknown) in w.flights
    requires var i := TabByGen(w.app.tabs, gen); i >= 0 && w.app.tabs[i].state.Reconnecting?
    ensures WaitsForUser(After(w, Deliver(ConnectFailed(gen, HostKeyUnknown))), gen)
  {
    var m := ConnectFailed(gen, HostKeyUnknown);
    var w' := After(w, Deliver(m));
    var i := TabByGen(w.app.tabs, gen);
    assert TabOk(w.app.tabs[i]);
    assert w'.app.tabs[i].gen == gen && w'.app.tabs[i].Parked();
    assert w'.flights == w.flights - multiset{m} && w.flights[m] == 1;
    forall f | f in w'.flights ensures f.gen != gen {
      assert f in w.flights && f != m;
    }
  }

  /** The step takes the tab of generation gen away from waiting on purpose. */
  predicate UserActs(w: World, e: Event, gen: int) {
    match e
    case PressR => 0 <= w.app.active < |w.app.tabs| && w.app.tabs[w.app.active].gen == gen
    case CloseVisible => 0 <= w.app.active < |w.app.tabs| && w.app.tabs[w.app.active].gen == gen
    case Quit => true
    case _ => false
  }

  /** Nothing appears in flight for a generation that had nothing, unless the generation is new. */
  lemma NothingFromNothing(w: World, e: Event, f: Flight)
    requires Enabled(w, e) && f in After(w, e).flights
    ensures HasDriver(w.flights, f.gen) || f.gen > w.app.gen
  {
    if f !in w.flights {
      NewFlight(w, e, f);
    }
  }

  ghost predicate HasParked(app: App, gen: int) {
    exists i :: 0 <= i < |app.tabs| && app.tabs[i].gen == gen && app.tabs[i].Parked()
  }

  lemma CloseKeepsParked(app: App, i: nat, gen: int)
    requires HasParked(app, gen) && AppOk(app) && i < |app.tabs| && app.tabs[i].gen != gen
    ensures HasParked(CloseTab(app, i), gen)
  {
    var k :| 0 <= k < |app.tabs| && app.tabs[k].gen == gen && app.tabs[k].Parked();
    var after := CloseTab(app, i);
    CloseTabTabs(app, i);
    var j := if k < i then k else k - 1;
    assert after.tabs[j] == app.tabs[k].(activity := after.tabs[j].activity);
  }

  /** Position k keeps its tab, but for its activity mark. */
  predicate StillAt(app: App, k: nat, t: Tab) {
    k < |app.tabs| && app.tabs[k] == t.(activity := app.tabs[k].activity)
  }

  /** The app after a message for tab i: the same tabs, one of them changed, or one of them closed. */
  predicate OneTabChanged(app: App, i: int, after: App) {
    || after.tabs == app.tabs
    || (0 <= i < |app.tabs| && after == CloseTab(app, i))
    || (0 <= i < |app.tabs| == |after.tabs| && after.tabs == app.tabs[i := after.tabs[i]])
  }

  lemma ConnectedReaches(app: App, gen: int, session: Session)
    ensures OneTabChanged(app, TabByGen(app.tabs, gen), OnConnected(app, gen, session).app)
  {
  }

  lemma ConnectFailedReaches(app: App, gen: int, error: Error)
    ensures OneTabChanged(app, TabByGen(app.tabs, gen), OnConnectFailed(app, gen, error).app)
  {
  }

  lemma EndedReaches(app: App, gen: int, reason: Option<Error>)
    ensures OneTabChanged(app, TabByGen(app.tabs, gen), OnEnded(app, gen, reason).app)
  {
  }

  lemma OutputReaches(app: App, gen: int, data: Chunk)
    ensures OneTabChanged(app, TabByGen(app.tabs, gen), OnOutput(app, gen, data).app)
  {
  }

  lemma ReconnectReaches(app: App, gen: int)
    ensures OneTabChanged(app, TabByGen(app.tabs, gen), OnReconnect(app, gen).app)
  {
  }

  /** A message closes its tab or changes it in place; it reaches no other. */
  lemma UpdateReachesOneTab(app: App, m: Flight)
    requires m.IsMessage()
    ensures OneTabChanged(app, TabByGen(app.tabs, m.gen), Update(app, m).app)
  {
    match m
    case Connected(gen, session) => ConnectedReaches(app, gen, session);
    case ConnectFailed(gen, error) => ConnectFailedReaches(app, gen, error);
    case Ended(gen, _, reason) => EndedReaches(app, gen, reason);
    case Output(gen, _, data) => OutputReaches(app, gen, data);
    case Reconnect(gen) => ReconnectReaches(app, gen);
  }

  lemma OneTabKeepsParked(app: App, i: int, after: App, gen: int)
    requires AppOk(app) && HasParked(app, gen) && OneTabChanged(app, i, after)
    requires 0 <= i < |app.tabs| ==> app.tabs[i].gen != gen
    ensures HasParked(after, gen)
  {
    var k :| 0 <= k < |app.tabs| && app.tabs[k].gen == gen && app.tabs[k].Parked();
    if 0 <= i < |app.tabs| && after == CloseTab(app, i) {
      CloseKeepsParked(app, i, gen);
    } else {
      assert after.tabs[k] == app.tabs[k];
    }
  }

  lemma DeliverKeepsParked(app: App, m: Flight, after: App, gen: int)
    requires AppOk(app) && m.IsMessage() && m.gen != gen && HasParked(app, gen) && after == Update(app, m).app
    ensures HasParked(after, gen)
  {
    UpdateReachesOneTab(app, m);
    OneTabKeepsParked(app, TabByGen(app.tabs, m.gen), after, gen);
  }

  lemma SwitchKeepsPlace(app: App, i: int, k: nat)
    requires k < |app.tabs|
    ensures StillAt(SwitchTo(app, i), k, app.tabs[k])
  {
  }

  lemma OpenKeepsPlace(app: App, server: string, force: bool, k: nat)
    requires k < |app.tabs|
    ensures StillAt(OpenTab(app, server, force).app, k, app.tabs[k])
  {
    SwitchKeepsPlace(app, TabIndexFor(app.tabs, server), k);
  }

  lemma UserKeepsParked(w: World, e: Event, k: nat)
    requires Enabled(w, e) && k < |w.app.tabs|
    requires e.Open? || e.RetryFiles? || e.Switch? || e.Cycle? || e.PressR?
    requires !UserActs(w, e, w.app.tabs[k].gen)
    ensures StillAt(After(w, e).app, k, w.app.tabs[k])
  {
    match e
    case Open(server, force) => OpenKeepsPlace(w.app, server, force, k);
    case RetryFiles(server) => OpenKeepsPlace(w.app, server, true, k);
    case Switch(to) => SwitchKeepsPlace(w.app, to, k);
    case Cycle(delta) =>
      var n := |w.app.tabs|;
      SwitchKeepsPlace(w.app, GoRem(GoRem(w.app.active + delta, n) + n, n), k);
    case PressR =>
  }

  lemma StepKeepsParked(w: World, e: Event, gen: int)
    requires AppOk(w.app) && Enabled(w, e) && HasParked(w.app, gen) && !UserActs(w, e, gen)
    requires !HasDriver(w.flights, gen)
    ensures HasParked(After(w, e).app, gen)
  {
    var k :| 0 <= k < |w.app.tabs| && w.app.tabs[k].gen == gen && w.app.tabs[k].Parked();
    if e.Deliver? {
      DeliverKeepsParked(w.app, e.msg, After(w, e).app, gen);
    } else if e.CloseVisible? {
      if 0 <= w.app.active < |w.app.tabs| {
        CloseKeepsParked(w.app, w.app.active, gen);
      }
    } else if e.Open? || e.RetryFiles? || e.Switch? || e.Cycle? || e.PressR? {
      UserKeepsParked(w, e, k);
    }
  }

  lemma StepKeepsWaiting(w: World, e: Event, gen: int)
    requires Inv(w, false) && Enabled(w, e) && WaitsForUser(w, gen) && !UserActs(w, e, gen)
    ensures WaitsForUser(After(w, e), gen)
  {
    assert HasParked(w.app, gen);
    StepKeepsParked(w, e, gen);
    assert gen <= w.app.gen by {
      var i :| 0 <= i < |w.app.tabs| && w.app.tabs[i].gen == gen && w.app.tabs[i].Parked();
    }
    forall f | f in After(w, e).flights ensures f.gen != gen {
      NothingFromNothing(w, e, f);
    }
    assert HasParked(After(w, e).app, gen);
  }

  /** A run told by its events. */
  ghost predicate IsRunOf(ws: seq<World>, events: seq<Event>) {
    && |ws| == |events| + 1 && ws[0] == INITIAL_WORLD
    && forall i | 0 <= i < |events| :: Enabled(ws[i], events[i]) && ws[i + 1] == After(ws[i], events[i])
  }

  lemma RunOfIsRun(ws: seq<World>, events: seq<Event>)
    requires IsRunOf(ws, events)
    ensures IsRun(ws, false)
  {
    forall i | 0 <= i < |ws| - 1 ensures NextWorld(ws[i], ws[i + 1], false) {
      assert Enabled(ws[i], events[i]) && ws[i + 1] == After(ws[i], events[i]);
    }
  }

  ghost predicate EachStepWaits(ws: seq<World>, events: seq<Event>, gen: int) {
    && |ws| == |events| + 1
    && forall k | 0 <= k < |events| && WaitsForUser(ws[k], gen) && !UserActs(ws[k], events[k], gen) :: WaitsForUser(ws[k + 1], gen)
  }

  lemma RunWaits(ws: seq<World>, events: seq<Event>, gen: int)
    requires IsRunOf(ws, events)
    ensures EachStepWaits(ws, events, gen)
  {
    RunOfIsRun(ws, events);
    forall k | 0 <= k < |events| && WaitsForUser(ws[k], gen) && !UserActs(ws[k], events[k], gen) ensures WaitsForUser(ws[k + 1], gen) {
      InvInEveryRun(false, ws, k);
      StepKeepsWaiting(ws[k], events[k], gen);
    }
  }

  lemma {:induction false} WaitsFrom(ws: seq<World>, events: seq<Event>, i: nat, j: nat, gen: int)
    requires EachStepWaits(ws, events, gen) && i <= j < |ws| && WaitsForUser(ws[i], gen)
    requires forall k | i <= k < j :: !UserActs(ws[k], events[k], gen)
    ensures WaitsForUser(ws[j], gen)
    decreases j
  {
    if i < j {
      WaitsFrom(ws, events, i, j - 1, gen);
      assert WaitsForUser(ws[j - 1 + 1], gen);
    }
  }

  /**
   * Once a tab waits for the user it goes on waiting, with nothing in flight,
   * for as long as the run goes without the user reconnecting or closing it.
   */
  lemma WaitsUntilTheUserActs(ws: seq<World>, events: seq<Event>, i: nat, j: nat, gen: int)
    requires IsRunOf(ws, events) && i <= j < |ws| && WaitsForUser(ws[i], gen)
    requires forall k | i <= k < j :: !UserActs(ws[k], events[k], gen)
    ensures WaitsForUser(ws[j], gen)
  {
    RunWaits(ws, events, gen);
    WaitsFrom(ws, events, i, j, gen);
  }
}
