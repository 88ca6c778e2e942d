/** What no interleaving of dials, receives, timers and key presses can break. */
module TabRuns {
  import opened Options
  import opened TabModel
  import opened TabWorld

  // ---------------------------------------------------------------- the app alone

  lemma SwitchToOk(app: App, i: int)
    requires AppOk(app)
    ensures AppOk(SwitchTo(app, i))
  {
    var after := SwitchTo(app, i);
    assert forall k | 0 <= k < app.live :: SlotAt(after, k) == SlotAt(app, k);
  }

  lemma CloseTabOk(app: App, i: int)
    requires AppOk(app)
    ensures AppOk(CloseTab(app, i))
  {
    if 0 <= i < |app.tabs| {
      CloseTabKeepsPool(app, i);
      CloseTabKeepsTabs(app, i);
    }
  }

  /** Where slot k of the closed panel was before: the closed tab's slot goes to the end. */
  function SlotBefore(n: nat, i: nat, k: nat): nat {
    if k < i then k else if k == n - 1 then i else k + 1
  }

  lemma DropTabSlots(app: App, i: nat, k: nat)
    requires i < |app.tabs| && k < |app.tabs| + |app.free|
    ensures var after := DropTab(app, i);
            && |after.tabs| == |app.tabs| - 1 && |after.free| == |app.free| + 1
            && SlotAt(after, k).id == SlotAt(app, SlotBefore(|app.tabs| + |app.free|, i, k)).id
  {
    var after := DropTab(app, i);
    assert k < i ==> after.tabs[k] == app.tabs[k];
    assert i <= k < |after.tabs| ==> after.tabs[k] == app.tabs[k + 1];
  }

  lemma RefocusSlots(app: App, i: nat, k: nat)
    requires k < |app.tabs| + |app.free|
    ensures var after := Refocus(app, i);
            && |after.tabs| == |app.tabs| && after.free == app.free && after.live == app.live
            && SlotAt(after, k) == SlotAt(app, k)
  {
  }

  lemma CloseTabSlots(app: App, i: nat, k: nat)
    requires PoolOk(app) && i < |app.tabs| && k < app.live
    ensures var after := CloseTab(app, i);
            |after.tabs| == |app.tabs| - 1 && |after.free| == |app.free| + 1 && after.live == app.live
    ensures SlotAt(CloseTab(app, i), k).id == SlotAt(app, SlotBefore(app.live, i, k)).id
  {
    DropTabSlots(app, i, k);
    RefocusSlots(DropTab(app, i), i, k);
  }

  lemma CloseTabKeepsPool(app: App, i: nat)
    requires PoolOk(app) && i < |app.tabs|
    ensures PoolOk(CloseTab(app, i))
  {
    var after := CloseTab(app, i);
    CloseTabSlots(app, i, 0);
    forall k | 0 <= k < app.live ensures SlotAt(after, k).id < app.live {
      CloseTabSlots(app, i, k);
    }
    forall j, k | 0 <= j < k < app.live ensures SlotAt(after, j).id != SlotAt(after, k).id {
      CloseTabSlots(app, i, j);
      CloseTabSlots(app, i, k);
      var a, b := SlotBefore(app.live, i, j), SlotBefore(app.live, i, k);
      assert a != b;
      assert SlotAt(app, if a < b then a else b).id != SlotAt(app, if a < b then b else a).id;
    }
    assert after.free == app.free + [app.tabs[i].slot.(writer := None, screen := [])];
  }

  /** The tabs after tab i is dropped are the others, in order. */
  lemma DropTabTabs(app: App, i: nat)
    requires i < |app.tabs|
    ensures var after := DropTab(app, i);
            && |after.tabs| == |app.tabs| - 1
            && forall j | 0 <= j < |after.tabs| :: after.tabs[j] == app.tabs[if j < i then j else j + 1]
  {
  }

  lemma DropTabKeepsTabs(app: App, i: nat)
    requires TabsOk(app) && i < |app.tabs|
    ensures TabsOk(DropTab(app, i))
  {
    DropTabTabs(app, i);
  }

  lemma RefocusKeepsTabs(app: App, i: nat)
    requires TabsOk(app)
    ensures TabsOk(Refocus(app, i))
  {
    var after := Refocus(app, i);
    assert |after.tabs| == |app.tabs|;
    assert forall j | 0 <= j < |after.tabs| :: after.tabs[j] == app.tabs[j].(activity := after.tabs[j].activity);
  }

  lemma CloseTabKeepsActive(app: App, i: nat)
    requires ActiveOk(app) && i < |app.tabs|
    ensures ActiveOk(CloseTab(app, i))
  {
    DropTabTabs(app, i);
  }

  lemma CloseTabKeepsTabs(app: App, i: nat)
    requires TabsOk(app) && ActiveOk(app) && i < |app.tabs|
    ensures TabsOk(CloseTab(app, i)) && ActiveOk(CloseTab(app, i))
  {
    DropTabKeepsTabs(app, i);
    RefocusKeepsTabs(DropTab(app, i), i);
    CloseTabKeepsActive(app, i);
  }

  /** Where slot k of the panel was before a tab was opened on the pool's last one. */
  lemma OpenNewSlots(app: App, server: string, after: App, k: nat)
    requires PoolOk(app) && GetSlot(app).Some? && after == OpenTab(app, server, true).app && k < after.live
    ensures |after.tabs| == |app.tabs| + 1 && |after.tabs| + |after.free| == after.live <= MAX_TABS
    ensures if |app.free| == 0 && k == app.live then SlotAt(after, k).id == k
            else var n := |app.tabs|;
                 SlotAt(after, k).id == SlotAt(app, if k < n then k else if k == n then app.live - 1 else k - 1).id
  {
    var n := |app.tabs|;
    assert k < n ==> after.tabs[k] == app.tabs[k];
  }

  lemma OpenNewKeepsPool(app: App, server: string, after: App)
    requires PoolOk(app) && GetSlot(app).Some? && after == OpenTab(app, server, true).app
    ensures PoolOk(after)
  {
    forall k | 0 <= k < after.live ensures SlotAt(after, k).id < after.live {
      OpenNewSlots(app, server, after, k);
    }
    forall j, k | 0 <= j < k < after.live ensures SlotAt(after, j).id != SlotAt(after, k).id {
      OpenNewSlots(app, server, after, j);
      OpenNewSlots(app, server, after, k);
    }
  }

  /** A tab appended with a slot from the pool. */
  lemma OpenNewOk(app: App, server: string, after: App)
    requires AppOk(app) && GetSlot(app).Some? && after == OpenTab(app, server, true).app
    ensures AppOk(after)
  {
    OpenNewKeepsPool(app, server, after);
  }

  lemma OpenTabOk(app: App, server: string, force: bool)
    requires AppOk(app)
    ensures AppOk(OpenTab(app, server, force).app)
  {
    var i := TabIndexFor(app.tabs, server);
    if !force && i >= 0 {
      SwitchToOk(app, i);
    } else if GetSlot(app).Some? {
      OpenNewOk(app, server, OpenTab(app, server, force).app);
    }
  }

  /** Replacing one tab by another that keeps its slot keeps the pool. */
  lemma WithTabOk(app: App, i: nat, t: Tab, gen: int)
    requires AppOk(app) && i < |app.tabs|
    requires TabOk(t) && t.slot.id == app.tabs[i].slot.id && app.gen <= gen
    requires t.gen == app.tabs[i].gen || app.gen < t.gen <= gen
    requires i == app.active ==> !t.activity
    ensures AppOk(WithTab(app, i, t).(gen := gen))
  {
    var after := WithTab(app, i, t).(gen := gen);
    assert forall k | 0 <= k < app.live :: SlotAt(after, k).id == SlotAt(app, k).id;
  }

  // ---------------------------------------------------------------- one step outside the loop

  /** w' is w after flight f has turned into g: outputs may be longer, sessions more, and nothing else differs. */
  ghost predicate Turned(w: World, f: Flight, g: Flight, w': World) {
    && f in w.flights && g.gen == f.gen && f != g
    && w'.flights == Replace(w.flights, f, g) && w'.app == w.app
    && w.dialed <= w'.dialed && |w.log| <= |w'.log|
    && w.ended <= w'.ended
  }

  lemma TurnedMembers(w: World, f: Flight, g: Flight, w': World)
    requires OnePerGen(w) && Turned(w, f, g, w')
    ensures OnePerGen(w')
    ensures forall x :: x in w'.flights <==> x == g || (x in w.flights && x.gen != f.gen)
  {
    assert w.flights[f] == 1;
    forall x | x in w.flights && x != f ensures x.gen != f.gen {
    }
    assert g !in w.flights;
  }

  /** Every tab keeps a driver, and each still fits when the new one does. */
  lemma TurnedDrivers(strict: bool, w: World, f: Flight, g: Flight, w': World)
    requires OnePerGen(w) && DriversMatch(w) && Driven(w, strict) && Turned(w, f, g, w')
    requires forall x, t | x in w.flights && x.gen != f.gen && Drives(w.log, x, t) :: Drives(w'.log, x, t)
    requires forall t | Drives(w.log, f, t) :: Drives(w'.log, g, t)
    ensures OnePerGen(w') && DriversMatch(w') && Driven(w', strict)
  {
    TurnedMembers(w, f, g, w');
    forall i | 0 <= i < |w.app.tabs| && HasDriver(w.flights, w.app.tabs[i].gen)
      ensures HasDriver(w'.flights, w.app.tabs[i].gen)
    {
      var x :| x in w.flights && x.gen == w.app.tabs[i].gen;
      assert (if x.gen == f.gen then g else x) in w'.flights;
    }
  }

  lemma TurnedNames(w: World, f: Flight, g: Flight, w': World)
    requires OnePerGen(w) && FlightsNamed(w) && Turned(w, f, g, w')
    requires FlightNames(w', g)
    requires forall x | x in w.flights && x.gen != f.gen && FlightNames(w, x) :: FlightNames(w', x)
    ensures FlightsNamed(w')
  {
    TurnedMembers(w, f, g, w');
  }

  /** The logs of sessions that are over, and the tabs' own names, survive. */
  lemma TurnedSessions(w: World, f: Flight, g: Flight, w': World)
    requires OnePerGen(w) && SessionsOk(w) && DialedOk(w') && Turned(w, f, g, w')
    requires forall s | s in w.ended :: s < |w.log| && w'.log[s] == w.log[s]
    requires f.Connected? ==> f.session in w'.ended
    requires forall s | |w.dialed| <= s < |w'.dialed| :: g == Connected(w'.dialed[s], s)
    ensures SessionsOk(w')
  {
    TurnedMembers(w, f, g, w');
    forall i | 0 <= i < |w.app.tabs| && w.app.tabs[i].Down() ensures ShowsDead(w', w.app.tabs[i]) {
      assert ShowsDead(w, w.app.tabs[i]);
      var s :| s in w.ended && s < |w.log| && w.app.tabs[i].slot.screen == w.log[s];
      assert s in w'.ended && s < |w'.log| && w.app.tabs[i].slot.screen == w'.log[s];
    }
    forall s | 0 <= s < |w'.dialed|
      ensures s in w'.ended || s in w'.app.closed || Connected(w'.dialed[s], s) in w'.flights || Held(w'.app, s)
    {
      if s < |w.dialed| && Connected(w.dialed[s], s) in w.flights {
        assert Connected(w.dialed[s], s) == f || Connected(w.dialed[s], s) in w'.flights by {
          assert forall x | x in w.flights && x.gen == f.gen :: x == f;
        }
      }
    }
  }

  predicate Arrived(w: World, gen: int, prompts: bool, w': World) {
    && Dial(gen, prompts) in w.flights
    && w' == w.(flights := Replace(w.flights, Dial(gen, prompts), Connected(gen, |w.dialed|)),
                dialed := w.dialed + [gen], log := w.log + [[]])
  }

  lemma ArrivedNames(w: World, gen: int, prompts: bool, w': World)
    requires OnePerGen(w) && FlightsNamed(w) && SessionsOk(w) && Arrived(w, gen, prompts, w')
    ensures FlightsNamed(w')
  {
    var f, g := Dial(gen, prompts), Connected(gen, |w.dialed|);
    assert FlightNames(w, f);
    OneMoreDialed(w, gen, w');
    TurnedNames(w, f, g, w');
  }

  lemma ArrivedSessions(w: World, gen: int, prompts: bool, w': World)
    requires OnePerGen(w) && FlightsNamed(w) && SessionsOk(w) && Arrived(w, gen, prompts, w')
    ensures SessionsOk(w')
  {
    var f, g := Dial(gen, prompts), Connected(gen, |w.dialed|);
    assert FlightNames(w, f);
    TurnedSessions(w, f, g, w');
  }

  lemma DialSucceedsKeeps(strict: bool, w: World, gen: int, prompts: bool, w': World)
    requires Inv(w, strict) && Arrived(w, gen, prompts, w')
    ensures Inv(w', strict)
  {
    ArrivedNames(w, gen, prompts, w');
    ArrivedSessions(w, gen, prompts, w');
    TurnedDrivers(strict, w, Dial(gen, prompts), Connected(gen, |w.dialed|), w');
  }

  /** What other generations' flights name is as it was. */
  lemma OneMoreDialed(w: World, gen: int, w': World)
    requires w'.dialed == w.dialed + [gen] && w'.log == w.log + [[]] && w'.app == w.app && w'.ended == w.ended
    ensures forall x: Flight | x.gen != gen && FlightNames(w, x) :: FlightNames(w', x)
  {
  }

  /** A flight has become another of its generation, one that names nothing, and that is all. */
  ghost predicate Swapped(w: World, f: Flight, g: Flight, w': World) {
    && f in w.flights && f.gen == g.gen && f != g && !f.Connected? && (g.ConnectFailed? || g.Reconnect?)
    && w' == w.(flights := Replace(w.flights, f, g))
  }

  lemma SwappedNames(w: World, f: Flight, g: Flight, w': World)
    requires OnePerGen(w) && FlightsNamed(w) && Swapped(w, f, g, w')
    ensures FlightsNamed(w')
  {
    TurnedNames(w, f, g, w');
  }

  lemma SwappedSessions(w: World, f: Flight, g: Flight, w': World)
    requires OnePerGen(w) && SessionsOk(w) && Swapped(w, f, g, w')
    ensures SessionsOk(w')
  {
    TurnedSessions(w, f, g, w');
  }

  lemma SwappedKeeps(strict: bool, w: World, f: Flight, g: Flight, w': World)
    requires Inv(w, strict) && Swapped(w, f, g, w')
    requires forall t | Drives(w.log, f, t) :: Drives(w.log, g, t)
    ensures Inv(w', strict)
  {
    SwappedNames(w, f, g, w');
    SwappedSessions(w, f, g, w');
    TurnedDrivers(strict, w, f, g, w');
  }

  lemma DialFailsKeeps(strict: bool, w: World, gen: int, prompts: bool, error: Error, w': World)
    requires Inv(w, strict) && Dial(gen, prompts) in w.flights
    requires w' == w.(flights := Replace(w.flights, Dial(gen, prompts), ConnectFailed(gen, error)))
    ensures Inv(w', strict)
  {
    SwappedKeeps(strict, w, Dial(gen, prompts), ConnectFailed(gen, error), w');
  }

  lemma TimerFiresKeeps(strict: bool, w: World, gen: int, wait: nat, w': World)
    requires Inv(w, strict) && Tick(gen, wait) in w.flights
    requires w' == w.(flights := Replace(w.flights, Tick(gen, wait), Reconnect(gen)))
    ensures Inv(w', strict)
  {
    SwappedKeeps(strict, w, Tick(gen, wait), Reconnect(gen), w');
  }

  predicate Printed(w: World, gen: int, from: Session, data: Chunk, w': World) {
    && Receive(gen, Some(from)) in w.flights && from < |w.log|
    && w' == w.(flights := Replace(w.flights, Receive(gen, Some(from)), Output(gen, Some(from), data)),
                log := w.log[from := w.log[from] + [data]])
  }

  /** Output of one session is no other generation's business. */
  lemma OthersNames(w: World, gen: int, from: Session, data: Chunk, w': World, x: Flight)
    requires SessionsOk(w) && Printed(w, gen, from, data, w') && FlightNames(w, Receive(gen, Some(from)))
    requires FlightNames(w, x) && x.gen != gen
    ensures FlightNames(w', x)
  {
  }

  lemma OthersDrive(w: World, gen: int, from: Session, data: Chunk, w': World, x: Flight, t: Tab)
    requires Printed(w, gen, from, data, w') && FlightNames(w, Receive(gen, Some(from)))
    requires FlightNames(w, x) && x.gen != gen && Drives(w.log, x, t)
    ensures Drives(w'.log, x, t)
  {
  }

  lemma PrintedNames(w: World, gen: int, from: Session, data: Chunk, w': World)
    requires OnePerGen(w) && FlightsNamed(w) && SessionsOk(w) && Printed(w, gen, from, data, w')
    ensures FlightsNamed(w')
  {
    var f, g := Receive(gen, Some(from)), Output(gen, Some(from), data);
    assert FlightNames(w, f);
    forall x | x in w.flights && x.gen != gen && FlightNames(w, x) ensures FlightNames(w', x) {
      OthersNames(w, gen, from, data, w', x);
    }
    TurnedNames(w, f, g, w');
  }

  lemma PrintedSessions(w: World, gen: int, from: Session, data: Chunk, w': World)
    requires OnePerGen(w) && FlightsNamed(w) && SessionsOk(w) && Printed(w, gen, from, data, w')
    ensures SessionsOk(w')
  {
    var f, g := Receive(gen, Some(from)), Output(gen, Some(from), data);
    assert FlightNames(w, f);
    TurnedSessions(w, f, g, w');
  }

  lemma ChunkArrivesKeeps(strict: bool, w: World, gen: int, from: Session, data: Chunk, w': World)
    requires Inv(w, strict) && Printed(w, gen, from, data, w')
    ensures Inv(w', strict)
  {
    var f, g := Receive(gen, Some(from)), Output(gen, Some(from), data);
    PrintedNames(w, gen, from, data, w');
    PrintedSessions(w, gen, from, data, w');
    assert FlightNames(w, f);
    forall x, t | x in w.flights && x.gen != gen && Drives(w.log, x, t) ensures Drives(w'.log, x, t) {
      OthersDrive(w, gen, from, data, w', x, t);
    }
    TurnedDrivers(strict, w, f, g, w');
  }

  predicate Hung(w: World, gen: int, from: Session, reason: Option<Error>, w': World) {
    && Receive(gen, Some(from)) in w.flights
    && w' == w.(flights := Replace(w.flights, Receive(gen, Some(from)), Ended(gen, Some(from), reason)),
                ended := w.ended + {from})
  }

  lemma HungNames(w: World, gen: int, from: Session, reason: Option<Error>, w': World)
    requires OnePerGen(w) && FlightsNamed(w) && SessionsOk(w) && Hung(w, gen, from, reason, w')
    ensures FlightsNamed(w')
  {
    var f, g := Receive(gen, Some(from)), Ended(gen, Some(from), reason);
    assert FlightNames(w, f);
    forall x | x in w.flights && x.gen != gen && FlightNames(w, x) ensures FlightNames(w', x) {
    }
    TurnedNames(w, f, g, w');
  }

  lemma HungSessions(w: World, gen: int, from: Session, reason: Option<Error>, w': World)
    requires OnePerGen(w) && FlightsNamed(w) && SessionsOk(w) && Hung(w, gen, from, reason, w')
    ensures SessionsOk(w')
  {
    var f, g := Receive(gen, Some(from)), Ended(gen, Some(from), reason);
    assert FlightNames(w, f);
    TurnedSessions(w, f, g, w');
  }

  lemma ChannelClosesKeeps(strict: bool, w: World, gen: int, from: Session, reason: Option<Error>, w': World)
    requires Inv(w, strict) && Hung(w, gen, from, reason, w')
    ensures Inv(w', strict)
  {
    HungNames(w, gen, from, reason, w');
    HungSessions(w, gen, from, reason, w');
    TurnedDrivers(strict, w, Receive(gen, Some(from)), Ended(gen, Some(from), reason), w');
  }

  // ---------------------------------------------------------------- one step of the loop

  function Without(flights: multiset<Flight>, m: Option<Flight>): multiset<Flight> {
    if m.Some? then flights - multiset{m.value} else flights
  }

  /** The loop takes message m, changes the app and starts cmd; what the outside world has done stays as it is. */
  ghost predicate Stepped(w: World, m: Option<Flight>, cmd: Option<Flight>, w': World) {
    && (m.Some? ==> m.value in w.flights)
    && w'.flights == Start(Without(w.flights, m), cmd)
    && w'.log == w.log && w'.dialed == w.dialed && w'.ended == w.ended
    && w.app.gen <= w'.app.gen
    && (cmd.Some? ==> 0 < cmd.value.gen <= w'.app.gen)
    && (cmd.Some? ==> forall x | x in w.flights && x.gen == cmd.value.gen :: m == Some(x))
  }

  lemma SteppedMembers(w: World, m: Option<Flight>, cmd: Option<Flight>, w': World)
    requires OnePerGen(w) && Stepped(w, m, cmd, w')
    ensures OnePerGen(w')
    ensures forall x :: x in w'.flights <==> cmd == Some(x) || (x in w.flights && m != Some(x))
  {
    if m.Some? {
      assert w.flights[m.value] == 1;
    }
  }

  /** The command names a session rightly, and the rest is untouched. */
  lemma SteppedNames(w: World, m: Option<Flight>, cmd: Option<Flight>, w': World)
    requires OnePerGen(w) && FlightsNamed(w) && Stepped(w, m, cmd, w')
    requires cmd.Some? ==> FlightNames(w', cmd.value)
    requires forall x | x in w.flights && m != Some(x) && x.Connected? && x.session in w'.app.closed :: x.session in w.app.closed
    ensures FlightsNamed(w')
  {
    SteppedMembers(w, m, cmd, w');
    forall x | x in w'.flights ensures FlightNames(w', x) {
      if x in w.flights { assert FlightNames(w, x); }
    }
  }

  // ---- one tab changes in place

  ghost predicate Retabbed(w: World, i: nat, t: Tab, m: Option<Flight>, cmd: Option<Flight>, w': World) {
    && i < |w.app.tabs|
    && Stepped(w, m, cmd, w')
    && w'.app == WithTab(w.app, i, t).(gen := w'.app.gen)
    && (m.Some? ==> m.value.gen == w.app.tabs[i].gen)
    && (cmd.Some? ==> cmd.value.gen == t.gen)
    && (if t.gen == w.app.tabs[i].gen then m.Some? else w.app.gen < t.gen <= w'.app.gen)
  }

  lemma RetabbedDrivers(strict: bool, w: World, i: nat, t: Tab, m: Option<Flight>, cmd: Option<Flight>, w': World)
    requires TabsOk(w.app) && OnePerGen(w) && DriversMatch(w) && Driven(w, strict) && Retabbed(w, i, t, m, cmd, w')
    requires if cmd.Some? then Drives(w.log, cmd.value, t) else t.Parked()
    ensures DriversMatch(w') && Driven(w', strict)
  {
    SteppedMembers(w, m, cmd, w');
    forall f, j | f in w'.flights && 0 <= j < |w'.app.tabs| && w'.app.tabs[j].gen == f.gen
      ensures Drives(w.log, f, w'.app.tabs[j])
    {
      if j == i {
        assert cmd == Some(f);
      } else {
        assert w'.app.tabs[j] == w.app.tabs[j];
        assert f in w.flights;
      }
    }
    forall j | 0 <= j < |w'.app.tabs| && !w'.app.tabs[j].Parked() && (strict || !w'.app.tabs[j].state.Connecting?)
      ensures HasDriver(w'.flights, w'.app.tabs[j].gen)
    {
      if j == i {
        assert cmd.value in w'.flights;
      } else {
        assert HasDriver(w.flights, w.app.tabs[j].gen);
        var x :| x in w.flights && x.gen == w.app.tabs[j].gen;
        assert x in w'.flights;
      }
    }
  }

  lemma RetabbedSessions(w: World, i: nat, t: Tab, m: Option<Flight>, cmd: Option<Flight>, w': World)
    requires TabsOk(w.app) && OnePerGen(w) && SessionsOk(w) && Retabbed(w, i, t, m, cmd, w')
    requires t.session.Some? ==> Names(w, t.gen, t.session) && t.session.value !in w.app.closed
    requires t.Down() ==> ShowsDead(w, t)
    requires var s := w.app.tabs[i].session; s == t.session || s.None? || s.value in w.ended
    requires m.Some? && m.value.Connected? ==> t.session == Some(m.value.session)
    ensures SessionsOk(w')
  {
    SteppedMembers(w, m, cmd, w');
    assert w'.app.tabs[i] == t;
    forall j | 0 <= j < |w'.app.tabs| && w'.app.tabs[j].Down() ensures ShowsDead(w', w'.app.tabs[j]) {
      assert ShowsDead(w, w'.app.tabs[j]);
      var s :| s in w.ended && s < |w.log| && w'.app.tabs[j].slot.screen == w.log[s];
      assert s in w'.ended && s < |w'.log|;
    }
    forall s | 0 <= s < |w'.dialed|
      ensures s in w'.ended || s in w'.app.closed || Connected(w'.dialed[s], s) in w'.flights || Held(w'.app, s)
    {
      if Held(w.app, s) {
        var j :| 0 <= j < |w.app.tabs| && w.app.tabs[j].session == Some(s);
        assert j != i ==> w'.app.tabs[j].session == Some(s);
      }
    }
  }

  /** The whole invariant, for a tab that changes in place. */
  lemma RetabbedKeeps(strict: bool, w: World, i: nat, t: Tab, m: Option<Flight>, cmd: Option<Flight>, w': World)
    requires Inv(w, strict) && Retabbed(w, i, t, m, cmd, w') && Fits(w, i, t, m, cmd)
    ensures Inv(w', strict)
  {
    WithTabOk(w.app, i, t, w'.app.gen);
    SteppedMembers(w, m, cmd, w');
    SteppedNames(w, m, cmd, w');
    RetabbedDrivers(strict, w, i, t, m, cmd, w');
    RetabbedSessions(w, i, t, m, cmd, w');
  }

  // ---- tabs are only dropped, moved or marked as seen

  /** Tab j is an old one, but for its activity mark. */
  ghost predicate WasThere(app: App, t: Tab) {
    exists k :: 0 <= k < |app.tabs| && t == app.tabs[k].(activity := t.activity)
  }

  /** The same tabs, but for their activity marks, hold the same sessions. */
  lemma SameTabs(app: App, after: App)
    requires |after.tabs| == |app.tabs|
    requires forall j | 0 <= j < |app.tabs| :: after.tabs[j] == app.tabs[j].(activity := after.tabs[j].activity)
    ensures forall j | 0 <= j < |after.tabs| :: WasThere(app, after.tabs[j])
    ensures forall s: Session | Held(app, s) :: Held(after, s)
  {
    forall s: Session | Held(app, s) ensures Held(after, s) {
      var k :| 0 <= k < |app.tabs| && app.tabs[k].session == Some(s);
      assert after.tabs[k].session == Some(s);
    }
  }

  /** Nothing is added, and what a dropped tab held has been closed. */
  ghost predicate Thinned(w: World, m: Option<Flight>, w': World) {
    && Stepped(w, m, None, w') && w'.app.gen == w.app.gen
    && (forall j | 0 <= j < |w'.app.tabs| :: WasThere(w.app, w'.app.tabs[j]))
    && (m.Some? ==> forall j | 0 <= j < |w'.app.tabs| :: w'.app.tabs[j].gen != m.value.gen)
    && w.app.closed <= w'.app.closed
    && (forall s: Session | Held(w.app, s) :: Held(w'.app, s) || s in w'.app.closed)
    && (forall s | s in w'.app.closed && s !in w.app.closed ::
          s < |w.dialed| && forall j | 0 <= j < |w'.app.tabs| :: w'.app.tabs[j].session != Some(s))
    && (m.Some? && m.value.Connected? ==> m.value.session in w'.app.closed)
    && (forall x | x in w.flights && m != Some(x) && x.Connected? && x.session in w'.app.closed :: x.session in w.app.closed)
  }

  lemma ThinnedDrivers(strict: bool, w: World, m: Option<Flight>, w': World)
    requires OnePerGen(w) && DriversMatch(w) && Driven(w, strict) && Thinned(w, m, w')
    ensures DriversMatch(w') && Driven(w', strict)
  {
    SteppedMembers(w, m, None, w');
    forall f, j | f in w'.flights && 0 <= j < |w'.app.tabs| && w'.app.tabs[j].gen == f.gen
      ensures Drives(w.log, f, w'.app.tabs[j])
    {
      assert WasThere(w.app, w'.app.tabs[j]);
      var k :| 0 <= k < |w.app.tabs| && w'.app.tabs[j] == w.app.tabs[k].(activity := w'.app.tabs[j].activity);
      assert Drives(w.log, f, w.app.tabs[k]);
    }
    forall j | 0 <= j < |w'.app.tabs| && !w'.app.tabs[j].Parked() && (strict || !w'.app.tabs[j].state.Connecting?)
      ensures HasDriver(w'.flights, w'.app.tabs[j].gen)
    {
      assert WasThere(w.app, w'.app.tabs[j]);
      var k :| 0 <= k < |w.app.tabs| && w'.app.tabs[j] == w.app.tabs[k].(activity := w'.app.tabs[j].activity);
      assert HasDriver(w.flights, w.app.tabs[k].gen);
      var x :| x in w.flights && x.gen == w.app.tabs[k].gen;
      assert x in w'.flights;
    }
  }

  lemma ThinnedSessions(w: World, m: Option<Flight>, w': World)
    requires OnePerGen(w) && SessionsOk(w) && Thinned(w, m, w')
    ensures SessionsOk(w')
  {
    SteppedMembers(w, m, None, w');
    forall j | 0 <= j < |w'.app.tabs|
      ensures w'.app.tabs[j].session.Some? ==>
                Names(w', w'.app.tabs[j].gen, w'.app.tabs[j].session) && w'.app.tabs[j].session.value !in w'.app.closed
      ensures w'.app.tabs[j].Down() ==> ShowsDead(w', w'.app.tabs[j])
    {
      var t := w'.app.tabs[j];
      assert WasThere(w.app, t);
      var k :| 0 <= k < |w.app.tabs| && t == w.app.tabs[k].(activity := t.activity);
      if t.Down() {
        assert ShowsDead(w, w.app.tabs[k]);
        var s :| s in w.ended && s < |w.log| && w.app.tabs[k].slot.screen == w.log[s];
        assert s in w'.ended && s < |w'.log| && t.slot.screen == w'.log[s];
      }
    }
  }

  lemma ThinnedKeeps(strict: bool, w: World, m: Option<Flight>, w': World)
    requires Inv(w, strict) && AppOk(w'.app) && Thinned(w, m, w')
    ensures Inv(w', strict)
  {
    SteppedMembers(w, m, None, w');
    SteppedNames(w, m, None, w');
    ThinnedDrivers(strict, w, m, w');
    ThinnedSessions(w, m, w');
  }

  /** Where the tabs after closing tab i come from. */
  lemma CloseTabTabs(app: App, i: int)
    requires 0 <= i < |app.tabs| && app.active < |app.tabs|
    ensures var after := CloseTab(app, i);
            && after.gen == app.gen && |after.tabs| == |app.tabs| - 1
            && forall j | 0 <= j < |after.tabs| ::
                 after.tabs[j] == app.tabs[if j < i then j else j + 1].(activity := after.tabs[j].activity)
  {
    DropTabTabs(app, i);
  }

  /** A session belongs to the tab of its generation and to no other. */
  lemma HolderGen(w: World, gen: int, s: Session, t: Tab)
    requires Names(w, gen, Some(s)) && t.gen != gen && (t.session.Some? ==> Names(w, t.gen, t.session))
    ensures t.session != Some(s)
  {
  }

  /** A session that a tab holds is no longer on its way. */
  lemma HeldHasArrived(w: World, i: nat, x: Flight)
    requires TabsOk(w.app) && DriversMatch(w) && FlightsNamed(w) && TabsNamed(w)
    requires i < |w.app.tabs| && x in w.flights && x.Connected?
    ensures w.app.tabs[i].session != Some(x.session)
  {
    assert FlightNames(w, x);
    assert TabOk(w.app.tabs[i]);
    if x.gen == w.app.tabs[i].gen {
      assert Drives(w.log, x, w.app.tabs[i]);
    }
  }

  lemma CloseTabHolds(app: App, i: int)
    requires AppOk(app) && 0 <= i < |app.tabs|
    ensures forall s: Session | Held(app, s) :: Held(CloseTab(app, i), s) || s in CloseTab(app, i).closed
  {
    var app' := CloseTab(app, i);
    CloseTabTabs(app, i);
    forall s: Session | Held(app, s) ensures Held(app', s) || s in app'.closed {
      var k :| 0 <= k < |app.tabs| && app.tabs[k].session == Some(s);
      assert k != i ==> app'.tabs[if k < i then k else k - 1].session == Some(s);
    }
  }

  lemma CloseTabThins(w: World, i: int, m: Option<Flight>, w': World)
    requires AppOk(w.app) && OnePerGen(w) && DriversMatch(w) && FlightsNamed(w) && TabsNamed(w) && DialedOk(w) && 0 <= i < |w.app.tabs|
    requires m.Some? ==> m.value in w.flights && m.value.gen == w.app.tabs[i].gen && !m.value.Connected?
    requires w' == w.(app := CloseTab(w.app, i), flights := Without(w.flights, m))
    ensures Thinned(w, m, w')
  {
    CloseTabTabs(w.app, i);
    forall j | 0 <= j < |w'.app.tabs|
      ensures WasThere(w.app, w'.app.tabs[j])
      ensures w'.app.tabs[j].gen != w.app.tabs[i].gen
      ensures w.app.tabs[i].session.Some? ==> w'.app.tabs[j].session != w.app.tabs[i].session
    {
      var k := if j < i then j else j + 1;
      assert w'.app.tabs[j] == w.app.tabs[k].(activity := w'.app.tabs[j].activity);
      if w.app.tabs[i].session.Some? {
        HolderGen(w, w.app.tabs[i].gen, w.app.tabs[i].session.value, w.app.tabs[k]);
      }
    }
    CloseTabHolds(w.app, i);
    forall x | x in w.flights && m != Some(x) && x.Connected? && x.session in w'.app.closed
      ensures x.session in w.app.closed
    {
      HeldHasArrived(w, i, x);
    }
  }

  lemma CloseTabKeeps(strict: bool, w: World, i: int, m: Option<Flight>, w': World)
    requires Inv(w, strict) && 0 <= i < |w.app.tabs|
    requires m.Some? ==> m.value in w.flights && m.value.gen == w.app.tabs[i].gen && !m.value.Connected?
    requires w' == w.(app := CloseTab(w.app, i), flights := Without(w.flights, m))
    ensures Inv(w', strict)
  {
    CloseTabOk(w.app, i);
    CloseTabThins(w, i, m, w');
    ThinnedKeeps(strict, w, m, w');
  }

  lemma SwitchThins(w: World, i: int, w': World)
    requires w' == w.(app := SwitchTo(w.app, i))
    ensures Thinned(w, None, w')
  {
    SameTabs(w.app, w'.app);
  }

  lemma SwitchToKeeps(strict: bool, w: World, i: int, w': World)
    requires Inv(w, strict) && w' == w.(app := SwitchTo(w.app, i))
    ensures Inv(w', strict)
  {
    SwitchToOk(w.app, i);
    SwitchThins(w, i, w');
    ThinnedKeeps(strict, w, None, w');
  }

  lemma StaleThins(w: World, m: Flight, w': World)
    requires OnePerGen(w) && TabsNamed(w) && FlightsNamed(w) && m in w.flights && FlightNames(w, m)
    requires forall j | 0 <= j < |w.app.tabs| :: w.app.tabs[j].gen != m.gen
    requires w' == w.(flights := w.flights - multiset{m},
                      app := if m.Connected? then w.app.(closed := w.app.closed + {m.session}) else w.app)
    ensures Thinned(w, Some(m), w')
  {
    SameTabs(w.app, w'.app);
    if m.Connected? {
      forall j | 0 <= j < |w.app.tabs| ensures w.app.tabs[j].session != Some(m.session) {
        HolderGen(w, m.gen, m.session, w.app.tabs[j]);
      }
    }
    forall x | x in w.flights && x != m && x.Connected? && x.session in w'.app.closed
      ensures x.session in w.app.closed
    {
      assert FlightNames(w, x);
    }
  }

  /** A message whose generation no tab carries any more is dropped; a session it brings is closed. */
  lemma StaleKeeps(strict: bool, w: World, m: Flight, w': World)
    requires Inv(w, strict) && m in w.flights
    requires forall j | 0 <= j < |w.app.tabs| :: w.app.tabs[j].gen != m.gen
    requires w' == w.(flights := w.flights - multiset{m},
                      app := if m.Connected? then w.app.(closed := w.app.closed + {m.session}) else w.app)
    ensures Inv(w', strict)
  {
    assert FlightNames(w, m);
    assert AppOk(w'.app) by {
      assert forall k | 0 <= k < w.app.live :: SlotAt(w'.app, k) == SlotAt(w.app, k);
    }
    StaleThins(w, m, w');
    ThinnedKeeps(strict, w, Some(m), w');
  }

  lemma QuitKeeps(strict: bool, w: World, w': World)
    requires Inv(w, strict) && w' == w.(app := CloseAll(w.app))
    ensures Inv(w', strict) && w'.app.tabs == []
    decreases |w.app.tabs|
  {
    if |w.app.tabs| > 0 {
      var next := w.(app := CloseTab(w.app, |w.app.tabs| - 1));
      CloseTabKeeps(strict, w, |w.app.tabs| - 1, None, next);
      QuitKeeps(strict, next, w');
    }
  }

  // ---- a tab is added

  lemma OpenKeeps(strict: bool, w: World, server: string, force: bool, dropDial: bool, w': World)
    requires Inv(w, strict)
    requires strict ==> !dropDial
    requires var o := OpenTab(w.app, server, force);
             w' == w.(app := o.app, flights := Start(w.flights, if dropDial then None else o.cmd))
    ensures Inv(w', strict)
  {
    var o := OpenTab(w.app, server, force);
    var i := TabIndexFor(w.app.tabs, server);
    if !force && i >= 0 {
      SwitchToKeeps(strict, w, i, w');
    } else if GetSlot(w.app).Some? {
      OpenTabOk(w.app, server, force);
      var cmd := if dropDial then None else o.cmd;
      assert Stepped(w, None, cmd, w');
      SteppedMembers(w, None, cmd, w');
      SteppedNames(w, None, cmd, w');
      OpenDrivers(strict, w, cmd, w');
      OpenSessions(w, cmd, w');
    }
  }

  ghost predicate Grown(w: World, cmd: Option<Flight>, w': World) {
    && Stepped(w, None, cmd, w')
    && |w'.app.tabs| == |w.app.tabs| + 1 && w'.app.tabs[..|w.app.tabs|] == w.app.tabs
    && w'.app.closed == w.app.closed
    && w.app.gen < w'.app.gen
    && var t := w'.app.tabs[|w.app.tabs|];
       && t.state.Connecting? && t.session == None && t.gen == w'.app.gen
       && (cmd.Some? ==> cmd.value.Dial? && cmd.value.gen == t.gen)
  }

  lemma OpenDrivers(strict: bool, w: World, cmd: Option<Flight>, w': World)
    requires TabsOk(w.app) && OnePerGen(w) && DriversMatch(w) && Driven(w, strict) && Grown(w, cmd, w')
    requires strict ==> cmd.Some?
    ensures DriversMatch(w') && Driven(w', strict)
  {
    SteppedMembers(w, None, cmd, w');
    var n := |w.app.tabs|;
    assert forall j | 0 <= j < n :: w'.app.tabs[j] == w.app.tabs[j];
    forall j | 0 <= j < |w'.app.tabs| && !w'.app.tabs[j].Parked() && (strict || !w'.app.tabs[j].state.Connecting?)
      ensures HasDriver(w'.flights, w'.app.tabs[j].gen)
    {
      if j < n {
        assert HasDriver(w.flights, w.app.tabs[j].gen);
        var x :| x in w.flights && x.gen == w.app.tabs[j].gen;
        assert x in w'.flights;
      } else {
        assert cmd.value in w'.flights;
      }
    }
  }

  lemma OpenSessions(w: World, cmd: Option<Flight>, w': World)
    requires TabsOk(w.app) && OnePerGen(w) && SessionsOk(w) && Grown(w, cmd, w')
    ensures SessionsOk(w')
  {
    SteppedMembers(w, None, cmd, w');
    var n := |w.app.tabs|;
    assert forall j | 0 <= j < n :: w'.app.tabs[j] == w.app.tabs[j];
    forall j | 0 <= j < |w'.app.tabs| && w'.app.tabs[j].Down() ensures ShowsDead(w', w'.app.tabs[j]) {
      assert ShowsDead(w, w.app.tabs[j]);
      var s :| s in w.ended && s < |w.log| && w.app.tabs[j].slot.screen == w.log[s];
      assert s in w'.ended && s < |w'.log|;
    }
    forall s | 0 <= s < |w'.dialed|
      ensures s in w'.ended || s in w'.app.closed || Connected(w'.dialed[s], s) in w'.flights || Held(w'.app, s)
    {
      if Held(w.app, s) {
        var j :| 0 <= j < |w.app.tabs| && w.app.tabs[j].session == Some(s);
        assert w'.app.tabs[j].session == Some(s);
      }
    }
  }

  // ---- the messages and keys

  lemma DeliverKeeps(strict: bool, w: World, m: Flight, w': World)
    requires Inv(w, strict) && m in w.flights && m.IsMessage()
    requires w' == Take(w.(flights := w.flights - multiset{m}), Update(w.app, m))
    ensures Inv(w', strict)
  {
    var i := TabByGen(w.app.tabs, m.gen);
    if i < 0 {
      StaleKeeps(strict, w, m, w');
    } else {
      assert Drives(w.log, m, w.app.tabs[i]);
      assert TabOk(w.app.tabs[i]);
      assert FlightNames(w, m);
      match m
      case Connected(_, _) => ConnectedKeeps(strict, w, m, i, w');
      case ConnectFailed(_, _) => ConnectFailedKeeps(strict, w, m, i, w');
      case Output(_, _, _) => OutputKeeps(strict, w, m, i, w');
      case Ended(_, _, _) => EndedKeeps(strict, w, m, i, w');
      case Reconnect(_) => RedialKeeps(strict, w, i, Some(m), true, w');
    }
  }

  lemma ConnectedRetabs(w: World, m: Flight, i: nat, w': World)
    requires m.Connected? && m in w.flights && 0 < m.gen <= w.app.gen && OnePerGen(w)
    requires i == TabByGen(w.app.tabs, m.gen) && i < |w.app.tabs|
    requires w' == Take(w.(flights := w.flights - multiset{m}), OnConnected(w.app, m.gen, m.session))
    ensures var o := OnConnected(w.app, m.gen, m.session);
            |o.app.tabs| == |w.app.tabs| && Retabbed(w, i, o.app.tabs[i], Some(m), o.cmd, w')
  {
  }

  lemma ConnectedFits(w: World, m: Flight, i: nat)
    requires m.Connected? && i == TabByGen(w.app.tabs, m.gen) && i < |w.app.tabs|
    requires Drives(w.log, m, w.app.tabs[i]) && FlightNames(w, m) && TabOk(w.app.tabs[i])
    requires i == w.app.active ==> !w.app.tabs[i].activity
    ensures var o := OnConnected(w.app, m.gen, m.session);
            |o.app.tabs| == |w.app.tabs| && Fits(w, i, o.app.tabs[i], Some(m), o.cmd)
  {
  }

  lemma ConnectedKeeps(strict: bool, w: World, m: Flight, i: nat, w': World)
    requires Inv(w, strict) && m.Connected? && m in w.flights
    requires i == TabByGen(w.app.tabs, m.gen) && i < |w.app.tabs|
    requires w' == Take(w.(flights := w.flights - multiset{m}), OnConnected(w.app, m.gen, m.session))
    ensures Inv(w', strict)
  {
    var o := OnConnected(w.app, m.gen, m.session);
    ConnectedRetabs(w, m, i, w');
    assert Drives(w.log, m, w.app.tabs[i]) && FlightNames(w, m) && TabOk(w.app.tabs[i]);
    ConnectedFits(w, m, i);
    RetabbedKeeps(strict, w, i, o.app.tabs[i], Some(m), o.cmd, w');
  }

  lemma ConnectFailedKeeps(strict: bool, w: World, m: Flight, i: nat, w': World)
    requires Inv(w, strict) && m.ConnectFailed? && m in w.flights
    requires i == TabByGen(w.app.tabs, m.gen) && i < |w.app.tabs|
    requires w' == Take(w.(flights := w.flights - multiset{m}), OnConnectFailed(w.app, m.gen, m.error))
    ensures Inv(w', strict)
  {
    var o := OnConnectFailed(w.app, m.gen, m.error);
    assert Drives(w.log, m, w.app.tabs[i]) && TabOk(w.app.tabs[i]);
    if w.app.tabs[i].attempt > 0 {
      assert ShowsDead(w, w.app.tabs[i]);
      RetabbedKeeps(strict, w, i, o.app.tabs[i], Some(m), o.cmd, w');
    } else {
      CloseTabKeeps(strict, w, i, Some(m), w');
    }
  }

  lemma OutputKeeps(strict: bool, w: World, m: Flight, i: nat, w': World)
    requires Inv(w, strict) && m.Output? && m in w.flights
    requires i == TabByGen(w.app.tabs, m.gen) && i < |w.app.tabs|
    requires w' == Take(w.(flights := w.flights - multiset{m}), OnOutput(w.app, m.gen, m.data))
    ensures Inv(w', strict)
  {
    var o := OnOutput(w.app, m.gen, m.data);
    assert Drives(w.log, m, w.app.tabs[i]) && FlightNames(w, m) && TabOk(w.app.tabs[i]);
    RetabbedKeeps(strict, w, i, o.app.tabs[i], Some(m), o.cmd, w');
  }

  lemma EndedKeeps(strict: bool, w: World, m: Flight, i: nat, w': World)
    requires Inv(w, strict) && m.Ended? && m in w.flights
    requires i == TabByGen(w.app.tabs, m.gen) && i < |w.app.tabs|
    requires w' == Take(w.(flights := w.flights - multiset{m}), OnEnded(w.app, m.gen, m.reason))
    ensures Inv(w', strict)
  {
    var o := OnEnded(w.app, m.gen, m.reason);
    assert Drives(w.log, m, w.app.tabs[i]) && FlightNames(w, m) && TabOk(w.app.tabs[i]);
    if m.reason == Some(ConnectionLost) {
      assert w.app.tabs[i].slot.screen + [] == w.app.tabs[i].slot.screen;
      assert ShowsDead(w, o.app.tabs[i]);
      RetabbedKeeps(strict, w, i, o.app.tabs[i], Some(m), o.cmd, w');
    } else {
      CloseTabKeeps(strict, w, i, Some(m), w');
    }
  }

  lemma RedialKeeps(strict: bool, w: World, i: nat, m: Option<Flight>, auto: bool, w': World)
    requires Inv(w, strict) && i < |w.app.tabs| && w.app.tabs[i].state.Lost?
    requires m.Some? ==> m.value in w.flights && m.value.gen == w.app.tabs[i].gen && m.value.Reconnect?
    requires var o := Redial(w.app, i, auto);
             w' == w.(app := o.app, flights := Start(Without(w.flights, m), o.cmd))
    ensures Inv(w', strict)
  {
    var o := Redial(w.app, i, auto);
    assert TabOk(w.app.tabs[i]) && ShowsDead(w, w.app.tabs[i]);
    RetabbedKeeps(strict, w, i, o.app.tabs[i], m, o.cmd, w');
  }

  lemma PressRKeeps(strict: bool, w: World, w': World)
    requires Inv(w, strict) && w' == Take(w, PressReconnect(w.app))
    ensures Inv(w', strict)
  {
    if 0 <= w.app.active < |w.app.tabs| && w.app.tabs[w.app.active].state.Lost? {
      RedialKeeps(strict, w, w.app.active, None, false, w');
    } else {
      assert w' == w;
    }
  }

  lemma CloseVisibleKeeps(strict: bool, w: World, w': World)
    requires Inv(w, strict) && w' == w.(app := CloseCurrent(w.app))
    ensures Inv(w', strict)
  {
    if 0 <= w.app.active < |w.app.tabs| {
      CloseTabKeeps(strict, w, w.app.active, None, w');
    } else {
      assert w' == w;
    }
  }

  lemma CycleSwitches(app: App, delta: int) returns (i: int)
    requires |app.tabs| > 0
    ensures CycleTab(app, delta) == SwitchTo(app, i)
  {
    var n := |app.tabs|;
    i := GoRem(GoRem(app.active + delta, n) + n, n);
  }

  lemma CycleKeeps(strict: bool, w: World, delta: int, w': World)
    requires Inv(w, strict) && w' == w.(app := CycleTab(w.app, delta))
    ensures Inv(w', strict)
  {
    if |w.app.tabs| > 0 {
      var i := CycleSwitches(w.app, delta);
      SwitchToKeeps(strict, w, i, w');
    } else {
      assert w' == w;
    }
  }

  /** What happens outside the update loop. */
  predicate Outside(e: Event) {
    e.DialSucceeds? || e.DialFails? || e.ChunkArrives? || e.ChannelCloses? || e.TimerFires?
  }

  lemma OutsideKeeps(strict: bool, w: World, e: Event, w': World)
    requires Inv(w, strict) && Enabled(w, e) && w' == After(w, e) && Outside(e)
    ensures Inv(w', strict)
  {
    match e
    case DialSucceeds(gen, prompts) => DialSucceedsKeeps(strict, w, gen, prompts, w');
    case DialFails(gen, prompts, error) => DialFailsKeeps(strict, w, gen, prompts, error, w');
    case ChunkArrives(gen, from, data) => ChunkArrivesKeeps(strict, w, gen, from, data, w');
    case ChannelCloses(gen, from, reason) => ChannelClosesKeeps(strict, w, gen, from, reason, w');
    case TimerFires(gen, wait) => TimerFiresKeeps(strict, w, gen, wait, w');
  }

  lemma UserKeeps(strict: bool, w: World, e: Event, w': World)
    requires Inv(w, strict) && Enabled(w, e) && w' == After(w, e) && !Outside(e) && !e.Deliver?
    requires strict ==> !e.RetryFiles?
    ensures Inv(w', strict)
  {
    match e
    case Open(server, force) => OpenKeeps(strict, w, server, force, false, w');
    case RetryFiles(server) => OpenKeeps(strict, w, server, true, true, w');
    case Switch(to) => SwitchToKeeps(strict, w, to, w');
    case Cycle(delta) => CycleKeeps(strict, w, delta, w');
    case CloseVisible => CloseVisibleKeeps(strict, w, w');
    case PressR => PressRKeeps(strict, w, w');
    case Quit => QuitKeeps(strict, w, w');
  }

  lemma InvKept(strict: bool, w: World, e: Event, w': World)
    requires Inv(w, strict) && Enabled(w, e) && w' == After(w, e) && (strict ==> !e.RetryFiles?)
    ensures Inv(w', strict)
  {
    if Outside(e) {
      OutsideKeeps(strict, w, e, w');
    } else if e.Deliver? {
      DeliverKeeps(strict, w, e.msg, w');
    } else {
      UserKeeps(strict, w, e, w');
    }
  }

  // ---------------------------------------------------------------- whole runs

  /** A run: the worlds it goes through, starting from nothing. */
  ghost predicate IsRun(ws: seq<World>, strict: bool) {
    && |ws| > 0 && ws[0] == INITIAL_WORLD
    && forall i | 0 <= i < |ws| - 1 :: NextWorld(ws[i], ws[i + 1], strict)
  }

  ghost predicate NextWorld(w: World, w': World, strict: bool) {
    exists e :: Enabled(w, e) && w' == After(w, e) && (strict ==> !e.RetryFiles?)
  }

  lemma NextKeeps(strict: bool, w: World, w': World)
    requires Inv(w, strict) && NextWorld(w, w', strict)
    ensures Inv(w', strict)
  {
    var e :| Enabled(w, e) && w' == After(w, e) && (strict ==> !e.RetryFiles?);
    InvKept(strict, w, e, w');
  }

  lemma InvInitially(strict: bool)
    ensures Inv(INITIAL_WORLD, strict)
  {
  }

  lemma {:induction false} InvInEveryRun(strict: bool, ws: seq<World>, i: nat)
    requires IsRun(ws, strict) && i < |ws|
    ensures Inv(ws[i], strict)
  {
    if i == 0 {
      InvInitially(strict);
    } else {
      InvInEveryRun(strict, ws, i - 1);
      assert NextWorld(ws[i - 1], ws[i - 1 + 1], strict);
      NextKeeps(strict, ws[i - 1], ws[i]);
    }
  }
}
