/**
 * The tabs together with everything in flight around them, and the invariant
 * of their runs.
 */
module TabWorld {
  import opened Options
  import opened TabModel

  /**
   * `log[s]` is everything read from session s so far, `dialed[s]` the
   * generation of the dial that produced it, `ended` the sessions whose output
   * channel was seen closed.
   */
  datatype World = World(
    app: App, flights: multiset<Flight>, log: seq<seq<Chunk>>, dialed: seq<int>, ended: set<Session>)

  const INITIAL_WORLD := World(INITIAL_APP, multiset{}, [], [], {})

  datatype Event =
    // outside the update loop
    | DialSucceeds(gen: int, prompts: bool)
    | DialFails(gen: int, prompts: bool, error: Error)
    | ChunkArrives(gen: int, from: Session, data: Chunk)
    | ChannelCloses(gen: int, from: Session, reason: Option<Error>)
    | TimerFires(gen: int, wait: nat)
    // the update loop takes a message
    | Deliver(msg: Flight)
    // the user
    | Open(server: string, force: bool)
    | RetryFiles(server: string) // answers a key passphrase for an SFTP attempt: opens a tab, drops its dial
    | Switch(to: int)
    | Cycle(delta: int)
    | CloseVisible
    | PressR
    | Quit

  predicate Enabled(w: World, e: Event) {
    match e
    case DialSucceeds(gen, prompts) => Dial(gen, prompts) in w.flights
    case DialFails(gen, prompts, error) => Dial(gen, prompts) in w.flights
    case ChunkArrives(gen, from, data) => Receive(gen, Some(from)) in w.flights && from < |w.log|
    case ChannelCloses(gen, from, reason) => Receive(gen, Some(from)) in w.flights
    case TimerFires(gen, wait) => Tick(gen, wait) in w.flights
    case Deliver(msg) => msg in w.flights && msg.IsMessage()
    case _ => true
  }

  function Replace(flights: multiset<Flight>, f: Flight, g: Flight): multiset<Flight> {
    flights - multiset{f} + multiset{g}
  }

  function Start(flights: multiset<Flight>, cmd: Option<Flight>): multiset<Flight> {
    if cmd.Some? then flights + multiset{cmd.value} else flights
  }

  function Take(w: World, o: Outcome): World {
    w.(app := o.app, flights := Start(w.flights, o.cmd))
  }

  function After(w: World, e: Event): World
    requires Enabled(w, e)
  {
    match e
    case DialSucceeds(gen, prompts) =>
      w.(flights := Replace(w.flights, Dial(gen, prompts), Connected(gen, |w.dialed|)),
         dialed := w.dialed + [gen], log := w.log + [[]])
    case DialFails(gen, prompts, error) =>
      w.(flights := Replace(w.flights, Dial(gen, prompts), ConnectFailed(gen, error)))
    case ChunkArrives(gen, from, data) =>
      w.(flights := Replace(w.flights, Receive(gen, Some(from)), Output(gen, Some(from), data)),
         log := w.log[from := w.log[from] + [data]])
    case ChannelCloses(gen, from, reason) =>
      w.(flights := Replace(w.flights, Receive(gen, Some(from)), Ended(gen, Some(from), reason)), ended := w.ended + {from})
    case TimerFires(gen, wait) => w.(flights := Replace(w.flights, Tick(gen, wait), Reconnect(gen)))
    case Deliver(msg) => Take(w.(flights := w.flights - multiset{msg}), Update(w.app, msg))
    case Open(server, force) => Take(w, OpenTab(w.app, server, force))
    case RetryFiles(server) => w.(app := OpenTab(w.app, server, true).app)
    case Switch(to) => w.(app := SwitchTo(w.app, to))
    case Cycle(delta) => w.(app := CycleTab(w.app, delta))
    case CloseVisible => w.(app := CloseCurrent(w.app))
    case PressR => Take(w, PressReconnect(w.app))
    case Quit => w.(app := CloseAll(w.app))
  }

  // ---------------------------------------------------------------- invariant

  predicate TabOk(t: Tab) {
    && (t.session.Some? <==> t.state.Live?)
    && t.slot.writer == t.session
    && (t.attempt > 0 <==> t.Down())
    && (t.scheduled ==> t.state.Lost?)
    && (t.state.Connecting? ==> t.slot.screen == [])
  }

  /** The slot at position k when the open tabs' slots are followed by the free ones. */
  function SlotAt(app: App, k: nat): Slot
    requires k < |app.tabs| + |app.free|
  {
    if k < |app.tabs| then app.tabs[k].slot else app.free[k - |app.tabs|]
  }

  ghost predicate PoolOk(app: App) {
    && |app.tabs| + |app.free| == app.live <= MAX_TABS
    && (forall k | 0 <= k < app.live :: SlotAt(app, k).id < app.live)
    && (forall j, k | 0 <= j < k < app.live :: SlotAt(app, j).id != SlotAt(app, k).id)
    && (forall k | 0 <= k < |app.free| :: app.free[k].writer == None && app.free[k].screen == [])
  }

  ghost predicate TabsOk(app: App) {
    && (forall i | 0 <= i < |app.tabs| :: TabOk(app.tabs[i]) && 0 < app.tabs[i].gen <= app.gen)
    && (forall i, j | 0 <= i < j < |app.tabs| :: app.tabs[i].gen != app.tabs[j].gen)
    && 0 <= app.gen
  }

  predicate ActiveOk(app: App) {
    && -1 <= app.active < |app.tabs|
    && (app.active == -1 <==> app.tabs == [])
    && (app.active >= 0 ==> !app.tabs[app.active].activity)
  }

  ghost predicate AppOk(app: App) { PoolOk(app) && TabsOk(app) && ActiveOk(app) }

  /**
   * What may be in flight for a tab's current generation, and how much of its
   * session's output the tab already shows when it is.
   */
  predicate Drives(log: seq<seq<Chunk>>, f: Flight, t: Tab) {
    match f
    case Dial(_, _) => t.state.Connecting? || t.state.Reconnecting?
    case Connected(_, _) => t.state.Connecting? || t.state.Reconnecting?
    case ConnectFailed(_, _) => t.state.Connecting? || t.state.Reconnecting?
    case Receive(_, from) => Shows(log, t, from, [])
    case Output(_, from, data) => Shows(log, t, from, [data])
    case Ended(_, from, _) => Shows(log, t, from, [])
    case Tick(_, _) => t.state.Lost? && t.scheduled
    case Reconnect(_) => t.state.Lost? && t.scheduled
  }

  /** The tab is live on `from` and shows all it has printed but `pending`. */
  predicate Shows(log: seq<seq<Chunk>>, t: Tab, from: Option<Session>, pending: seq<Chunk>) {
    t.state.Live? && t.session == from && from.Some? && from.value < |log| && log[from.value] == t.slot.screen + pending
  }

  ghost predicate OnePerGen(w: World) {
    && (forall f | f in w.flights :: w.flights[f] == 1 && 0 < f.gen <= w.app.gen)
    && (forall f, g | f in w.flights && g in w.flights && f.gen == g.gen :: f == g)
  }

  ghost predicate DriversMatch(w: World) {
    forall f, i | f in w.flights && 0 <= i < |w.app.tabs| && w.app.tabs[i].gen == f.gen ::
      Drives(w.log, f, w.app.tabs[i])
  }

  ghost predicate HasDriver(flights: multiset<Flight>, gen: int) {
    exists f :: f in flights && f.gen == gen
  }

  /**
   * Every tab that is not parked has something in flight. Only strict runs,
   * those without a RetryFiles step, promise it of a tab in its first dial.
   */
  ghost predicate Driven(w: World, strict: bool) {
    forall i | 0 <= i < |w.app.tabs| && !w.app.tabs[i].Parked() && (strict || !w.app.tabs[i].state.Connecting?) ::
      HasDriver(w.flights, w.app.tabs[i].gen)
  }

  /** Each generation yields at most one session. */
  ghost predicate DialedOk(w: World) {
    && |w.log| == |w.dialed|
    && (forall s | 0 <= s < |w.dialed| :: 0 < w.dialed[s] <= w.app.gen)
    && (forall s, u | 0 <= s < u < |w.dialed| :: w.dialed[s] != w.dialed[u])
    && (forall s | s in w.ended || s in w.app.closed :: s < |w.dialed|)
  }

  predicate Names(w: World, gen: int, from: Option<Session>) {
    from.Some? && from.value < |w.dialed| && w.dialed[from.value] == gen
  }

  /** Flights name the session of their own generation. */
  predicate FlightNames(w: World, f: Flight) {
    match f
    case Dial(gen, _) => gen !in w.dialed
    case Connected(gen, s) => Names(w, gen, Some(s)) && s < |w.log| && w.log[s] == [] && s !in w.ended && s !in w.app.closed
    case Receive(gen, from) => Names(w, gen, from) && from.value !in w.ended
    case Output(gen, from, _) => Names(w, gen, from) && from.value !in w.ended
    case Ended(gen, from, _) => Names(w, gen, from) && from.value in w.ended
    case _ => true
  }

  ghost predicate FlightsNamed(w: World) {
    forall f | f in w.flights :: FlightNames(w, f)
  }

  ghost predicate TabsNamed(w: World) {
    forall i | 0 <= i < |w.app.tabs| && w.app.tabs[i].session.Some? ::
      Names(w, w.app.tabs[i].gen, w.app.tabs[i].session) && w.app.tabs[i].session.value !in w.app.closed
  }

  /** The tab shows everything that a session which is over ever printed. */
  ghost predicate ShowsDead(w: World, t: Tab) {
    exists s :: s in w.ended && s < |w.log| && t.slot.screen == w.log[s]
  }

  /** A tab whose connection died keeps the last screen. */
  ghost predicate LastScreens(w: World) {
    forall i | 0 <= i < |w.app.tabs| && w.app.tabs[i].Down() :: ShowsDead(w, w.app.tabs[i])
  }

  ghost predicate Held(app: App, s: Session) {
    exists i :: 0 <= i < |app.tabs| && app.tabs[i].session == Some(s)
  }

  /** No session is forgotten: it is on its way, held by a tab, closed, or over. */
  ghost predicate Accounted(w: World) {
    forall s | 0 <= s < |w.dialed| ::
      s in w.ended || s in w.app.closed || Connected(w.dialed[s], s) in w.flights || Held(w.app, s)
  }

  ghost predicate FlightsOk(w: World, strict: bool) { OnePerGen(w) && DriversMatch(w) && Driven(w, strict) && FlightsNamed(w) }

  ghost predicate SessionsOk(w: World) { DialedOk(w) && TabsNamed(w) && LastScreens(w) && Accounted(w) }

  ghost predicate Inv(w: World, strict: bool) { AppOk(w.app) && FlightsOk(w, strict) && SessionsOk(w) }

  /** Tab t may take tab i's place on message m, and start cmd. */
  ghost predicate Fits(w: World, i: nat, t: Tab, m: Option<Flight>, cmd: Option<Flight>)
    requires i < |w.app.tabs|
  {
    && TabOk(t) && t.slot.id == w.app.tabs[i].slot.id && (i == w.app.active ==> !t.activity)
    && (if cmd.Some? then Drives(w.log, cmd.value, t) && FlightNames(w, cmd.value) else t.Parked())
    && (t.session.Some? ==> Names(w, t.gen, t.session) && t.session.value !in w.app.closed)
    && (t.Down() ==> ShowsDead(w, t))
    && (var s := w.app.tabs[i].session; s == t.session || s.None? || s.value in w.ended)
    && (m.Some? && m.value.Connected? ==> t.session == Some(m.value.session))
  }
}
