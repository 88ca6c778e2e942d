/**
 * The terminal tabs of internal/ui as values: what every key press and every
 * message does to the open tabs, the pool of terminal slots and the generation
 * counter, and which command it starts. TabApp holds the objects that are
 * updated in place and proves that they follow these functions; TabRuns proves
 * what holds in every run.
 */
module TabModel {
  import opened Options
  import opened Basics

  const MAX_TABS: nat := 8

  /** A connection the ssh package delivered, numbered in order of delivery. */
  type Session = nat

  /** One piece of shell output. */
  type Chunk = string

  datatype TabState = Connecting | Live | Lost | Reconnecting

  datatype Error = ConnectionLost | HostKeyUnknown | KeyPassphraseRequired | OtherError

  /** A terminal slot: where its key pump writes and what has been printed on it since it was last reset. */
  datatype Slot = Slot(id: nat, writer: Option<Session>, screen: seq<Chunk>)

  datatype Tab = Tab(
    server: string, gen: int, session: Option<Session>, slot: Slot, state: TabState,
    attempt: nat, scheduled: bool, activity: bool)
  {
    predicate Down() { state.Lost? || state.Reconnecting? }

    /** A lost tab that no backoff timer is going to bring back. */
    predicate Parked() { state.Lost? && !scheduled }
  }

  /** `closed` records the sessions Session.Close was called on. */
  datatype App = App(tabs: seq<Tab>, active: int, free: seq<Slot>, live: nat, gen: int, closed: set<Session>)

  const INITIAL_APP := App([], -1, [], 0, 0, {})

  /**
   * Everything that runs outside the update loop: a command that is still
   * running (Dial, Receive, Tick) or the message it has put on its way back.
   * The `from` of an Output or Ended message notes where it was read; no
   * handler looks at it. `wait` is what a Tick was set to, in seconds.
   */
  datatype Flight =
    | Dial(gen: int, prompts: bool)
    | Connected(gen: int, session: Session)
    | ConnectFailed(gen: int, error: Error)
    | Receive(gen: int, from: Option<Session>)
    | Output(gen: int, from: Option<Session>, data: Chunk)
    | Ended(gen: int, from: Option<Session>, reason: Option<Error>)
    | Tick(gen: int, wait: nat)
    | Reconnect(gen: int)
  {
    predicate IsMessage() { Connected? || ConnectFailed? || Output? || Ended? || Reconnect? }
  }

  /** What a handler leaves behind, and the command it hands to the runtime. */
  datatype Outcome = Outcome(app: App, cmd: Option<Flight>)

  // ---------------------------------------------------------------- lookups

  /** The first tab with this generation, or -1. */
  function TabByGen(tabs: seq<Tab>, gen: int, from: nat := 0): (i: int)
    requires from <= |tabs|
    ensures -1 <= i < |tabs|
    ensures i == -1 ==> forall j :: from <= j < |tabs| ==> tabs[j].gen != gen
    ensures i != -1 ==> from <= i && tabs[i].gen == gen && forall j :: from <= j < i ==> tabs[j].gen != gen
    decreases |tabs| - from
  {
    if from == |tabs| then -1
    else if tabs[from].gen == gen then from
    else TabByGen(tabs, gen, from + 1)
  }

  /** The first tab of a server, or -1. */
  function TabIndexFor(tabs: seq<Tab>, server: string, from: nat := 0): (i: int)
    requires from <= |tabs|
    ensures -1 <= i < |tabs|
    ensures i == -1 ==> forall j :: from <= j < |tabs| ==> tabs[j].server != server
    ensures i != -1 ==> from <= i && tabs[i].server == server && forall j :: from <= j < i ==> tabs[j].server != server
    decreases |tabs| - from
  {
    if from == |tabs| then -1
    else if tabs[from].server == server then from
    else TabIndexFor(tabs, server, from + 1)
  }

  // ---------------------------------------------------------------- backoff

  /** Seconds before the next automatic retry: doubling from one, capped. */
  function Backoff(attempt: int): nat {
    var a := Clamp(attempt, 1, 6);
    var d := Pow2(a - 1);
    if d < 30 then d else 30
  }

  function Pow2(n: nat): nat { if n == 0 then 1 else 2 * Pow2(n - 1) }

  /** Clamping the attempt to six loses nothing: the schedule is min(2^(n-1), 30) for every n, however long it goes on. */
  lemma BackoffIsCappedDoubling(attempt: int)
    ensures Backoff(attempt) == (var d := Pow2(if attempt < 1 then 0 else attempt - 1); if d < 30 then d else 30)
  {
    assert Pow2(5) == 32;
    if attempt > 6 {
      Pow2Grows(5, attempt - 1);
    }
  }

  lemma Pow2Grows(m: nat, n: nat)
    requires m <= n
    ensures Pow2(m) <= Pow2(n)
  {
  }

  // ---------------------------------------------------------------- the panel

  function WithTab(app: App, i: nat, t: Tab): App
    requires i < |app.tabs|
  {
    app.(tabs := app.tabs[i := t])
  }

  function SwitchTo(app: App, i: int): App {
    if i < 0 || i >= |app.tabs| then app
    else WithTab(app, i, app.tabs[i].(activity := false)).(active := i)
  }

  /** Go's remainder takes the sign of the dividend; adding n once more makes the index non-negative for any delta. */
  function CycleTab(app: App, delta: int): App {
    if |app.tabs| == 0 then app
    else
      var n := |app.tabs|;
      SwitchTo(app, GoRem(GoRem(app.active + delta, n) + n, n))
  }

  function GoRem(a: int, n: nat): int
    requires n > 0
  {
    if a >= 0 then a % n else -((-a) % n)
  }

  /** The tab is gone: its session closed, its slot wiped and back in the pool. */
  function DropTab(app: App, i: nat): App
    requires i < |app.tabs|
  {
    var t := app.tabs[i];
    app.(closed := app.closed + (if t.session.Some? then {t.session.value} else {}),
         free := app.free + [t.slot.(writer := None, screen := [])],
         tabs := app.tabs[..i] + app.tabs[i + 1..])
  }

  /** Which tab is on screen once tab i is gone: the same one, or i's right neighbour, or else its left one. */
  function Refocus(app: App, i: nat): App {
    if app.tabs == [] then app.(active := -1)
    else if app.active > i then app.(active := app.active - 1)
    else if app.active == i then
      var a := Clamp(i, 0, |app.tabs| - 1);
      WithTab(app, a, app.tabs[a].(activity := false)).(active := a)
    else app
  }

  function CloseTab(app: App, i: int): App {
    if i < 0 || i >= |app.tabs| then app else Refocus(DropTab(app, i), i)
  }

  function CloseAll(app: App): App
    decreases |app.tabs|
  {
    if |app.tabs| == 0 then app else CloseAll(CloseTab(app, |app.tabs| - 1))
  }

  /** The pool's get: the last free slot, wiped, or a new one while fewer than MAX_TABS exist. */
  function GetSlot(app: App): Option<(App, Slot)> {
    var n := |app.free|;
    if n > 0 then Some((app.(free := app.free[..n - 1]), app.free[n - 1].(screen := [])))
    else if app.live >= MAX_TABS then None
    else Some((app.(live := app.live + 1), Slot(app.live, None, [])))
  }

  function OpenTab(app: App, server: string, force: bool): Outcome {
    var i := TabIndexFor(app.tabs, server);
    if !force && i >= 0 then Outcome(SwitchTo(app, i), None)
    else match GetSlot(app)
      case None => Outcome(app, None)
      case Some((rest, slot)) =>
        var gen := rest.gen + 1;
        var t := Tab(server, gen, None, slot, Connecting, 0, false, false);
        Outcome(rest.(gen := gen, tabs := rest.tabs + [t], active := |rest.tabs|), Some(Dial(gen, true)))
  }

  /** Dial again. Only an attempt somebody asked for may put a host key question to the user. */
  function Redial(app: App, i: nat, auto: bool): Outcome
    requires i < |app.tabs|
  {
    var gen := app.gen + 1;
    Outcome(WithTab(app, i, app.tabs[i].(gen := gen, state := Reconnecting, scheduled := false)).(gen := gen),
            Some(Dial(gen, !auto)))
  }

  function ScheduleReconnect(app: App, i: nat): Outcome
    requires i < |app.tabs|
  {
    var t := app.tabs[i];
    Outcome(
      WithTab(app, i, t.(state := Lost, session := None, attempt := t.attempt + 1,
                         slot := t.slot.(writer := None), scheduled := true)),
      Some(Tick(t.gen, Backoff(t.attempt + 1))))
  }

  function StopReconnecting(app: App, i: nat): App
    requires i < |app.tabs|
  {
    var t := app.tabs[i];
    WithTab(app, i, t.(state := Lost, session := None, slot := t.slot.(writer := None), scheduled := false))
  }

  // ---------------------------------------------------------------- messages

  /** A tab that comes back gets a blank screen; until then it showed what the lost session had left. */
  function GoLive(app: App, i: nat, session: Session): Outcome
    requires i < |app.tabs|
  {
    var t := app.tabs[i];
    var screen := if t.attempt > 0 then [] else t.slot.screen;
    Outcome(
      WithTab(app, i, t.(session := Some(session), state := Live, attempt := 0, scheduled := false,
                         slot := t.slot.(writer := Some(session), screen := screen),
                         activity := t.activity || i != app.active)),
      Some(Receive(t.gen, Some(session))))
  }

  function OnConnected(app: App, gen: int, session: Session): Outcome {
    var i := TabByGen(app.tabs, gen);
    if i < 0 then Outcome(app.(closed := app.closed + {session}), None) else GoLive(app, i, session)
  }

  function OnConnectFailed(app: App, gen: int, error: Error): Outcome {
    var i := TabByGen(app.tabs, gen);
    if i < 0 then Outcome(app, None)
    else if app.tabs[i].attempt > 0 then
      if error.HostKeyUnknown? then Outcome(StopReconnecting(app, i), None) else ScheduleReconnect(app, i)
    else Outcome(CloseTab(app, i), None)
  }

  function OnReconnect(app: App, gen: int): Outcome {
    var i := TabByGen(app.tabs, gen);
    if i < 0 || !app.tabs[i].state.Lost? then Outcome(app, None) else Redial(app, i, true)
  }

  /** Waits again on whatever session the tab holds now; Go would fault here if it held none. */
  function OnOutput(app: App, gen: int, data: Chunk): Outcome {
    var i := TabByGen(app.tabs, gen);
    if i < 0 then Outcome(app, None)
    else
      var t := app.tabs[i];
      Outcome(
        WithTab(app, i, t.(slot := t.slot.(screen := t.slot.screen + [data]),
                           activity := t.activity || i != app.active)),
        Some(Receive(t.gen, t.session)))
  }

  function OnEnded(app: App, gen: int, reason: Option<Error>): Outcome {
    var i := TabByGen(app.tabs, gen);
    if i < 0 then Outcome(app, None)
    else if reason == Some(ConnectionLost) then ScheduleReconnect(app, i)
    else Outcome(CloseTab(app, i), None)
  }

  /** The update loop's dispatch over the messages above. */
  function Update(app: App, msg: Flight): Outcome
    requires msg.IsMessage()
  {
    match msg
    case Connected(gen, session) => OnConnected(app, gen, session)
    case ConnectFailed(gen, error) => OnConnectFailed(app, gen, error)
    case Output(gen, _, data) => OnOutput(app, gen, data)
    case Ended(gen, _, reason) => OnEnded(app, gen, reason)
    case Reconnect(gen) => OnReconnect(app, gen)
  }

  /** [r] in a focused session: dials again only when the tab on screen is lost. */
  function PressReconnect(app: App): Outcome {
    if 0 <= app.active < |app.tabs| && app.tabs[app.active].state.Lost?
    then Redial(app, app.active, false) else Outcome(app, None)
  }

  function CloseCurrent(app: App): App {
    if 0 <= app.active < |app.tabs| then CloseTab(app, app.active) else app
  }
}
