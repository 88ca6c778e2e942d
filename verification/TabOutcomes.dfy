/**
 * What can become of a tab in one step, told by the worlds before and after
 * alone.
 */
module TabOutcomes {
  import opened Options
  import opened TabModel
  import opened TabWorld

  /** No tab but tab i differs, and nothing of the panel besides. */
  predicate InPlace(w: World, i: nat, w': World) {
    && i < |w.app.tabs| == |w'.app.tabs|
    && w'.app == w.app.(tabs := w.app.tabs[i := w'.app.tabs[i]], gen := w'.app.gen)
  }

  /** One second, doubled once for each failed attempt, and never more than 30. */
  function DoubledUpTo30(failed: nat): nat {
    if failed == 0 then 1
    else var d := 2 * DoubledUpTo30(failed - 1); if d < 30 then d else 30
  }

  /** Tab i waits for a timer to dial again: still there with its screen, no session, one more attempt counted. */
  predicate WillRetry(w: World, i: nat, w': World) {
    && InPlace(w, i, w') && w'.app.gen == w.app.gen
    && var t, t' := w.app.tabs[i], w'.app.tabs[i];
       && t'.state == Lost && t'.scheduled && t'.session == None && t'.slot == Slot(t.slot.id, None, t.slot.screen)
       && t'.gen == t.gen && t'.server == t.server && t'.attempt == t.attempt + 1 && t'.activity == t.activity
       && w'.flights[Tick(t.gen, DoubledUpTo30(t.attempt))] == 1
  }

  /** Tab i waits for the user: the same, but no timer is set and nothing of it is in flight. */
  ghost predicate WaitsForR(w: World, i: nat, w': World) {
    && InPlace(w, i, w') && w'.app.gen == w.app.gen
    && var t, t' := w.app.tabs[i], w'.app.tabs[i];
       && t'.state == Lost && !t'.scheduled && t'.session == None && t'.slot == Slot(t.slot.id, None, t.slot.screen)
       && t'.gen == t.gen && t'.server == t.server && t'.activity == t.activity
       && !HasDriver(w'.flights, t.gen)
  }

  /** Tab i is live on s, blank, and waits for its output. */
  predicate IsLive(w: World, i: nat, s: Session, w': World) {
    && InPlace(w, i, w') && w'.app.gen == w.app.gen
    && var t, t' := w.app.tabs[i], w'.app.tabs[i];
       && t'.state == Live && t'.session == Some(s) && t'.slot == Slot(t.slot.id, Some(s), [])
       && t'.gen == t.gen && t'.server == t.server && t'.attempt == 0 && !t'.scheduled
       && (t'.activity <==> t.activity || i != w.app.active)
       && w'.flights[Receive(t.gen, Some(s))] == 1
  }

  /** Tab i dials again under a new generation, with its screen kept. */
  ghost predicate DialsAgain(w: World, i: nat, prompts: bool, w': World) {
    && InPlace(w, i, w') && w'.app.gen == w.app.gen + 1
    && var t, t' := w.app.tabs[i], w'.app.tabs[i];
       && t' == t.(state := Reconnecting, gen := w.app.gen + 1, scheduled := false)
       && w'.flights[Dial(t'.gen, prompts)] == 1 && !HasDriver(w.flights, t'.gen)
  }

  /** Tab i shows one more chunk and waits for the next. */
  predicate ShowsMore(w: World, i: nat, data: Chunk, w': World) {
    && InPlace(w, i, w') && w'.app.gen == w.app.gen
    && var t, t' := w.app.tabs[i], w'.app.tabs[i];
       && t' == t.(slot := Slot(t.slot.id, t.slot.writer, t.slot.screen + [data]), activity := t.activity || i != w.app.active)
       && w'.flights[Receive(t.gen, t.session)] == 1
  }

  /** Tab i is gone: no tab of its generation is left, its session is closed, its slot is blank in the pool. */
  ghost predicate Gone(w: World, i: nat, w': World) {
    && i < |w.app.tabs| == |w'.app.tabs| + 1
    && (forall j | 0 <= j < |w'.app.tabs| :: StillThere(w.app.tabs[if j < i then j else j + 1], w'.app.tabs[j]))
    && (forall j | 0 <= j < |w'.app.tabs| :: w'.app.tabs[j].gen != w.app.tabs[i].gen)
    && w'.app.free == w.app.free + [Slot(w.app.tabs[i].slot.id, None, [])]
    && w'.app.closed == w.app.closed + (if w.app.tabs[i].session.Some? then {w.app.tabs[i].session.value} else {})
    && w'.app.live == w.app.live && w'.app.gen == w.app.gen
    && VisibleAfter(w.app, i, w'.app)
  }

  /** The same tab, but for the mark that something happened on it. */
  predicate StillThere(t: Tab, t': Tab) { t' == t.(activity := t'.activity) }

  /** Who is on screen once tab i is gone: whoever was, or else the right neighbour, or else the left one. */
  predicate VisibleAfter(app: App, i: nat, app': App) {
    var n := |app'.tabs|;
    if n == 0 then app'.active == -1
    else if i != app.active then
      && 0 <= app.active < |app.tabs| && app'.active == (if app.active < i then app.active else app.active - 1)
    else app'.active == (if i < n then i else n - 1) && !app'.tabs[app'.active].activity
  }

  /** Nothing changed but that the message has been taken. */
  predicate Dropped(w: World, m: Flight, w': World) { w' == w.(flights := w.flights - multiset{m}) }

  /** Tab i is on screen, its mark gone, and nothing else changed. */
  predicate OnScreen(w: World, i: int, w': World) {
    && 0 <= i < |w.app.tabs|
    && w' == w.(app := w.app.(active := i, tabs := w.app.tabs[i := w.app.tabs[i].(activity := false)]))
  }

  /** A new tab at the end and on screen, in its first dial, which may ask; on a blank slot no other tab has. */
  ghost predicate Opened(w: World, server: string, w': World) {
    var n := |w.app.tabs|;
    && |w'.app.tabs| == n + 1 && w'.app.tabs[..n] == w.app.tabs && w'.app.active == n
    && w'.app.gen == w.app.gen + 1 && w'.app.closed == w.app.closed
    && var t := w'.app.tabs[n];
       && t == Tab(server, w.app.gen + 1, None, Slot(t.slot.id, None, []), Connecting, 0, false, false)
       && (forall j | 0 <= j < n :: w.app.tabs[j].slot.id != t.slot.id)
       && w'.flights[Dial(t.gen, true)] == 1 && !HasDriver(w.flights, t.gen)
  }
}
