/**
 * The objects behind TabModel: tabs, terminal slots and the pool, updated in
 * place by the methods of internal/ui. Each method takes the view of the panel
 * to exactly the view its TabModel function gives, and keeps tabs and slots
 * from being shared.
 */
module TabApp {
  import opened Options
  import opened Basics
  import M = TabModel

  /** An emulator and the key pump that drains its reply pipe. */
  class TermSlot {
    const id: nat
    var writer: Option<M.Session>
    var screen: seq<M.Chunk>

    constructor (id: nat)
      ensures View() == M.Slot(id, None, [])
    {
      this.id, writer, screen := id, None, [];
    }

    ghost function View(): M.Slot
      reads this
    {
      M.Slot(id, writer, screen)
    }

    method Attach(session: M.Session)
      modifies this
      ensures View() == old(View()).(writer := Some(session))
    {
      writer := Some(session);
    }

    method Detach()
      modifies this
      ensures View() == old(View()).(writer := None)
    {
      writer := None;
    }

    method Reset()
      modifies this
      ensures View() == old(View()).(screen := [])
    {
      screen := [];
    }

    method Print(data: M.Chunk)
      modifies this
      ensures View() == old(View()).(screen := old(screen) + [data])
    {
      screen := screen + [data];
    }
  }

  /** Slots are recycled, never destroyed: `live` counts the ones ever made. */
  class TermPool {
    var free: seq<TermSlot>
    var live: nat

    constructor ()
      ensures free == [] && live == 0
    {
      free, live := [], 0;
    }

    method Get() returns (slot: TermSlot?)
      modifies this, free
      ensures old(|free|) > 0 ==>
                && slot == old(free[|free| - 1]) && free == old(free[..|free| - 1]) && live == old(live)
                && slot.View() == old(free[|free| - 1].View()).(screen := [])
      ensures old(|free|) == 0 ==> free == []
      ensures old(|free|) == 0 && old(live) >= M.MAX_TABS ==> slot == null && live == old(live)
      ensures old(|free|) == 0 && old(live) < M.MAX_TABS ==>
                slot != null && fresh(slot) && slot.View() == M.Slot(old(live), None, []) && live == old(live) + 1
      ensures forall s | s in old(free) && s != slot :: s.View() == old(s.View())
    {
      var n := |free|;
      if n > 0 {
        slot := free[n - 1];
        free := free[..n - 1];
        slot.Reset();
        return;
      }
      if live >= M.MAX_TABS {
        return null;
      }
      slot := new TermSlot(live);
      live := live + 1;
    }

    method Put(slot: TermSlot?)
      modifies this, slot
      ensures live == old(live)
      ensures slot == null ==> free == old(free)
      ensures slot != null ==>
                free == old(free) + [slot] && slot.View() == old(slot.View()).(writer := None, screen := [])
    {
      if slot == null {
        return;
      }
      slot.Detach();
      slot.Reset();
      free := free + [slot];
    }
  }

  /** One remote shell. */
  class SessionTab {
    const server: string
    var gen: int
    var session: Option<M.Session>
    var slot: TermSlot?
    var state: M.TabState
    var attempt: nat
    var scheduled: bool
    var activity: bool

    constructor (server: string, gen: int, slot: TermSlot)
      ensures this.server == server && this.gen == gen && this.slot == slot
      ensures session == None && state == M.Connecting && attempt == 0 && !scheduled && !activity
    {
      this.server, this.gen, this.slot := server, gen, slot;
      session, state, attempt, scheduled, activity := None, M.Connecting, 0, false, false;
    }

    ghost function View(): M.Tab
      requires slot != null
      reads this, slot
    {
      M.Tab(server, gen, session, slot.View(), state, attempt, scheduled, activity)
    }
  }

  lemma CloseLastFirst(v: M.App)
    requires |v.tabs| > 0
    ensures M.CloseAll(v) == M.CloseAll(M.CloseTab(v, |v.tabs| - 1))
  {
  }

  class App {
    var tabs: seq<SessionTab>
    var active: int
    const pool: TermPool
    var gen: int
    var closed: set<M.Session>
    ghost var Repr: set<object>

    /** No tab is listed twice, and no slot is shared between tabs or with the pool. */
    ghost predicate Valid()
      reads this, Repr
      ensures Valid() ==> this in Repr
    {
      && this in Repr && pool in Repr
      && (forall i | 0 <= i < |tabs| :: tabs[i] in Repr && tabs[i].slot != null && tabs[i].slot in Repr)
      && (forall k | 0 <= k < |pool.free| :: pool.free[k] in Repr)
      && (forall i, j | 0 <= i < j < |tabs| :: tabs[i] != tabs[j] && tabs[i].slot != tabs[j].slot)
      && (forall k, l | 0 <= k < l < |pool.free| :: pool.free[k] != pool.free[l])
      && (forall i, k | 0 <= i < |tabs| && 0 <= k < |pool.free| :: tabs[i].slot != pool.free[k])
    }

    ghost function View(): (v: M.App)
      requires Valid()
      reads this, Repr
      ensures |v.tabs| == |tabs| && |v.free| == |pool.free|
      ensures forall i | 0 <= i < |tabs| :: v.tabs[i] == tabs[i].View()
      ensures forall k | 0 <= k < |pool.free| :: v.free[k] == pool.free[k].View()
    {
      var free, repr := pool.free, Repr;
      M.App(seq(|tabs|, i requires 0 <= i < |tabs| && Valid() reads this, Repr => tabs[i].View()),
            active,
            seq(|free|, k requires 0 <= k < |free| && free[k] in repr reads repr => free[k].View()),
            pool.live, gen, closed)
    }

    /** The view is v when each part is. */
    lemma ViewFrom(v: M.App)
      requires Valid()
      requires |v.tabs| == |tabs| && forall i | 0 <= i < |tabs| :: tabs[i].View() == v.tabs[i]
      requires |v.free| == |pool.free| && forall k | 0 <= k < |pool.free| :: pool.free[k].View() == v.free[k]
      requires active == v.active && pool.live == v.live && gen == v.gen && closed == v.closed
      ensures View() == v
    {
      assert View().tabs == v.tabs;
      assert View().free == v.free;
    }

    /** After writes to tab i and its slot only, the view differs at tab i only. */
    twostate lemma OnlyTab(i: nat)
      requires old(Valid()) && i < |old(tabs)|
      requires tabs == old(tabs) && Repr == old(Repr) && unchanged(pool)
      requires tabs[i].slot == old(tabs[i].slot)
      requires forall o | o in Repr && o != this && o != tabs[i] && o != tabs[i].slot :: unchanged(o)
      ensures Valid()
      ensures View() == old(View()).(tabs := old(View()).tabs[i := tabs[i].View()], active := active, gen := gen, closed := closed)
    {
      forall j | 0 <= j < |tabs| && j != i ensures tabs[j].slot != null && tabs[j].View() == old(tabs[j].View()) {
        assert unchanged(tabs[j]) && unchanged(tabs[j].slot);
      }
      forall k | 0 <= k < |pool.free| ensures pool.free[k].View() == old(pool.free[k].View()) {
        assert unchanged(pool.free[k]);
      }
      assert Valid();
      ViewFrom(old(View()).(tabs := old(View()).tabs[i := tabs[i].View()], active := active, gen := gen, closed := closed));
    }

    constructor ()
      ensures Valid() && fresh(Repr)
      ensures View() == M.INITIAL_APP
    {
      tabs, active, gen, closed := [], -1, 0, {};
      pool := new TermPool();
      new;
      Repr := {this, pool};
    }

    method TabByGen(gen: int) returns (i: int)
      requires Valid()
      ensures i == M.TabByGen(View().tabs, gen)
    {
      i := 0;
      while i < |tabs|
        invariant 0 <= i <= |tabs|
        invariant forall j | 0 <= j < i :: tabs[j].gen != gen
      {
        if tabs[i].gen == gen {
          return;
        }
        i := i + 1;
      }
      i := -1;
    }

    method TabIndexFor(server: string) returns (i: int)
      requires Valid()
      ensures i == M.TabIndexFor(View().tabs, server)
    {
      i := 0;
      while i < |tabs|
        invariant 0 <= i <= |tabs|
        invariant forall j | 0 <= j < i :: tabs[j].server != server
      {
        if tabs[i].server == server {
          return;
        }
        i := i + 1;
      }
      i := -1;
    }

    method SwitchTo(i: int)
      requires Valid()
      modifies this, Repr
      ensures Valid() && Repr == old(Repr)
      ensures View() == M.SwitchTo(old(View()), i)
    {
      if i < 0 || i >= |tabs| {
        return;
      }
      active := i;
      tabs[i].activity := false;
      ViewFrom(M.SwitchTo(old(View()), i));
    }

    method CycleTab(delta: int)
      requires Valid()
      modifies this, Repr
      ensures Valid() && Repr == old(Repr)
      ensures View() == M.CycleTab(old(View()), delta)
    {
      if |tabs| == 0 {
        return;
      }
      var n := |tabs|;
      SwitchTo(M.GoRem(M.GoRem(active + delta, n) + n, n));
    }

    /** CloseTab, first: tab i leaves the list. */
    method Unlist(i: nat) returns (t: SessionTab)
      requires Valid() && i < |tabs|
      modifies this
      ensures Valid() && Repr == old(Repr)
      ensures t == old(tabs[i]) && t in Repr && t !in tabs && t.slot != null && t.slot in Repr
      ensures t.slot !in pool.free && forall j | 0 <= j < |tabs| :: tabs[j].slot != t.slot
      ensures View() == (var v := old(View()); v.(tabs := v.tabs[..i] + v.tabs[i + 1..]))
    {
      t := tabs[i];
      tabs := tabs[..i] + tabs[i + 1..];
      assert forall j | 0 <= j < |tabs| :: tabs[j] == old(tabs)[if j < i then j else j + 1];
      ViewFrom(var v := old(View()); v.(tabs := v.tabs[..i] + v.tabs[i + 1..]));
    }

    /** CloseTab, second: its session ends and its slot goes back to the pool. */
    method Release(t: SessionTab)
      requires Valid()
      requires t in Repr && t !in tabs && t.slot != null && t.slot in Repr
      requires t.slot !in pool.free && forall j | 0 <= j < |tabs| :: tabs[j].slot != t.slot
      modifies this, Repr
      ensures Valid() && Repr == old(Repr)
      ensures View() == (var v := old(View()); v.(
                closed := v.closed + (if old(t.session).Some? then {old(t.session).value} else {}),
                free := v.free + [old(t.View()).slot.(writer := None, screen := [])]))
    {
      if t.session.Some? {
        closed := closed + {t.session.value};
        t.session := None;
      }
      pool.Put(t.slot);
      t.slot := null;
      t.gen := -1;
      ViewFrom(var v := old(View()); v.(
                closed := closed, free := v.free + [old(t.View()).slot.(writer := None, screen := [])]));
    }

    /** Puts another tab on screen if tab i was: the tab that moved into the gap, else the one before it. */
    method Refocus(i: nat)
      requires Valid()
      modifies this, Repr
      ensures Valid() && Repr == old(Repr)
      ensures View() == M.Refocus(old(View()), i)
    {
      if |tabs| == 0 {
        active := -1;
      } else if active > i {
        active := active - 1;
      } else if active == i {
        active := Clamp(i, 0, |tabs| - 1);
        tabs[active].activity := false;
      }
      ViewFrom(M.Refocus(old(View()), i));
    }

    method CloseTab(i: int)
      requires Valid()
      modifies this, Repr
      ensures Valid() && Repr == old(Repr)
      ensures View() == M.CloseTab(old(View()), i)
    {
      if i < 0 || i >= |tabs| {
        return;
      }
      var t := Unlist(i);
      Release(t);
      Refocus(i);
    }

    /** The quit path. */
    method CloseAll()
      requires Valid()
      modifies this, Repr
      ensures Valid() && Repr == old(Repr)
      ensures View() == M.CloseAll(old(View()))
    {
      while |tabs| > 0
        invariant Valid() && Repr == old(Repr)
        invariant M.CloseAll(View()) == M.CloseAll(old(View()))
        decreases |tabs|
      {
        CloseLastFirst(View());
        CloseTab(|tabs| - 1);
      }
      assert View().tabs == [];
    }

    method OpenTab(server: string, force: bool) returns (cmd: Option<M.Flight>)
      requires Valid()
      modifies this, Repr
      ensures Valid() && fresh(Repr - old(Repr))
      ensures M.Outcome(View(), cmd) == M.OpenTab(old(View()), server, force)
    {
      cmd := None;
      var i := TabIndexFor(server);
      if !force && i >= 0 {
        SwitchTo(i);
        return;
      }
      cmd := OpenNew(server);
    }

    method OpenNew(server: string) returns (cmd: Option<M.Flight>)
      requires Valid()
      modifies this, Repr
      ensures Valid() && fresh(Repr - old(Repr))
      ensures M.Outcome(View(), cmd) == M.OpenTab(old(View()), server, true)
    {
      var slot := Borrow();
      if slot == null {
        return None;
      }
      Append(server, slot);
      return Some(M.Dial(gen, true));
    }

    /** A new tab of a new generation, put on screen. */
    method Append(server: string, slot: TermSlot)
      requires Valid()
      requires slot in Repr && slot !in pool.free && forall i | 0 <= i < |tabs| :: tabs[i].slot != slot
      modifies this
      ensures Valid() && fresh(Repr - old(Repr))
      ensures View() == (var v := old(View()); v.(
                gen := v.gen + 1,
                tabs := v.tabs + [M.Tab(server, v.gen + 1, None, old(slot.View()), M.Connecting, 0, false, false)],
                active := |v.tabs|))
    {
      gen := gen + 1;
      var t := new SessionTab(server, gen, slot);
      tabs := tabs + [t];
      active := |tabs| - 1;
      Repr := Repr + {t};
      assert forall j | 0 <= j < |tabs| - 1 :: tabs[j] == old(tabs)[j] && tabs[j].View() == old(tabs[j].View());
      ViewFrom(var v := old(View()); v.(
                gen := v.gen + 1,
                tabs := v.tabs + [M.Tab(server, v.gen + 1, None, old(slot.View()), M.Connecting, 0, false, false)],
                active := |v.tabs|));
    }

    /** A slot from the pool, not held by any tab. */
    method Borrow() returns (slot: TermSlot?)
      requires Valid()
      modifies this, Repr
      ensures Valid() && fresh(Repr - old(Repr))
      ensures slot == null ==> View() == old(View())
      ensures slot != null ==> slot in Repr && slot !in pool.free && forall i | 0 <= i < |tabs| :: tabs[i].slot != slot
      ensures M.GetSlot(old(View())) == if slot == null then None else Some((View(), slot.View()))
    {
      slot := pool.Get();
      if slot != null {
        Repr := Repr + {slot};
      }
      Borrowed(slot);
    }

    /** What pool.Get leaves behind. */
    twostate lemma Borrowed(new slot: TermSlot?)
      requires old(Valid())
      requires tabs == old(tabs) && active == old(active) && gen == old(gen) && closed == old(closed)
      requires Repr == old(Repr) + (if slot == null then {} else {slot})
      requires forall i | 0 <= i < |tabs| :: unchanged(tabs[i]) && unchanged(tabs[i].slot)
      requires forall s | s in old(pool.free) && s != slot :: s.View() == old(s.View())
      requires if old(|pool.free|) > 0 then
                 && slot == old(pool.free[|pool.free| - 1]) && pool.free == old(pool.free[..|pool.free| - 1])
                 && pool.live == old(pool.live)
                 && slot.View() == old(pool.free[|pool.free| - 1].View()).(screen := [])
               else if old(pool.live) >= M.MAX_TABS then slot == null && pool.free == [] && pool.live == old(pool.live)
               else
                 && slot != null && slot !in old(Repr) && pool.free == []
                 && slot.View() == M.Slot(old(pool.live), None, []) && pool.live == old(pool.live) + 1
      ensures Valid()
      ensures slot == null ==> View() == old(View())
      ensures slot != null ==> slot in Repr && slot !in pool.free && forall i | 0 <= i < |tabs| :: tabs[i].slot != slot
      ensures M.GetSlot(old(View())) == if slot == null then None else Some((View(), slot.View()))
    {
      forall j | 0 <= j < |tabs| ensures tabs[j].slot != null && tabs[j].slot != slot && tabs[j].View() == old(tabs[j].View()) {
        assert unchanged(tabs[j]) && unchanged(tabs[j].slot);
      }
      forall k | 0 <= k < |pool.free| ensures pool.free[k].View() == old(View()).free[k] {
        assert pool.free[k] == old(pool.free)[k] && pool.free[k] != slot;
      }
      ViewFrom(if slot == null then old(View()) else M.GetSlot(old(View())).value.0);
    }

    method Redial(t: SessionTab, ghost i: nat, auto: bool) returns (cmd: Option<M.Flight>)
      requires Valid() && i < |tabs| && t == tabs[i]
      modifies this, t
      ensures Valid() && Repr == old(Repr)
      ensures M.Outcome(View(), cmd) == M.Redial(old(View()), i, auto)
    {
      gen := gen + 1;
      t.gen := gen;
      t.state := M.Reconnecting;
      t.scheduled := false;
      cmd := Some(M.Dial(gen, !auto));
      OnlyTab(i);
    }

    method ScheduleReconnect(t: SessionTab, ghost i: nat) returns (cmd: Option<M.Flight>)
      requires Valid() && i < |tabs| && t == tabs[i]
      modifies t, t.slot
      ensures Valid() && Repr == old(Repr)
      ensures M.Outcome(View(), cmd) == M.ScheduleReconnect(old(View()), i)
    {
      t.state := M.Lost;
      t.session := None;
      t.attempt := t.attempt + 1;
      if t.slot != null {
        t.slot.Detach();
      }
      t.scheduled := true;
      cmd := Some(M.Tick(t.gen, M.Backoff(t.attempt)));
      OnlyTab(i);
    }

    method StopReconnecting(t: SessionTab, ghost i: nat)
      requires Valid() && i < |tabs| && t == tabs[i]
      modifies t, t.slot
      ensures Valid() && Repr == old(Repr)
      ensures View() == M.StopReconnecting(old(View()), i)
    {
      t.state := M.Lost;
      t.session := None;
      t.scheduled := false;
      if t.slot != null {
        t.slot.Detach();
      }
      OnlyTab(i);
    }

    method OnConnected(gen: int, session: M.Session) returns (cmd: Option<M.Flight>)
      requires Valid()
      modifies this, Repr
      ensures Valid() && Repr == old(Repr)
      ensures M.Outcome(View(), cmd) == M.OnConnected(old(View()), gen, session)
    {
      var i := TabByGen(gen);
      if i < 0 {
        closed := closed + {session};
        ViewFrom(M.OnConnected(old(View()), gen, session).app);
        return None;
      }
      cmd := GoLive(tabs[i], i, session);
    }

    method GoLive(t: SessionTab, ghost i: nat, session: M.Session) returns (cmd: Option<M.Flight>)
      requires Valid() && i < |tabs| && t == tabs[i]
      modifies t, t.slot
      ensures Valid() && Repr == old(Repr)
      ensures M.Outcome(View(), cmd) == M.GoLive(old(View()), i, session)
    {
      var reconnected := t.attempt > 0;
      t.session := Some(session);
      t.state := M.Live;
      t.attempt := 0;
      t.scheduled := false;
      if reconnected {
        t.slot.Reset();
      }
      t.slot.Attach(session);
      if active < 0 || active >= |tabs| || t != tabs[active] {
        t.activity := true;
      }
      cmd := Some(M.Receive(t.gen, Some(session)));
      OnlyTab(i);
    }

    method OnConnectFailed(gen: int, error: M.Error) returns (cmd: Option<M.Flight>)
      requires Valid()
      modifies this, Repr
      ensures Valid() && Repr == old(Repr)
      ensures M.Outcome(View(), cmd) == M.OnConnectFailed(old(View()), gen, error)
    {
      cmd := None;
      var i := TabByGen(gen);
      if i < 0 {
        return;
      }
      var t := tabs[i];
      if t.attempt > 0 {
        if error.HostKeyUnknown? {
          StopReconnecting(t, i);
        } else {
          cmd := ScheduleReconnect(t, i);
        }
        return;
      }
      CloseTab(i);
    }

    method OnReconnect(gen: int) returns (cmd: Option<M.Flight>)
      requires Valid()
      modifies this, Repr
      ensures Valid() && Repr == old(Repr)
      ensures M.Outcome(View(), cmd) == M.OnReconnect(old(View()), gen)
    {
      cmd := None;
      var i := TabByGen(gen);
      if i < 0 || !tabs[i].state.Lost? {
        return;
      }
      cmd := Redial(tabs[i], i, true);
    }

    method OnOutput(gen: int, data: M.Chunk) returns (cmd: Option<M.Flight>)
      requires Valid()
      modifies this, Repr
      ensures Valid() && Repr == old(Repr)
      ensures M.Outcome(View(), cmd) == M.OnOutput(old(View()), gen, data)
    {
      var i := TabByGen(gen);
      if i < 0 {
        return None;
      }
      var t := tabs[i];
      t.slot.Print(data);
      if i != active {
        t.activity := true;
      }
      cmd := Some(M.Receive(t.gen, t.session));
      OnlyTab(i);
    }

    method OnEnded(gen: int, reason: Option<M.Error>) returns (cmd: Option<M.Flight>)
      requires Valid()
      modifies this, Repr
      ensures Valid() && Repr == old(Repr)
      ensures M.Outcome(View(), cmd) == M.OnEnded(old(View()), gen, reason)
    {
      cmd := None;
      var i := TabByGen(gen);
      if i < 0 {
        return;
      }
      if reason == Some(M.ConnectionLost) {
        cmd := ScheduleReconnect(tabs[i], i);
        return;
      }
      CloseTab(i);
    }

    /** The messages of the update loop that concern a tab. */
    method Update(msg: M.Flight) returns (cmd: Option<M.Flight>)
      requires Valid() && msg.IsMessage()
      modifies this, Repr
      ensures Valid() && Repr == old(Repr)
      ensures M.Outcome(View(), cmd) == M.Update(old(View()), msg)
    {
      match msg
      case Connected(gen, session) => cmd := OnConnected(gen, session);
      case ConnectFailed(gen, error) => cmd := OnConnectFailed(gen, error);
      case Output(gen, _, data) => cmd := OnOutput(gen, data);
      case Ended(gen, _, reason) => cmd := OnEnded(gen, reason);
      case Reconnect(gen) => cmd := OnReconnect(gen);
    }

    method PressReconnect() returns (cmd: Option<M.Flight>)
      requires Valid()
      modifies this, Repr
      ensures Valid() && Repr == old(Repr)
      ensures M.Outcome(View(), cmd) == M.PressReconnect(old(View()))
    {
      cmd := None;
      if 0 <= active < |tabs| && tabs[active].state.Lost? {
        cmd := Redial(tabs[active], active, false);
      }
    }

    method CloseCurrent()
      requires Valid()
      modifies this, Repr
      ensures Valid() && Repr == old(Repr)
      ensures View() == M.CloseCurrent(old(View()))
    {
      if 0 <= active < |tabs| {
        CloseTab(active);
      }
    }
  }
}
