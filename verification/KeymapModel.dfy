/**
 * What rebinding makes of a keymap (internal/ui/keymap.go), as functions on
 * the rows of one context, and the condition under which no key ends up
 * meaning two things.
 */
module KeymapModel {
  import opened Options

  datatype Context =
    | Global | Sidebar | Session | Tabs | Sftp | Form | Import | Sync | Confirm | Error | Unlock | Prompt | Help

  datatype Verb =
    | ShowHelp | Quit
    | Connect | NewSession | Edit | Delete | Files | FocusPanel | Filter | Move | ToggleGroup | FoldGroup
    | UnfoldGroup | SortRecent | ImportConfig | SyncSetup | SyncPush | SyncPull
    | Escape | ScrollUp | ScrollDown | ScrollPageUp | ScrollPageDown | Reconnect | Copy
    | Select | Prev | Next | Close
    | SwitchPane | Mark | ClearMarks | Transfer | Rename | Refresh | Open | Parent | Up | Down | PageUp | PageDown
    | Home | End | Drag | Back
    | Cancel | Auth | Save | Toggle | ToggleAll | Accept | NextField | PrevField | Submit | Yes | No | Retry
    | Dismiss | SwitchField | Search

  /** The id in keys.json is the context's name, a dot and the verb's; any other id is Unknown. */
  datatype Action = Action(context: Context, verb: Verb) | Unknown(id: string)

  /** One value for each key name. */
  datatype Key =
    | Char(c: char) | Ctrl(c: char) | Alt(key: Key) | Shift(key: Key)
    | UpKey | DownKey | LeftKey | RightKey | EnterKey | TabKey | EscKey | Backspace | PgUp | PgDown | HomeKey | EndKey
    | Named(name: string)

  datatype Binding = Binding(action: Action, keys: seq<Key>, doc: bool)

  type Rows = seq<Binding>
  type Table = map<Context, Rows>
  type User = map<Action, seq<Key>>

  datatype Reason = NoSuchAction | NotRebindable | AlreadyUsed(key: Key) | CannotBeUnbound
  datatype Problem = Problem(action: Action, reason: Reason)

  /** The two bindings that may never be left without a key. */
  predicate Mandatory(a: Action) { a == Action(Session, Escape) || a == Action(Global, ShowHelp) }

  // ---------------------------------------------------------------- rows

  predicate HoldsKey(r: Rows, i: int, key: Key) {
    0 <= i < |r| && !r[i].doc && key in r[i].keys
  }

  predicate HoldsTwice(r: Rows, i: int, key: Key) {
    HoldsKey(r, i, key) && multiset(r[i].keys)[key] >= 2
  }

  /** The key is listed at least twice among the rows that can be rebound. */
  ghost predicate Clash(r: Rows, key: Key) {
    || (exists i :: HoldsTwice(r, i, key))
    || (exists i, j :: i != j && HoldsKey(r, i, key) && HoldsKey(r, j, key))
  }

  ghost predicate ClashFree(r: Rows) { forall key :: !Clash(r, key) }

  ghost predicate InClash(r: Rows, i: int) { exists key :: HoldsKey(r, i, key) && Clash(r, key) }

  predicate Distinct(r: Rows) {
    forall i, j | 0 <= i < j < |r| :: r[i].action != r[j].action
  }

  /** r is d with other keys on rows that can be rebound. */
  predicate SameRows(r: Rows, d: Rows) {
    && |r| == |d|
    && forall i | 0 <= i < |r| :: r[i] == d[i].(keys := r[i].keys) && (d[i].doc ==> r[i] == d[i])
  }

  /** A table in which, besides, no key is given out twice, and escape and help are there. */
  ghost predicate Sound(t: Table) {
    && (forall c: Context :: c in t && SoundRows(c, t[c]))
    && (exists i :: 0 <= i < |t[Session]| && t[Session][i].action == Action(Session, Escape))
    && (exists i :: 0 <= i < |t[Global]| && t[Global][i].action == Action(Global, ShowHelp))
  }

  predicate OrderlyRows(c: Context, r: Rows) {
    && Distinct(r)
    && (forall i | 0 <= i < |r| :: r[i].action.Action? && r[i].action.context == c)
    && (forall i | 0 <= i < |r| && Mandatory(r[i].action) :: r[i].keys != [] && !r[i].doc)
  }

  /** A table whose rows are named for their context, each action once, what is mandatory with a key. */
  ghost predicate Orderly(t: Table) { forall c: Context :: c in t && OrderlyRows(c, t[c]) }

  ghost predicate SoundRows(c: Context, r: Rows) { OrderlyRows(c, r) && ClashFree(r) }

  ghost predicate SameTable(t: Table, d: Table) {
    forall c: Context :: c in t && c in d && SameRows(t[c], d[c])
  }

  // ---------------------------------------------------------------- rebinding, stage by stage

  function Overlay(r: Rows, user: User): (o: Rows)
    ensures |o| == |r|
  {
    seq(|r|, i requires 0 <= i < |r| =>
      if !r[i].doc && r[i].action in user then r[i].(keys := user[r[i].action]) else r[i])
  }

  /** The rows of o, those of the actions in `back` with d's keys. */
  function Reverted(o: Rows, d: Rows, back: set<Action>): (r: Rows)
    requires |o| == |d|
    ensures |r| == |o|
  {
    seq(|o|, i requires 0 <= i < |o| => if o[i].action in back then o[i].(keys := d[i].keys) else o[i])
  }

  ghost function Clashing(r: Rows): (back: set<Action>)
    ensures forall a :: a in back <==> exists i :: 0 <= i < |r| && r[i].action == a && InClash(r, i)
  {
    set i | 0 <= i < |r| && InClash(r, i) :: r[i].action
  }

  /** One pass: every action holding a clashing key goes back to its default. */
  ghost function Resolved(o: Rows, d: Rows): Rows
    requires |o| == |d|
  {
    Reverted(o, d, Clashing(o))
  }

  function Emptied(r: Rows): (back: set<Action>)
    ensures forall a :: a in back <==> exists i :: 0 <= i < |r| && r[i].action == a && Mandatory(a) && r[i].keys == []
  {
    set i | 0 <= i < |r| && Mandatory(r[i].action) && r[i].keys == [] :: r[i].action
  }

  /** What is mandatory and has no key gets its default back. */
  function Rebound(o: Rows, d: Rows): Rows
    requires |o| == |d|
  {
    Reverted(o, d, Emptied(o))
  }

  predicate Touched(r: Rows, user: User) {
    exists i :: 0 <= i < |r| && !r[i].doc && r[i].action in user
  }

  ghost function AppliedRows(r: Rows, d: Rows, user: User): Rows
    requires |r| == |d|
  {
    Rebound(if Touched(r, user) then Resolved(Overlay(r, user), d) else r, d)
  }

  ghost function Applied(t: Table, d: Table, user: User): Table
    requires SameTable(t, d)
  {
    if user == map[] then t else (map c: Context :: AppliedRows(t[c], d[c], user))
  }

  // ---------------------------------------------------------------- lookup

  /** The action of the last declared row that holds the key. */
  function Lookup(r: Rows, key: Key): Option<Action> {
    if r == [] then None
    else if HoldsKey(r, |r| - 1, key) then Some(r[|r| - 1].action)
    else Lookup(r[..|r| - 1], key)
  }

  /** Row i holds the key, and no later one does. */
  ghost predicate LastToHold(r: Rows, i: int, key: Key) {
    HoldsKey(r, i, key) && forall j | i < j < |r| :: !HoldsKey(r, j, key)
  }

  lemma LastOfPrefix(r: Rows, n: nat, i: int, key: Key)
    requires |r| == n + 1 && !HoldsKey(r, n, key)
    ensures LastToHold(r[..n], i, key) <==> LastToHold(r, i, key)
  {
    assert forall j | 0 <= j < n :: HoldsKey(r[..n], j, key) <==> HoldsKey(r, j, key);
  }

  lemma {:induction false} LookupFindsTheLast(r: Rows, key: Key, a: Action)
    ensures Lookup(r, key) == Some(a) <==> exists i :: LastToHold(r, i, key) && r[i].action == a
  {
    if r != [] {
      var n := |r| - 1;
      if HoldsKey(r, n, key) {
        assert LastToHold(r, n, key);
      } else {
        LookupFindsTheLast(r[..n], key, a);
        forall i ensures LastToHold(r[..n], i, key) <==> LastToHold(r, i, key) {
          LastOfPrefix(r, n, i, key);
        }
      }
    }
  }

  ghost predicate HeldBy(r: Rows, a: Action, key: Key) {
    exists i :: HoldsKey(r, i, key) && r[i].action == a
  }

  /** Without clashes a key does exactly what every list it is in says. */
  lemma LookupIsMembership(r: Rows, key: Key, a: Action)
    requires ClashFree(r)
    ensures Lookup(r, key) == Some(a) <==> HeldBy(r, a, key)
  {
    LookupFindsTheLast(r, key, a);
    assert !Clash(r, key);
  }

  // ---------------------------------------------------------------- counting, as resolveClashes does

  function KeysOf(r: Rows): multiset<Key> {
    if r == [] then multiset{}
    else KeysOf(r[..|r| - 1]) + if r[|r| - 1].doc then multiset{} else multiset(r[|r| - 1].keys)
  }

  lemma ClashGrows(rest: Rows, r: Rows, key: Key)
    requires rest <= r && Clash(rest, key)
    ensures Clash(r, key)
  {
    if i :| HoldsTwice(rest, i, key) {
      assert HoldsTwice(r, i, key);
    } else {
      var i, j :| i != j && HoldsKey(rest, i, key) && HoldsKey(rest, j, key);
      assert HoldsKey(r, i, key) && HoldsKey(r, j, key);
    }
  }

  lemma ClashInPrefix(r: Rows, n: nat, key: Key)
    requires |r| == n + 1 && Clash(r, key)
    ensures Clash(r[..n], key) || HoldsTwice(r, n, key) || (HoldsKey(r, n, key) && exists i :: HoldsKey(r[..n], i, key))
  {
    var rest := r[..n];
    if i :| HoldsTwice(r, i, key) {
      assert i < n ==> HoldsTwice(rest, i, key);
    } else {
      var i, j :| i < j && HoldsKey(r, i, key) && HoldsKey(r, j, key);
      assert HoldsKey(rest, i, key);
      assert j < n ==> HoldsKey(rest, j, key);
    }
  }

  lemma ClashWithOneMore(r: Rows, n: nat, key: Key)
    requires |r| == n + 1
    ensures Clash(r, key) <==>
            Clash(r[..n], key) || HoldsTwice(r, n, key) || (HoldsKey(r, n, key) && exists i :: HoldsKey(r[..n], i, key))
  {
    if Clash(r, key) {
      ClashInPrefix(r, n, key);
    } else if Clash(r[..n], key) {
      ClashGrows(r[..n], r, key);
    } else if i :| HoldsKey(r, n, key) && HoldsKey(r[..n], i, key) {
      assert HoldsKey(r, i, key);
    }
  }

  /** A key met once while counting is held, one met twice clashes. */
  lemma {:induction false} CountedTwice(r: Rows, key: Key)
    ensures KeysOf(r)[key] >= 1 <==> exists i :: HoldsKey(r, i, key)
    ensures KeysOf(r)[key] >= 2 <==> Clash(r, key)
  {
    if r != [] {
      var n := |r| - 1;
      CountedTwice(r[..n], key);
      ClashWithOneMore(r, n, key);
      assert forall i | 0 <= i < n :: HoldsKey(r[..n], i, key) <==> HoldsKey(r, i, key);
      var here := if r[n].doc then multiset{} else multiset(r[n].keys);
      assert KeysOf(r)[key] == KeysOf(r[..n])[key] + here[key];
      assert HoldsKey(r, n, key) <==> here[key] >= 1;
      assert HoldsTwice(r, n, key) <==> here[key] >= 2;
    }
  }

  // ---------------------------------------------------------------- what a pass restores

  /** A row ends with its default: it clashed, or it was mandatory and empty. */
  ghost predicate Restored(o: Rows, i: int) {
    InClash(o, i) || (0 <= i < |o| && Mandatory(o[i].action) && o[i].keys == [])
  }

  /** After both stages every row has its default keys, if restored, or the keys it came with. */
  lemma RowsAfterwards(o: Rows, d: Rows, c: Context, i: int)
    requires SoundRows(c, d) && SameRows(o, d) && 0 <= i < |o|
    ensures Rebound(Resolved(o, d), d)[i] == if Restored(o, i) then d[i] else o[i]
  {
    var r := Resolved(o, d);
    ClashingAt(o, i);
    assert r[i].action in Emptied(r) <==> Mandatory(r[i].action) && r[i].keys == [] by {
      forall k | 0 <= k < |r| && r[k].action == r[i].action ensures k == i {
        assert d[k].action == d[i].action;
      }
    }
  }

  /** Actions being distinct, a row reverts with its own clashes only. */
  lemma ClashingAt(o: Rows, i: int)
    requires Distinct(o) && 0 <= i < |o|
    ensures o[i].action in Clashing(o) <==> InClash(o, i)
  {
  }

  /** The guard: no default that comes back is a key some row kept. */
  ghost predicate DefaultsAreFree(o: Rows, d: Rows)
    requires |o| == |d|
  {
    forall i, j, key | Restored(o, i) && 0 <= j < |o| && !Restored(o, j) && key in d[i].keys && !d[i].doc :: !HoldsKey(o, j, key)
  }

  /** The mix of d's rows where `back` says and o's elsewhere; o's rows do not clash where kept. */
  lemma MixIsClashFree(o: Rows, d: Rows, m: Rows, c: Context)
    requires SoundRows(c, d) && SameRows(o, d) && |m| == |o|
    requires forall i | 0 <= i < |m| :: m[i] == if Restored(o, i) then d[i] else o[i]
    requires DefaultsAreFree(o, d)
    ensures ClashFree(m)
  {
    forall key ensures !Clash(m, key) {
      assert !Clash(d, key);
      forall i ensures !HoldsTwice(m, i, key) {
        assert Restored(o, i) && HoldsTwice(m, i, key) ==> HoldsTwice(d, i, key);
        assert !Restored(o, i) && HoldsTwice(m, i, key) ==> HoldsTwice(o, i, key);
      }
      forall i, j | i != j && HoldsKey(m, i, key) ensures !HoldsKey(m, j, key) {
        if HoldsKey(m, j, key) {
          ApartHere(o, d, m, key, i, j);
        }
      }
    }
  }

  lemma ApartHere(o: Rows, d: Rows, m: Rows, key: Key, i: int, j: int)
    requires ClashFree(d) && SameRows(o, d) && |m| == |o|
    requires forall i | 0 <= i < |m| :: m[i] == if Restored(o, i) then d[i] else o[i]
    requires DefaultsAreFree(o, d) && i != j
    ensures !(HoldsKey(m, i, key) && HoldsKey(m, j, key))
  {
    if HoldsKey(m, i, key) && HoldsKey(m, j, key) {
      assert !Clash(d, key);
      assert Restored(o, i) ==> HoldsKey(d, i, key);
      assert Restored(o, j) ==> HoldsKey(d, j, key);
      assert !Restored(o, i) ==> HoldsKey(o, i, key);
      assert !Restored(o, j) ==> HoldsKey(o, j, key);
    }
  }

  lemma MixClashes(o: Rows, d: Rows, m: Rows)
    requires SameRows(o, d) && |m| == |o|
    requires forall i | 0 <= i < |m| :: m[i] == if Restored(o, i) then d[i] else o[i]
    requires !DefaultsAreFree(o, d)
    ensures !ClashFree(m)
  {
    var i, j, key :| Restored(o, i) && 0 <= j < |o| && !Restored(o, j) && key in d[i].keys && !d[i].doc && HoldsKey(o, j, key);
    assert HoldsKey(m, i, key) && HoldsKey(m, j, key);
    assert Clash(m, key);
  }

  /**
   * The rows end without a clash exactly if no default that a clash or the
   * mandatory rule brings back is held by a row that keeps its keys.
   */
  lemma ClashFreeWhen(o: Rows, d: Rows, c: Context)
    requires SoundRows(c, d) && SameRows(o, d)
    ensures ClashFree(Rebound(Resolved(o, d), d)) <==> DefaultsAreFree(o, d)
  {
    var m := Rebound(Resolved(o, d), d);
    forall i | 0 <= i < |m| ensures m[i] == if Restored(o, i) then d[i] else o[i] {
      RowsAfterwards(o, d, c, i);
    }
    if DefaultsAreFree(o, d) {
      MixIsClashFree(o, d, m, c);
    } else {
      MixClashes(o, d, m);
    }
  }

  // ---------------------------------------------------------------- resolving until nothing clashes

  ghost function Changed(o: Rows, d: Rows): set<int>
    requires |o| == |d|
  {
    set i | 0 <= i < |o| && o[i].keys != d[i].keys
  }

  lemma ResolvedAt(o: Rows, d: Rows, c: Context, i: int)
    requires SoundRows(c, d) && SameRows(o, d) && 0 <= i < |o|
    ensures Resolved(o, d)[i] == if InClash(o, i) then d[i] else o[i]
  {
    ClashingAt(o, i);
  }

  lemma ResolvedSameRows(o: Rows, d: Rows, c: Context)
    requires SoundRows(c, d) && SameRows(o, d)
    ensures SameRows(Resolved(o, d), d)
  {
    forall i | 0 <= i < |o| ensures Resolved(o, d)[i] == if InClash(o, i) then d[i] else o[i] {
      ResolvedAt(o, d, c, i);
    }
  }

  lemma SomeClashIsNotDefault(o: Rows, d: Rows)
    requires ClashFree(d) && SameRows(o, d) && !ClashFree(o)
    ensures exists i :: InClash(o, i) && i in Changed(o, d)
  {
    var key :| Clash(o, key);
    assert !Clash(d, key);
    if i :| HoldsTwice(o, i, key) {
      assert !HoldsTwice(d, i, key);
      assert InClash(o, i) && i in Changed(o, d);
    } else {
      var i, j :| i != j && HoldsKey(o, i, key) && HoldsKey(o, j, key);
      assert InClash(o, i) && InClash(o, j);
      assert !(HoldsKey(d, i, key) && HoldsKey(d, j, key));
      assert i in Changed(o, d) || j in Changed(o, d);
    }
  }

  /** A pass over clashing rows takes back at least one that was not on its default. */
  lemma EveryPassReverts(o: Rows, d: Rows, c: Context)
    requires SoundRows(c, d) && SameRows(o, d) && !ClashFree(o)
    ensures Changed(Resolved(o, d), d) < Changed(o, d)
  {
    var r := Resolved(o, d);
    SomeClashIsNotDefault(o, d);
    var k :| InClash(o, k) && k in Changed(o, d);
    ResolvedAt(o, d, c, k);
    forall i | i in Changed(r, d) ensures i in Changed(o, d) {
      ResolvedAt(o, d, c, i);
    }
  }

  /** Resolving again and again. */
  ghost function Settled(o: Rows, d: Rows, c: Context): (r: Rows)
    requires SoundRows(c, d) && SameRows(o, d)
    ensures SameRows(r, d) && ClashFree(r)
    decreases Changed(o, d)
  {
    if ClashFree(o) then o
    else
      EveryPassReverts(o, d, c);
      ResolvedSameRows(o, d, c);
      Settled(Resolved(o, d), d, c)
  }

  /** Every row ends with the keys it came with or with its default. */
  lemma {:induction false} SettledRows(o: Rows, d: Rows, c: Context, i: int)
    requires SoundRows(c, d) && SameRows(o, d) && 0 <= i < |o|
    ensures Settled(o, d, c)[i] in {o[i], d[i]}
    decreases Changed(o, d)
  {
    if !ClashFree(o) {
      EveryPassReverts(o, d, c);
      ResolvedSameRows(o, d, c);
      ResolvedAt(o, d, c, i);
      SettledRows(Resolved(o, d), d, c, i);
    }
  }

  lemma ReboundAt(o: Rows, d: Rows, c: Context, i: int)
    requires SoundRows(c, d) && SameRows(o, d) && 0 <= i < |o|
    ensures Rebound(o, d)[i] == if Mandatory(o[i].action) && o[i].keys == [] then d[i] else o[i]
  {
    forall k | 0 <= k < |o| && o[k].action == o[i].action ensures k == i {
      assert d[k].action == d[i].action;
    }
  }

  lemma ReboundSameRows(o: Rows, d: Rows, c: Context)
    requires SoundRows(c, d) && SameRows(o, d)
    ensures SameRows(Rebound(o, d), d)
  {
    forall i | 0 <= i < |o| ensures Rebound(o, d)[i] == if Mandatory(o[i].action) && o[i].keys == [] then d[i] else o[i] {
      ReboundAt(o, d, c, i);
    }
  }

  /** Mandatory rows first, then passes until nothing clashes. */
  ghost function Repaired(o: Rows, d: Rows, c: Context): Rows
    requires SoundRows(c, d) && SameRows(o, d)
  {
    ReboundSameRows(o, d, c);
    Settled(Rebound(o, d), d, c)
  }

  /** Done that way no condition is needed: no clash, nothing mandatory unbound, every row the user's or its default. */
  lemma RepairedIsSafe(o: Rows, d: Rows, c: Context)
    requires SoundRows(c, d) && SameRows(o, d)
    ensures ClashFree(Repaired(o, d, c))
    ensures forall i | 0 <= i < |o| ::
              Repaired(o, d, c)[i] in {o[i], d[i]} && (Mandatory(o[i].action) ==> Repaired(o, d, c)[i].keys != [])
  {
    ReboundSameRows(o, d, c);
    forall i | 0 <= i < |o|
      ensures Repaired(o, d, c)[i] in {o[i], d[i]} && (Mandatory(o[i].action) ==> Repaired(o, d, c)[i].keys != [])
    {
      ReboundAt(o, d, c, i);
      SettledRows(Rebound(o, d), d, c, i);
    }
  }

  lemma SettledOnce(o: Rows, d: Rows, c: Context)
    requires SoundRows(c, d) && SameRows(o, d) && ClashFree(Resolved(o, d))
    ensures Settled(o, d, c) == Resolved(o, d)
  {
    ResolvedSameRows(o, d, c);
    if ClashFree(o) {
      forall i | 0 <= i < |o| ensures Resolved(o, d)[i] == o[i] {
        ResolvedAt(o, d, c, i);
      }
      assert Resolved(o, d) == o;
    }
  }

  lemma EitherOrder(o: Rows, d: Rows, c: Context, i: int)
    requires SoundRows(c, d) && SameRows(o, d) && DefaultsAreFree(o, d) && 0 <= i < |o|
    requires SameRows(Rebound(o, d), d)
    ensures Resolved(Rebound(o, d), d)[i] == Rebound(Resolved(o, d), d)[i]
  {
    RowsAfterwards(o, d, c, i);
    ResolvedAt(Rebound(o, d), d, c, i);
    ReboundAt(o, d, c, i);
    ReboundClashes(o, d, c, i);
  }

  /** Where one pass is enough the two ways agree. */
  lemma RepairedAgrees(o: Rows, d: Rows, c: Context)
    requires SoundRows(c, d) && SameRows(o, d) && DefaultsAreFree(o, d)
    ensures Repaired(o, d, c) == Rebound(Resolved(o, d), d)
  {
    ClashFreeWhen(o, d, c);
    ReboundSameRows(o, d, c);
    var once, m := Resolved(Rebound(o, d), d), Rebound(Resolved(o, d), d);
    forall i | 0 <= i < |o| ensures once[i] == m[i] {
      EitherOrder(o, d, c, i);
    }
    assert once == m;
    SettledOnce(Rebound(o, d), d, c);
  }

  /** Binding the mandatory rows first makes no row clash that would have kept its keys. */
  lemma ReboundClashes(o: Rows, d: Rows, c: Context, i: int)
    requires SoundRows(c, d) && SameRows(o, d) && DefaultsAreFree(o, d) && 0 <= i < |o|
    ensures InClash(o, i) ==> InClash(Rebound(o, d), i)
    ensures InClash(Rebound(o, d), i) ==> Restored(o, i)
  {
    var b := Rebound(o, d);
    forall k | 0 <= k < |o| ensures b[k] == if Mandatory(o[k].action) && o[k].keys == [] then d[k] else o[k] {
      ReboundAt(o, d, c, k);
    }
    if key :| HoldsKey(o, i, key) && Clash(o, key) {
      StillHeld(o, b, key);
      assert HoldsKey(b, i, key);
    }
    if !Restored(o, i) {
      forall key | HoldsKey(b, i, key) ensures !Clash(b, key) {
        NoNewClash(o, d, b, i, key);
      }
    }
  }

  lemma StillHeld(o: Rows, b: Rows, key: Key)
    requires |b| == |o| && (forall k | 0 <= k < |o| && o[k].keys != [] :: b[k] == o[k]) && Clash(o, key)
    ensures Clash(b, key)
  {
    if i :| HoldsTwice(o, i, key) {
      assert HoldsTwice(b, i, key);
    } else {
      var i, j :| i != j && HoldsKey(o, i, key) && HoldsKey(o, j, key);
      assert HoldsKey(b, i, key) && HoldsKey(b, j, key);
    }
  }

  lemma NoNewClash(o: Rows, d: Rows, b: Rows, i: int, key: Key)
    requires SameRows(o, d) && DefaultsAreFree(o, d) && |b| == |o| && !Restored(o, i) && HoldsKey(b, i, key)
    requires forall k | 0 <= k < |o| :: b[k] == if Mandatory(o[k].action) && o[k].keys == [] then d[k] else o[k]
    ensures !Clash(b, key)
  {
    assert HoldsKey(o, i, key);
    assert !Clash(o, key);
    assert forall k | 0 <= k < |o| && Restored(o, k) && !d[k].doc :: key !in d[k].keys;
    forall k | HoldsKey(b, k, key) ensures k == i && !HoldsTwice(b, k, key) {
      assert HoldsKey(o, k, key);
      assert !HoldsTwice(o, k, key);
    }
  }
}
