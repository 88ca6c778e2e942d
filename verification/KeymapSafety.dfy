/**
 * What a user's keys.json does to a whole keymap: which entries are refused,
 * what every key does afterwards, and where the single pass goes wrong.
 */
module KeymapSafety {
  import opened Options
  import opened KeymapModel

  predicate Rebindable(t: Table, a: Action) {
    exists c, i :: c in t && 0 <= i < |t[c]| && t[c][i].action == a && !t[c][i].doc
  }

  // ---------------------------------------------------------------- reports

  function Who(ps: seq<Problem>): (who: set<Action>)
    ensures forall i | 0 <= i < |ps| :: ps[i].action in who
    ensures forall a | a in who :: exists i :: 0 <= i < |ps| && ps[i].action == a
  {
    set p | p in ps :: p.action
  }

  /** No action is reported twice. */
  predicate Once(ps: seq<Problem>) { forall i, j | 0 <= i < j < |ps| :: ps[i].action != ps[j].action }

  lemma OneMoreReport(ps: seq<Problem>, p: Problem)
    ensures Who(ps + [p]) == Who(ps) + {p.action}
    ensures Once(ps) && p.action !in Who(ps) ==> Once(ps + [p])
  {
    assert forall q :: q in ps + [p] <==> q in ps || q == p;
  }

  lemma MoreReports(ps: seq<Problem>, qs: seq<Problem>)
    ensures Who(ps + qs) == Who(ps) + Who(qs)
    ensures Once(ps) && Once(qs) && Who(ps) !! Who(qs) ==> Once(ps + qs)
  {
    assert forall q :: q in ps + qs <==> q in ps || q in qs;
  }

  function Strangers(t: Table, user: User): set<Action> { set a | a in user && !Rebindable(t, a) }

  ghost function Clashers(r: Rows, user: User): set<Action> { Clashing(Overlay(r, user)) * user.Keys }

  /** What is left empty once clashes are resolved. */
  ghost function LeftEmpty(r: Rows, d: Rows, user: User): set<Action>
    requires |r| == |d|
  {
    Emptied(if Touched(r, user) then Resolved(Overlay(r, user), d) else r)
  }

  ghost function RefusedIn(r: Rows, d: Rows, user: User): set<Action>
    requires |r| == |d|
  {
    (if Touched(r, user) then Clashers(r, user) else {}) + LeftEmpty(r, d, user)
  }

  /** Everything refused. */
  ghost function Refused(t: Table, d: Table, user: User): set<Action>
    requires SameTable(t, d)
  {
    if user == map[] then {}
    else Strangers(t, user) + RefusedSomewhere(t, d, user)
  }

  ghost function RefusedSomewhere(t: Table, d: Table, user: User): (who: set<Action>)
    requires SameTable(t, d)
    ensures forall a :: a in who <==> exists c: Context :: a in RefusedIn(t[c], d[c], user)
  {
    set c: Context, a | a in RefusedIn(t[c], d[c], user) :: a
  }

  /** A reason given is the true one. */
  ghost predicate TrueReason(t: Table, user: User, p: Problem) {
    match p.reason
    case NoSuchAction => p.action in user && forall c, i | c in t && 0 <= i < |t[c]| :: t[c][i].action != p.action
    case NotRebindable => p.action in user && exists c, i :: c in t && 0 <= i < |t[c]| && t[c][i].action == p.action && t[c][i].doc
    case AlreadyUsed(key) => p.action in user && exists c :: c in t && HeldBy(Overlay(t[c], user), p.action, key) && Clash(Overlay(t[c], user), key)
    case CannotBeUnbound => Mandatory(p.action)
  }

  /** Midway through a pass over o: who has gone back so far, and what was said about it. */
  ghost predicate Reverting(o: Rows, user: User, back: set<Action>, ps: seq<Problem>) {
    && back <= Clashing(o)
    && Once(ps) && Who(ps) == back * user.Keys
    && forall p | p in ps ::
         p.reason.AlreadyUsed? && p.action in user && HeldBy(o, p.action, p.reason.key) && Clash(o, p.reason.key)
  }

  lemma OneMoreGoesBack(o: Rows, user: User, back: set<Action>, ps: seq<Problem>, a: Action, key: Key)
    requires Reverting(o, user, back, ps) && a !in back && HeldBy(o, a, key) && Clash(o, key)
    ensures Reverting(o, user, back + {a}, if a in user then ps + [Problem(a, AlreadyUsed(key))] else ps)
  {
    var p := Problem(a, AlreadyUsed(key));
    OneMoreReport(ps, p);
    assert (back + {a}) * user.Keys == if a in user then back * user.Keys + {a} else back * user.Keys;
    var i :| HoldsKey(o, i, key) && o[i].action == a;
    assert InClash(o, i);
  }

  // ---------------------------------------------------------------- applying to the defaults

  lemma UntouchedRows(d: Rows, c: Context, user: User)
    requires SoundRows(c, d) && !Touched(d, user)
    ensures Overlay(d, user) == d && Resolved(d, d) == d && Rebound(d, d) == d
    ensures Clashing(d) == {} && Emptied(d) == {}
  {
    assert forall i :: !InClash(d, i);
  }

  lemma AppliedRowsToDefaults(d: Rows, user: User, c: Context)
    requires SoundRows(c, d)
    ensures AppliedRows(d, d, user) == Rebound(Resolved(Overlay(d, user), d), d)
  {
    if !Touched(d, user) {
      UntouchedRows(d, c, user);
    }
  }

  /** Row by row: its default if it clashed or was mandatory and emptied, otherwise what the overlay gave it. */
  lemma AppliedRow(d: Rows, user: User, c: Context, i: int)
    requires SoundRows(c, d) && 0 <= i < |d|
    ensures AppliedRows(d, d, user)[i] == if Restored(Overlay(d, user), i) then d[i] else Overlay(d, user)[i]
  {
    AppliedRowsToDefaults(d, user, c);
    RowsAfterwards(Overlay(d, user), d, c, i);
  }

  /** A row brought back onto a key that another row kept. */
  lemma BroughtBackOnto(d: Rows, user: User, c: Context, i: int, j: int, key: Key)
    requires SoundRows(c, d) && 0 <= i < |d| && 0 <= j < |d| && !d[i].doc && key in d[i].keys
    requires Restored(Overlay(d, user), i) && !Restored(Overlay(d, user), j) && HoldsKey(Overlay(d, user), j, key)
    ensures var m := AppliedRows(d, d, user);
            HoldsKey(m, i, key) && HoldsKey(m, j, key) && Clash(m, key) && m[i] == d[i] && Distinct(m)
  {
    var m := AppliedRows(d, d, user);
    forall k | 0 <= k < |d| ensures m[k].action == d[k].action {
      AppliedRow(d, user, c, k);
    }
    AppliedRow(d, user, c, i);
    AppliedRow(d, user, c, j);
    assert i != j && HoldsKey(m, i, key) && HoldsKey(m, j, key);
  }

  /** A row with one key is out of reach once a later row has that key too. */
  lemma LaterRowWins(m: Rows, i: int, j: int, key: Key)
    requires Distinct(m) && 0 <= i < j < |m| && m[i].keys == [key] && HoldsKey(m, j, key)
    ensures forall k :: Lookup(m, k) != Some(m[i].action)
  {
    forall k ensures Lookup(m, k) != Some(m[i].action) {
      LookupFindsTheLast(m, k, m[i].action);
    }
  }

  lemma AppliedToDefaults(d: Table, user: User, c: Context)
    requires Sound(d)
    ensures SameTable(d, d)
    ensures Applied(d, d, user)[c] == Rebound(Resolved(Overlay(d[c], user), d[c]), d[c])
  {
    assert SoundRows(c, d[c]);
    AppliedRowsToDefaults(d[c], user, c);
    if user == map[] {
      UntouchedRows(d[c], c, user);
    }
  }

  /**
   * After Apply a context is free of clashes exactly if no default brought
   * back, by a clash or by the mandatory rule, is a key that some row kept.
   */
  lemma AppliedIsClashFreeWhen(d: Table, user: User, c: Context)
    requires Sound(d)
    ensures SameTable(d, d)
    ensures ClashFree(Applied(d, d, user)[c]) <==> DefaultsAreFree(Overlay(d[c], user), d[c])
  {
    AppliedToDefaults(d, user, c);
    assert SoundRows(c, d[c]);
    ClashFreeWhen(Overlay(d[c], user), d[c], c);
  }

  /** And then a key does an action if and only if it is in that action's list. */
  lemma KeyDoesWhatItsListSays(d: Table, user: User, c: Context, key: Key, a: Action)
    requires Sound(d) && DefaultsAreFree(Overlay(d[c], user), d[c])
    ensures SameTable(d, d)
    ensures Lookup(Applied(d, d, user)[c], key) == Some(a) <==> HeldBy(Applied(d, d, user)[c], a, key)
  {
    AppliedIsClashFreeWhen(d, user, c);
    LookupIsMembership(Applied(d, d, user)[c], key, a);
  }

  lemma RefusedHere(d: Table, user: User, c: Context, i: int)
    requires Sound(d) && 0 <= i < |d[c]|
    ensures SameTable(d, d)
    ensures var o := Overlay(d[c], user); var a := d[c][i].action;
            user != map[] && !d[c][i].doc && a in user ==> (a in RefusedIn(d[c], d[c], user) <==> Restored(o, i))
  {
    var o, a := Overlay(d[c], user), d[c][i].action;
    assert SoundRows(c, d[c]);
    if user != map[] && !d[c][i].doc && a in user {
      ClashingAt(o, i);
      ResolvedAt(o, d[c], c, i);
      var r := Resolved(o, d[c]);
      assert a in Emptied(r) <==> Mandatory(a) && r[i].keys == [] by {
        forall k | 0 <= k < |r| && r[k].action == a ensures k == i {
          assert d[c][k].action == d[c][i].action;
        }
      }
    }
  }

  lemma RefusedOutside(r: Rows, user: User, c: Context, a: Action)
    requires (forall i | 0 <= i < |r| :: r[i].action.Action? && r[i].action.context == c) && a in RefusedIn(r, r, user)
    ensures a.Action? && a.context == c
  {
    var o := if Touched(r, user) then Resolved(Overlay(r, user), r) else r;
    assert forall i | 0 <= i < |o| :: o[i].action == r[i].action;
    assert forall i | 0 <= i < |r| :: Overlay(r, user)[i].action == r[i].action;
  }

  /**
   * Every row ends with exactly what the user wrote for it, or with its
   * default; the default if and only if the entry is missing or refused.
   */
  lemma UserOrDefault(d: Table, user: User, c: Context, i: int)
    requires Sound(d) && 0 <= i < |d[c]|
    ensures SameTable(d, d) && i < |Applied(d, d, user)[c]|
    ensures var a := d[c][i].action;
            Applied(d, d, user)[c][i] ==
              if a in user && a !in Refused(d, d, user) then d[c][i].(keys := user[a]) else d[c][i]
  {
    var o, a := Overlay(d[c], user), d[c][i].action;
    assert SoundRows(c, d[c]);
    AppliedToDefaults(d, user, c);
    RowsAfterwards(o, d[c], c, i);
    if a in user {
      RefusedHere(d, user, c, i);
      forall c2: Context | a in RefusedIn(d[c2], d[c2], user) ensures c2 == c {
        assert SoundRows(c2, d[c2]);
        RefusedOutside(d[c2], user, c2, a);
      }
      assert d[c][i].doc <==> a in Strangers(d, user) by {
        forall c2, k | c2 in d && 0 <= k < |d[c2]| && d[c2][k].action == a ensures c2 == c && k == i {
          assert SoundRows(c2, d[c2]);
        }
      }
    }
  }

  /** What is mandatory always ends with a key in its list. */
  lemma MandatoryAreBound(d: Table, user: User, c: Context, i: int)
    requires Sound(d) && 0 <= i < |d[c]| && Mandatory(d[c][i].action)
    ensures SameTable(d, d) && i < |Applied(d, d, user)[c]| && Applied(d, d, user)[c][i].keys != []
  {
    assert SoundRows(c, d[c]);
    AppliedToDefaults(d, user, c);
    RowsAfterwards(Overlay(d[c], user), d[c], c, i);
  }

  // ---------------------------------------------------------------- which actions stay within reach

  /** The keys row i ends with: its default, if it clashed or was mandatory and emptied, else what the file left it. */
  ghost function FinalKeys(d: Rows, user: User, i: int): seq<Key>
    requires 0 <= i < |d|
  {
    if Restored(Overlay(d, user), i) then d[i].keys else Overlay(d, user)[i].keys
  }

  /** The key is among those row j ends with. */
  ghost predicate EndsWith(d: Rows, user: User, j: int, key: Key) {
    0 <= j < |d| && !d[j].doc && key in FinalKeys(d, user, j)
  }

  /** One of row i's keys is in no list declared later. */
  ghost predicate HasKeyOfItsOwn(d: Rows, user: User, i: int) {
    exists key :: EndsWith(d, user, i, key) && forall j | i < j < |d| :: !EndsWith(d, user, j, key)
  }

  lemma AppliedHolds(d: Rows, user: User, c: Context, j: int, key: Key)
    requires SoundRows(c, d)
    ensures HoldsKey(AppliedRows(d, d, user), j, key) <==> EndsWith(d, user, j, key)
  {
    if 0 <= j < |d| {
      AppliedRow(d, user, c, j);
    }
  }

  /** Some key does what row i is for exactly if one of the keys it ends with is in no later row's list. */
  lemma ReachableWhen(d: Rows, user: User, c: Context, i: int)
    requires SoundRows(c, d) && 0 <= i < |d|
    ensures (exists key :: Lookup(AppliedRows(d, d, user), key) == Some(d[i].action)) <==> HasKeyOfItsOwn(d, user, i)
  {
    var m, a := AppliedRows(d, d, user), d[i].action;
    forall k | 0 <= k < |d| ensures m[k].action == d[k].action {
      AppliedRow(d, user, c, k);
    }
    forall j, key ensures HoldsKey(m, j, key) <==> EndsWith(d, user, j, key) {
      AppliedHolds(d, user, c, j, key);
    }
    if key :| Lookup(m, key) == Some(a) {
      LookupFindsTheLast(m, key, a);
      var k :| LastToHold(m, k, key) && m[k].action == a;
      assert k == i;
    }
    if key :| EndsWith(d, user, i, key) && forall j | i < j < |d| :: !EndsWith(d, user, j, key) {
      assert LastToHold(m, i, key);
      LookupFindsTheLast(m, key, a);
    }
  }

  /** By their names: some row of the session's keymap escapes, some row of the global one shows the help, and each has a key. */
  lemma EscapeAndHelpAreBound(d: Table, user: User)
    requires Sound(d)
    ensures SameTable(d, d)
    ensures exists i :: 0 <= i < |Applied(d, d, user)[Session]| &&
              Applied(d, d, user)[Session][i].action == Action(Session, Escape) && Applied(d, d, user)[Session][i].keys != []
    ensures exists i :: 0 <= i < |Applied(d, d, user)[Global]| &&
              Applied(d, d, user)[Global][i].action == Action(Global, ShowHelp) && Applied(d, d, user)[Global][i].keys != []
  {
    assert SoundRows(Session, d[Session]) && SoundRows(Global, d[Global]);
    var i :| 0 <= i < |d[Session]| && d[Session][i].action == Action(Session, Escape);
    var j :| 0 <= j < |d[Global]| && d[Global][j].action == Action(Global, ShowHelp);
    MandatoryAreBound(d, user, Session, i);
    MandatoryAreBound(d, user, Global, j);
    UserOrDefault(d, user, Session, i);
    UserOrDefault(d, user, Global, j);
  }

  /** So it is with escape and help: whether there is a way out, and a way to find out, for every file. */
  lemma MandatoryReachableWhen(d: Table, user: User, c: Context, i: int)
    requires Sound(d) && 0 <= i < |d[c]| && Mandatory(d[c][i].action)
    ensures SameTable(d, d)
    ensures (exists key :: Lookup(Applied(d, d, user)[c], key) == Some(d[c][i].action)) <==> HasKeyOfItsOwn(d[c], user, i)
  {
    assert SoundRows(c, d[c]);
    AppliedToDefaults(d, user, c);
    AppliedRowsToDefaults(d[c], user, c);
    ReachableWhen(d[c], user, c, i);
  }

  /** Clash-free, with a key, is within reach. */
  lemma ClashFreeIsReachable(m: Rows, i: int)
    requires ClashFree(m) && 0 <= i < |m| && !m[i].doc && m[i].keys != []
    ensures exists key :: Lookup(m, key) == Some(m[i].action)
  {
    var key := m[i].keys[0];
    assert HoldsKey(m, i, key);
    assert HeldBy(m, m[i].action, key);
    LookupIsMembership(m, key, m[i].action);
  }

  /** With mandatory rows first and passes until nothing clashes, escape and help are always within reach. */
  lemma RepairedKeepsMandatoryReachable(d: Rows, user: User, c: Context, i: int)
    requires SoundRows(c, d) && 0 <= i < |d| && Mandatory(d[i].action)
    ensures SameRows(Overlay(d, user), d)
    ensures exists key :: Lookup(Repaired(Overlay(d, user), d, c), key) == Some(d[i].action)
  {
    var o := Overlay(d, user);
    RepairedIsSafe(o, d, c);
    ClashFreeIsReachable(Repaired(o, d, c), i);
  }

  // ---------------------------------------------------------------- dumping and reading back

  /** What DumpJSON prints, read back: each row that can be rebound with its keys. */
  ghost predicate IsDump(user: User, k: Table) {
    && (forall a :: a in user <==> Rebindable(k, a))
    && (forall c, i | c in k && 0 <= i < |k[c]| && !k[c][i].doc :: k[c][i].action in user && user[k[c][i].action] == k[c][i].keys)
  }

  ghost predicate NothingWrong(k: Table) {
    forall c | c in k :: ClashFree(k[c]) && Emptied(k[c]) == {}
  }

  lemma DumpOverlaid(k: Table, d: Table, user: User, c: Context)
    requires Sound(d) && SameTable(k, d) && IsDump(user, k)
    ensures Overlay(d[c], user) == k[c]
  {
    assert SameRows(k[c], d[c]);
    var o := Overlay(d[c], user);
    forall i | 0 <= i < |o| ensures o[i] == k[c][i] {
      assert k[c][i].action == d[c][i].action;
      assert !k[c][i].doc ==> user[k[c][i].action] == k[c][i].keys;
    }
  }

  lemma ClashIsRefused(o: Rows, d: Rows, user: User, c: Context)
    requires SoundRows(c, d) && SameRows(o, d) && !ClashFree(o) && Overlay(d, user) == o
    requires forall i | 0 <= i < |d| && !d[i].doc :: d[i].action in user
    ensures Clashers(d, user) != {}
  {
    SomeClashIsNotDefault(o, d);
    var i :| InClash(o, i) && i in Changed(o, d);
    assert o[i].action in Clashers(d, user);
  }

  lemma RefusedInDump(k: Table, d: Table, user: User, c: Context)
    requires Sound(d) && SameTable(k, d) && IsDump(user, k)
    ensures RefusedIn(d[c], d[c], user) == {} <==> ClashFree(k[c]) && Emptied(k[c]) == {}
  {
    var r, o := d[c], k[c];
    assert SoundRows(c, r) && SameRows(o, r);
    DumpOverlaid(k, d, user, c);
    if !Touched(r, user) {
      UntouchedRows(r, c, user);
    } else if !ClashFree(o) {
      ClashIsRefused(o, r, user, c);
    } else {
      assert forall i :: !InClash(o, i);
      assert Resolved(o, r) == o;
    }
  }

  lemma DumpIsNotEmpty(k: Table, d: Table, user: User)
    requires Sound(d) && SameTable(k, d) && IsDump(user, k)
    ensures user != map[]
  {
    var i :| 0 <= i < |d[Session]| && d[Session][i].action == Action(Session, Escape);
    assert SoundRows(Session, d[Session]) && SameRows(k[Session], d[Session]);
    assert k[Session][i].action in user;
  }

  /** A dumped keymap reads back without a problem exactly if it has no clash and nothing mandatory is unbound. */
  lemma DumpRefusedWhen(k: Table, d: Table, user: User)
    requires Sound(d) && SameTable(k, d) && IsDump(user, k) && SameTable(d, d)
    ensures Refused(d, d, user) == {} <==> NothingWrong(k)
  {
    DumpIsNotEmpty(k, d, user);
    DumpHasNoStrangers(k, d, user);
    forall c: Context ensures RefusedIn(d[c], d[c], user) == {} <==> ClashFree(k[c]) && Emptied(k[c]) == {} {
      RefusedInDump(k, d, user, c);
    }
    if !NothingWrong(k) {
      var c: Context :| RefusedIn(d[c], d[c], user) != {};
      var a :| a in RefusedIn(d[c], d[c], user);
      assert a in Refused(d, d, user);
    }
  }

  /** And then it reads back as itself. */
  lemma DumpReadsBack(k: Table, d: Table, user: User, c: Context)
    requires Sound(d) && SameTable(k, d) && IsDump(user, k) && SameTable(d, d)
    requires Refused(d, d, user) == {}
    ensures Applied(d, d, user)[c] == k[c]
  {
    DumpRefusedWhen(k, d, user);
    AppliedToDefaults(d, user, c);
    DumpOverlaid(k, d, user, c);
    NothingToDo(k[c], d[c]);
  }

  lemma NothingToDo(o: Rows, d: Rows)
    requires |o| == |d| && ClashFree(o) && Emptied(o) == {}
    ensures Rebound(Resolved(o, d), d) == o
  {
    assert forall i :: !InClash(o, i);
    assert Clashing(o) == {};
    assert Resolved(o, d) == o;
  }

  lemma DumpHasNoStrangers(k: Table, d: Table, user: User)
    requires Sound(d) && SameTable(k, d) && IsDump(user, k)
    ensures Strangers(d, user) == {}
  {
    forall a | a in user ensures Rebindable(d, a) {
      var c, i :| c in k && 0 <= i < |k[c]| && k[c][i].action == a && !k[c][i].doc;
      assert SameRows(k[c], d[c]);
      assert d[c][i].action == a && !d[c][i].doc;
    }
  }
}
