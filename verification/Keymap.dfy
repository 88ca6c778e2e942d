/** The keymap that keys.json is laid over (internal/ui/keymap.go). */
module Keymap {
  import opened Options
  import opened KeymapModel
  import opened KeymapSafety
  import opened KeymapStages

  class Keymap {
    const defaults: Table
    var bindings: Table
    var index: map<Context, map<Key, Action>>

    ghost predicate Shaped()
      reads this
    {
      Orderly(defaults) && SameTable(bindings, defaults)
    }

    ghost predicate Valid()
      reads this
    {
      Shaped() && forall c: Context :: c in index && IndexOf(index[c], bindings[c])
    }

    constructor (defaults: Table)
      requires Orderly(defaults)
      ensures Valid() && this.defaults == defaults && bindings == defaults
    {
      this.defaults, bindings, index := defaults, defaults, map[];
      new;
      Reindex();
    }

    method Reindex()
      requires Shaped()
      modifies this`index
      ensures Valid()
    {
      index := map[];
      var rest := bindings.Keys;
      while rest != {}
        invariant rest <= bindings.Keys
        invariant forall c | c in bindings.Keys - rest :: c in index && IndexOf(index[c], bindings[c])
        decreases rest
      {
        var c :| c in rest;
        var m := IndexRows(bindings[c]);
        index := index[c := m];
        rest := rest - {c};
      }
    }

    /** find, in either table: where an action stands. */
    method Find(t: Table, a: Action) returns (c: Context, i: int)
      requires SameTable(t, defaults)
      ensures i >= 0 ==> i < |t[c]| && t[c][i].action == a && forall j | 0 <= j < i :: t[c][j].action != a
      ensures i < 0 ==> forall c2: Context, j | 0 <= j < |t[c2]| :: t[c2][j].action != a
    {
      var n := 0;
      c := Global;
      while n < |ORDER|
        invariant 0 <= n <= |ORDER|
        invariant forall m, j | 0 <= m < n && 0 <= j < |t[ORDER[m]]| :: t[ORDER[m]][j].action != a
      {
        c := ORDER[n];
        i := RowOf(t[c], a);
        if i >= 0 {
          return;
        }
        n := n + 1;
      }
      i := -1;
      forall c2: Context, j | 0 <= j < |t[c2]| ensures t[c2][j].action != a {
        OrderHasAll(c2);
      }
    }

    /** defaultKeysFor. */
    method DefaultKeysFor(a: Action, c: Context, ghost i: int) returns (keys: seq<Key>)
      requires Orderly(defaults) && 0 <= i < |defaults[c]| && defaults[c][i].action == a
      ensures keys == defaults[c][i].keys
    {
      assert SameTable(defaults, defaults);
      var at, j := Find(defaults, a);
      assert OrderlyRows(c, defaults[c]) && OrderlyRows(at, defaults[at]);
      keys := if j < 0 then [] else defaults[at][j].keys;
    }

    method Set(c: Context, a: Action, keys: seq<Key>)
      requires Shaped() && forall i | 0 <= i < |bindings[c]| && bindings[c][i].action == a :: !bindings[c][i].doc
      modifies this`bindings
      ensures Shaped() && bindings == old(bindings)[c := WithKeys(old(bindings[c]), a, keys)]
    {
      assert OrderlyRows(c, defaults[c]) && SameRows(bindings[c], defaults[c]);
      ghost var was := bindings[c];
      var i := 0;
      while i < |bindings[c]|
        invariant 0 <= i <= |was| && bindings == old(bindings)
        invariant forall j | 0 <= j < i :: was[j].action != a
      {
        if bindings[c][i].action == a {
          bindings := bindings[c := bindings[c][i := bindings[c][i].(keys := keys)]];
          assert bindings[c] == WithKeys(was, a, keys) by {
            assert forall j | i < j < |was| :: was[j].action == defaults[c][j].action;
          }
          return;
        }
        i := i + 1;
      }
      assert WithKeys(was, a, keys) == was;
    }

    /** Both holders of every clashing key go back; the order the keys come in is anybody's. */
    method ResolveClashes(c: Context, user: User) returns (ps: seq<Problem>)
      requires Shaped()
      modifies this`bindings
      ensures Shaped()
      ensures bindings == old(bindings)[c := Resolved(old(bindings[c]), defaults[c])]
      ensures Reverting(old(bindings[c]), user, Clashing(old(bindings[c])), ps)
    {
      ghost var o, d := bindings[c], defaults[c];
      var seen := Tally(bindings[c]);
      var rest := seen.Keys;
      var reverted: set<Action> := {};
      ps := [];
      assert Reverted(o, d, {}) == o;
      while rest != {}
        invariant Shaped() && rest <= seen.Keys
        invariant bindings == old(bindings)[c := Reverted(o, d, reverted)]
        invariant Reverting(o, user, reverted, ps) && Covered(seen, seen.Keys - rest, reverted)
        decreases rest
      {
        var key :| key in rest;
        rest := rest - {key};
        if |seen[key]| >= 2 {
          HoldersClash(o, seen, key);
          ghost var before := reverted;
          reverted, ps := RevertHolders(c, key, seen[key], o, reverted, user, ps);
          SetAgain(old(bindings), c, Reverted(o, d, before), Reverted(o, d, reverted));
        }
      }
      ClashersAreCounted(o, seen, reverted);
    }

    /** The inner loop: everyone who holds the key, once. */
    method RevertHolders(
      c: Context, key: Key, acts: seq<Action>, ghost o: Rows, reverted0: set<Action>, user: User, ps0: seq<Problem>)
      returns (reverted: set<Action>, ps: seq<Problem>)
      requires Shaped() && SameRows(o, defaults[c]) && bindings[c] == Reverted(o, defaults[c], reverted0)
      requires Clash(o, key) && forall a | a in acts :: HeldBy(o, a, key)
      requires Reverting(o, user, reverted0, ps0)
      modifies this`bindings
      ensures Shaped() && bindings == old(bindings)[c := Reverted(o, defaults[c], reverted)]
      ensures Reverting(o, user, reverted, ps) && reverted0 <= reverted && AllBack(acts, |acts|, reverted)
    {
      reverted, ps := reverted0, ps0;
      var j := 0;
      while j < |acts|
        invariant 0 <= j <= |acts| && Shaped()
        invariant bindings == old(bindings)[c := Reverted(o, defaults[c], reverted)]
        invariant Reverting(o, user, reverted, ps) && reverted0 <= reverted
        invariant AllBack(acts, j, reverted)
      {
        var a := acts[j];
        OneMoreBack(acts, j, reverted);
        j := j + 1;
        if a in reverted {
          continue;
        }
        SetAgain(old(bindings), c, Reverted(o, defaults[c], reverted), Reverted(o, defaults[c], reverted + {a}));
        ps := RevertOne(c, a, key, o, reverted, user, ps);
        reverted := reverted + {a};
      }
    }

    method RevertOne(
      c: Context, a: Action, key: Key, ghost o: Rows, ghost reverted: set<Action>, user: User, ps0: seq<Problem>)
      returns (ps: seq<Problem>)
      requires Shaped() && SameRows(o, defaults[c]) && bindings[c] == Reverted(o, defaults[c], reverted)
      requires HeldBy(o, a, key) && Clash(o, key) && a !in reverted && Reverting(o, user, reverted, ps0)
      modifies this`bindings
      ensures Reverting(o, user, reverted + {a}, ps)
      ensures Shaped() && bindings == old(bindings)[c := Reverted(o, defaults[c], reverted + {a})]
    {
      OneMoreGoesBack(o, user, reverted, ps0, a, key);
      ghost var i :| HoldsKey(o, i, key) && o[i].action == a;
      ghost var d := defaults[c];
      var keys := DefaultKeysFor(a, c, i);
      TheOnlyRow(o, d, c, i);
      OneMoreReverted(o, d, reverted, a, keys);
      Set(c, a, keys);
      ps := if a in user then ps0 + [Problem(a, AlreadyUsed(key))] else ps0;
    }

    /** The first loop of Apply: what the user names is given the user's keys, unless it cannot be. */
    method LayOver(user: User) returns (touched: set<Context>, ps: seq<Problem>)
      requires Shaped()
      modifies this`bindings
      ensures Shaped() && bindings == Overlaid(old(bindings), user)
      ensures touched == TouchedBy(old(bindings), user)
      ensures Once(ps) && Who(ps) == Strangers(old(bindings), user)
      ensures forall p | p in ps :: TrueReason(old(bindings), user, p)
    {
      ghost var t, done: User := bindings, map[];
      var rest := user.Keys;
      touched, ps := {}, [];
      NothingOverlaid(t, done);
      while rest != {}
        invariant Shaped() && rest <= user.Keys && done == user - rest
        invariant bindings == Overlaid(t, done) && touched == TouchedBy(t, done)
        invariant Once(ps) && Who(ps) == Strangers(t, done)
        invariant forall p | p in ps :: TrueReason(t, user, p)
        decreases rest
      {
        var a :| a in rest;
        rest := rest - {a};
        touched, ps := LayOne(a, user, t, done, touched, ps);
        done := done[a := user[a]];
      }
      assert done == user;
    }

    method LayOne(a: Action, user: User, ghost t: Table, ghost done: User, touched0: set<Context>, ps0: seq<Problem>)
      returns (touched: set<Context>, ps: seq<Problem>)
      requires Shaped() && SameTable(t, defaults) && a in user && a !in done
      requires bindings == Overlaid(t, done) && touched0 == TouchedBy(t, done)
      requires Once(ps0) && Who(ps0) == Strangers(t, done) && forall p | p in ps0 :: TrueReason(t, user, p)
      modifies this`bindings
      ensures Shaped() && bindings == Overlaid(t, done[a := user[a]]) && touched == TouchedBy(t, done[a := user[a]])
      ensures Once(ps) && Who(ps) == Strangers(t, done[a := user[a]])
      ensures forall p | p in ps :: TrueReason(t, user, p)
    {
      touched, ps := touched0, ps0;
      var c, i := Find(bindings, a);
      FoundInEither(t, defaults, done, a, c, i);
      if i < 0 || bindings[c][i].doc {
        OneMoreStranger(t, done, a, user[a]);
        var p := Problem(a, if i < 0 then NoSuchAction else NotRebindable);
        OneMoreReport(ps, p);
        ps := ps + [p];
      } else {
        OneMoreOverlaid(t, defaults, done, a, user[a], c, i);
        OneMoreTouched(t, defaults, done, a, user[a], c, i);
        Set(c, a, user[a]);
        touched := touched + {c};
      }
    }

    /** The second loop of Apply: clashes, context by context, in any order. */
    method ResolveTouched(touched: set<Context>, user: User, ghost t: Table) returns (ps: seq<Problem>)
      requires Shaped() && SameTable(t, defaults) && bindings == Overlaid(t, user)
      modifies this`bindings
      ensures Shaped() && bindings == ResolvedIn(Overlaid(t, user), defaults, touched)
      ensures Once(ps) && Who(ps) == ClashersIn(t, user, touched)
      ensures forall p | p in ps :: TrueReason(t, user, p)
    {
      ghost var o := bindings;
      var rest := touched;
      ps := [];
      while rest != {}
        invariant Shaped() && rest <= touched && bindings == ResolvedIn(o, defaults, touched - rest)
        invariant Once(ps) && Who(ps) == ClashersIn(t, user, touched - rest)
        invariant forall p | p in ps :: TrueReason(t, user, p)
        decreases rest
      {
        var c :| c in rest;
        ghost var done := touched - rest;
        rest := rest - {c};
        assert touched - rest == done + {c};
        OneMoreResolved(o, defaults, done, c);
        OneMoreClashing(t, defaults, user, done, c);
        var more := ResolveClashes(c, user);
        ClashesAreTrue(t, user, c, more);
        TrueTogether(t, user, ps, more);
        MoreReports(ps, more);
        ps := ps + more;
      }
      assert touched - rest == touched;
    }

    method RequireBound(c: Context, a: Action) returns (ps: seq<Problem>)
      requires Shaped() && Mandatory(a) && a.context == c
      modifies this`bindings
      ensures Shaped() && bindings == old(bindings)[c := Rebound(old(bindings[c]), defaults[c])]
      ensures Who(ps) == Emptied(old(bindings[c])) && ps == if a in Emptied(old(bindings[c])) then [Problem(a, CannotBeUnbound)] else []
    {
      ghost var o, d := bindings[c], defaults[c];
      var i := RowOf(bindings[c], a);
      EmptiedAt(o, d, c, a, i);
      ps := [];
      if i < 0 || bindings[c][i].keys != [] {
        assert Rebound(o, d) == o;
        return;
      }
      var keys := DefaultKeysFor(a, c, i);
      TheOnlyRow(o, d, c, i);
      OneMoreReverted(o, d, {}, a, keys);
      assert Reverted(o, d, {}) == o && {} + {a} == Emptied(o);
      Set(c, a, keys);
      ps := [Problem(a, CannotBeUnbound)];
      OneMoreReport([], ps[0]);
    }

    /**
     * Lays the user's bindings over the present ones. What each row ends with,
     * who is refused and why does not depend on any order a map is read in.
     */
    method Apply(user: User) returns (ps: seq<Problem>)
      requires Valid()
      modifies this
      ensures Valid() && bindings == Applied(old(bindings), defaults, user)
      ensures Once(ps) && Who(ps) == Refused(old(bindings), defaults, user)
      ensures forall p | p in ps :: TrueReason(old(bindings), user, p)
    {
      if user == map[] {
        return [];
      }
      ps := Rebind(user);
      Reindex();
    }

    method Rebind(user: User) returns (ps: seq<Problem>)
      requires Shaped() && user != map[]
      modifies this`bindings
      ensures Shaped() && bindings == Applied(old(bindings), defaults, user)
      ensures Once(ps) && Who(ps) == Refused(old(bindings), defaults, user)
      ensures forall p | p in ps :: TrueReason(old(bindings), user, p)
    {
      ghost var t := bindings;
      var touched, ps1 := LayOver(user);
      var ps2 := ResolveTouched(touched, user, t);
      ghost var r := bindings;
      AllStages(t, defaults, user, r);
      var ps3 := RequireBound(Session, Action(Session, Escape));
      var ps4 := RequireBound(Global, Action(Global, ShowHelp));
      ReasonsJoined(t, user, r, ps1, ps2, ps3, ps4);
      ReportsJoined(t, defaults, user, r, ps1, ps2, ps3, ps4);
      ps := ps1 + ps2 + ps3 + ps4;
    }

    /** DumpJSON, as the map its text reads back to. */
    method Dump() returns (user: User)
      requires Shaped()
      ensures IsDump(user, bindings)
    {
      user := map[];
      var n := 0;
      while n < |ORDER|
        invariant 0 <= n <= |ORDER| && Dumped(user, bindings, ORDER[..n])
      {
        ghost var before := user;
        DumpsAreApart(bindings, defaults, ORDER[n]);
        user := DumpRows(user, bindings[ORDER[n]]);
        DumpedOneMore(before, user, bindings, defaults, ORDER[..n], ORDER[n]);
        OneLonger(ORDER, n);
        n := n + 1;
      }
      forall c: Context ensures c in ORDER {
        OrderHasAll(c);
      }
      assert ORDER[..n] == ORDER;
      DumpedAll(bindings, user, ORDER);
    }

    /** The action a key stands for in one context, if any; the last row that holds it. */
    function ActionFor(c: Context, key: Key): (a: Option<Action>)
      requires Valid()
      reads this
      ensures a == Lookup(bindings[c], key)
    {
      if key in index[c] then Some(index[c][key]) else None
    }
  }

  method Tally(r: Rows) returns (seen: map<Key, seq<Action>>)
    ensures TallyOf(seen, r)
  {
    seen := map[];
    var i := 0;
    while i < |r|
      invariant 0 <= i <= |r| && TallyOf(seen, r[..i])
    {
      assert r[..i + 1] == r[..i] + [r[i]];
      seen := TallyRow(seen, r[i], r[..i]);
      i := i + 1;
    }
    assert r[..i] == r;
  }

  method TallyRow(before: map<Key, seq<Action>>, b: Binding, ghost r: Rows) returns (seen: map<Key, seq<Action>>)
    requires TallyOf(before, r)
    ensures TallyOf(seen, r + [b])
  {
    seen := before;
    AddsNothing(r, b.(keys := []));
    if b.doc {
      AddsNothing(r, b);
      return;
    }
    var j := 0;
    while j < |b.keys|
      invariant 0 <= j <= |b.keys| && TallyOf(seen, r + [b.(keys := b.keys[..j])])
    {
      OneMoreKey(r, b, j);
      ghost var p, q := r + [b.(keys := b.keys[..j])], r + [b.(keys := b.keys[..j + 1])];
      CountsOneMore(seen, p, q, b.keys[j], b.action);
      HoldersOneMore(seen, p, q, b.keys[j], b.action);
      seen := Listed(seen, b.keys[j], b.action);
      j := j + 1;
    }
    assert b.(keys := b.keys[..j]) == b;
  }

  lemma OneLonger(s: seq<Context>, n: nat)
    requires n < |s|
    ensures s[..n] + [s[n]] == s[..n + 1]
  {
  }

  /** Adds one context's rows to what is printed. */
  method DumpRows(before: User, r: Rows) returns (user: User)
    requires Distinct(r)
    ensures forall a :: a in user <==> a in before || RebindableIn(r, a)
    ensures DumpsRows(user, r)
    ensures forall a | a in before && !RebindableIn(r, a) :: user[a] == before[a]
  {
    user := before;
    var i := 0;
    while i < |r|
      invariant 0 <= i <= |r|
      invariant forall a :: a in user <==> a in before || RebindableIn(r[..i], a)
      invariant DumpsRows(user, r[..i])
      invariant forall a | a in before && !RebindableIn(r[..i], a) :: user[a] == before[a]
    {
      OneMoreDumped(r, i);
      if !r[i].doc {
        user := user[r[i].action := r[i].keys];
      }
      i := i + 1;
    }
    assert r[..i] == r;
  }

  /** The first row for the action, or -1. */
  method RowOf(r: Rows, a: Action) returns (i: int)
    ensures i >= 0 ==> i < |r| && r[i].action == a && forall j | 0 <= j < i :: r[j].action != a
    ensures i < 0 ==> forall j | 0 <= j < |r| :: r[j].action != a
  {
    i := 0;
    while i < |r|
      invariant 0 <= i <= |r|
      invariant forall j | 0 <= j < i :: r[j].action != a
    {
      if r[i].action == a {
        return;
      }
      i := i + 1;
    }
    i := -1;
  }

  method IndexRows(r: Rows) returns (m: map<Key, Action>)
    ensures IndexOf(m, r)
  {
    m := map[];
    var i := 0;
    while i < |r|
      invariant 0 <= i <= |r|
      invariant forall key :: Lookup(r[..i], key) == if key in m then Some(m[key]) else None
    {
      ghost var before := m;
      var b := r[i];
      assert r[..i + 1][..i] == r[..i];
      i := i + 1;
      if b.doc {
        continue;
      }
      var j := 0;
      while j < |b.keys|
        invariant 0 <= j <= |b.keys|
        invariant forall key ::
                    if key in b.keys[..j] then key in m && m[key] == b.action
                    else (key in m <==> key in before) && (key in m ==> m[key] == before[key])
      {
        m := m[b.keys[j] := b.action];
        j := j + 1;
      }
      assert b.keys[..j] == b.keys;
    }
    assert r[..i] == r;
  }
}
