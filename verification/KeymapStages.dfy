/** The steps Apply takes (internal/ui/keymap.go), and what each adds to what came before. */
module KeymapStages {
  import opened Options
  import opened KeymapModel
  import opened KeymapSafety

  /** The index answers with the last row that holds a key. */
  ghost predicate IndexOf(m: map<Key, Action>, r: Rows) {
    forall key :: Lookup(r, key) == if key in m then Some(m[key]) else None
  }

  function WithKeys(r: Rows, a: Action, keys: seq<Key>): (w: Rows)
    ensures |w| == |r|
  {
    seq(|r|, i requires 0 <= i < |r| => if r[i].action == a then r[i].(keys := keys) else r[i])
  }

  lemma SetAgain(t: Table, c: Context, x: Rows, y: Rows)
    ensures t[c := x][c := y] == t[c := y]
  {
  }

  lemma SetHere(r: Rows, done: User, a: Action, keys: seq<Key>)
    requires forall i | 0 <= i < |r| && r[i].action == a :: !r[i].doc
    ensures Overlay(r, done[a := keys]) == WithKeys(Overlay(r, done), a, keys)
  {
  }

  lemma SetElsewhere(r: Rows, done: User, a: Action, keys: seq<Key>)
    requires forall i | 0 <= i < |r| && r[i].action == a :: r[i].doc
    ensures Overlay(r, done[a := keys]) == Overlay(r, done)
  {
  }

  lemma OneMoreReverted(o: Rows, d: Rows, back: set<Action>, a: Action, keys: seq<Key>)
    requires |o| == |d| && forall i | 0 <= i < |o| && o[i].action == a :: d[i].keys == keys
    ensures Reverted(o, d, back + {a}) == WithKeys(Reverted(o, d, back), a, keys)
  {
  }

  const ORDER := [Global, Sidebar, Session, Tabs, Sftp, Form, Import, Sync, Confirm, Error, Unlock, Prompt, Help]

  lemma OrderHasAll(c: Context)
    ensures c in ORDER
  {
    assert ORDER[0] == Global && ORDER[1] == Sidebar && ORDER[2] == Session && ORDER[3] == Tabs && ORDER[4] == Sftp;
    assert ORDER[5] == Form && ORDER[6] == Import && ORDER[7] == Sync && ORDER[8] == Confirm && ORDER[9] == Error;
    assert ORDER[10] == Unlock && ORDER[11] == Prompt && ORDER[12] == Help;
  }

  /** Who holds which key, in order, as many times as it is listed. */
  ghost predicate TallyOf(seen: map<Key, seq<Action>>, r: Rows) { Counts(seen, r) && Holders(seen, r) }

  ghost predicate Counts(seen: map<Key, seq<Action>>, r: Rows) {
    forall key :: KeysOf(r)[key] == if key in seen then |seen[key]| else 0
  }

  ghost predicate Holders(seen: map<Key, seq<Action>>, r: Rows) {
    forall key, a :: HeldBy(r, a, key) <==> key in seen && a in seen[key]
  }

  /** Every holder of a clashing key among `keys` has gone back. */
  ghost predicate Covered(seen: map<Key, seq<Action>>, keys: set<Key>, back: set<Action>) {
    forall key, a | key in keys && key in seen && |seen[key]| >= 2 && a in seen[key] :: a in back
  }

  lemma HoldersClash(r: Rows, seen: map<Key, seq<Action>>, key: Key)
    requires TallyOf(seen, r) && key in seen && |seen[key]| >= 2
    ensures Clash(r, key) && forall a | a in seen[key] :: HeldBy(r, a, key)
  {
    CountedTwice(r, key);
  }

  /** o's row i is the only one for its action. */
  lemma TheOnlyRow(o: Rows, d: Rows, c: Context, i: int)
    requires OrderlyRows(c, d) && SameRows(o, d) && 0 <= i < |o| && !o[i].doc
    ensures forall k | 0 <= k < |o| && o[k].action == o[i].action :: !o[k].doc && d[k].keys == d[i].keys
  {
    forall k | 0 <= k < |o| && o[k].action == o[i].action ensures k == i {
      assert d[k].action == d[i].action;
    }
  }

  ghost predicate AllBack(acts: seq<Action>, j: int, back: set<Action>) {
    forall k | 0 <= k < j <= |acts| :: acts[k] in back
  }

  lemma OneMoreBack(acts: seq<Action>, j: int, back: set<Action>)
    requires 0 <= j < |acts| && AllBack(acts, j, back)
    ensures AllBack(acts, j + 1, back + {acts[j]})
  {
  }

  // ---------------------------------------------------------------- laying over

  function Overlaid(t: Table, done: User): Table { map c | c in t :: Overlay(t[c], done) }

  function TouchedBy(t: Table, done: User): set<Context> { set c | c in t && Touched(t[c], done) }

  lemma NothingOverlaid(t: Table, done: User)
    requires done == map[]
    ensures Overlaid(t, done) == t && TouchedBy(t, done) == {} && Strangers(t, done) == {}
  {
    forall c | c in t ensures Overlay(t[c], done) == t[c] {
    }
  }

  /** Overlaying moves no row, so what is found there is found in the table underneath. */
  lemma FoundInEither(t: Table, d: Table, done: User, a: Action, c: Context, i: int)
    requires SameTable(t, d) && Orderly(d)
    requires i >= 0 ==> i < |t[c]| && Overlaid(t, done)[c][i].action == a
    requires i < 0 ==> forall c2: Context, j | 0 <= j < |t[c2]| :: Overlaid(t, done)[c2][j].action != a
    ensures i < 0 ==> !Rebindable(t, a) && forall c2, j | c2 in t && 0 <= j < |t[c2]| :: t[c2][j].action != a
    ensures i >= 0 ==> t[c][i].action == a && t[c][i].doc == Overlaid(t, done)[c][i].doc
    ensures i >= 0 ==> (Rebindable(t, a) <==> !t[c][i].doc)
  {
    forall c2: Context, j | 0 <= j < |t[c2]| ensures Overlaid(t, done)[c2][j].action == t[c2][j].action {
    }
    if i >= 0 {
      TheOnlyPlace(t, d, c, i);
    }
  }

  lemma OneMoreStranger(t: Table, done: User, a: Action, keys: seq<Key>)
    requires a !in done && !Rebindable(t, a)
    ensures Overlaid(t, done[a := keys]) == Overlaid(t, done)
    ensures TouchedBy(t, done[a := keys]) == TouchedBy(t, done)
    ensures Strangers(t, done[a := keys]) == Strangers(t, done) + {a}
  {
    forall c | c in t ensures Overlay(t[c], done[a := keys]) == Overlay(t[c], done) {
      SetElsewhere(t[c], done, a, keys);
    }
    forall c | c in t ensures Touched(t[c], done[a := keys]) == Touched(t[c], done) {
    }
  }

  lemma TheOnlyPlace(t: Table, d: Table, c: Context, i: int)
    requires SameTable(t, d) && Orderly(d) && 0 <= i < |t[c]|
    ensures forall c2, j | c2 in t && 0 <= j < |t[c2]| && t[c2][j].action == t[c][i].action :: c2 == c && j == i
  {
    forall c2, j | c2 in t && 0 <= j < |t[c2]| && t[c2][j].action == t[c][i].action ensures c2 == c && j == i {
      assert OrderlyRows(c, d[c]) && OrderlyRows(c2, d[c2]) && SameRows(t[c], d[c]) && SameRows(t[c2], d[c2]);
      assert d[c2][j].action == d[c][i].action;
    }
  }

  lemma OneMoreOverlaid(t: Table, d: Table, done: User, a: Action, keys: seq<Key>, c: Context, i: int)
    requires SameTable(t, d) && Orderly(d) && 0 <= i < |t[c]| && t[c][i].action == a && !t[c][i].doc
    ensures Overlaid(t, done[a := keys]) == Overlaid(t, done)[c := WithKeys(Overlaid(t, done)[c], a, keys)]
    ensures forall k | 0 <= k < |t[c]| && Overlaid(t, done)[c][k].action == a :: !Overlaid(t, done)[c][k].doc
  {
    TheOnlyPlace(t, d, c, i);
    OverlaidApart(t, done, a, keys, c);
  }

  lemma OverlaidApart(t: Table, done: User, a: Action, keys: seq<Key>, c: Context)
    requires c in t && forall k | 0 <= k < |t[c]| && t[c][k].action == a :: !t[c][k].doc
    requires forall c2, k | c2 in t && 0 <= k < |t[c2]| && t[c2][k].action == a :: c2 == c
    ensures Overlaid(t, done[a := keys]) == Overlaid(t, done)[c := WithKeys(Overlaid(t, done)[c], a, keys)]
  {
    SetHere(t[c], done, a, keys);
    forall c2 | c2 in t && c2 != c ensures Overlay(t[c2], done[a := keys]) == Overlay(t[c2], done) {
      SetElsewhere(t[c2], done, a, keys);
    }
  }

  lemma OneMoreTouched(t: Table, d: Table, done: User, a: Action, keys: seq<Key>, c: Context, i: int)
    requires SameTable(t, d) && Orderly(d) && 0 <= i < |t[c]| && t[c][i].action == a && !t[c][i].doc
    ensures TouchedBy(t, done[a := keys]) == TouchedBy(t, done) + {c}
    ensures Strangers(t, done[a := keys]) == Strangers(t, done)
  {
    TheOnlyPlace(t, d, c, i);
    assert Rebindable(t, a);
    assert Touched(t[c], done[a := keys]);
    forall c2 | c2 in t && c2 != c ensures Touched(t[c2], done[a := keys]) == Touched(t[c2], done) {
    }
  }

  // ---------------------------------------------------------------- the later stages

  ghost function ResolvedIn(o: Table, d: Table, touched: set<Context>): Table
    requires SameTable(o, d)
  {
    map c: Context :: if c in touched then Resolved(o[c], d[c]) else o[c]
  }

  ghost function ClashersIn(t: Table, user: User, touched: set<Context>): set<Action>
    requires forall c: Context :: c in t
  {
    set c: Context, a | c in touched && a in Clashers(t[c], user) :: a
  }

  lemma OneMoreResolved(o: Table, d: Table, done: set<Context>, c: Context)
    requires SameTable(o, d)
    ensures ResolvedIn(o, d, done + {c}) == ResolvedIn(o, d, done)[c := Resolved(o[c], d[c])]
  {
  }

  lemma OneMoreClashing(t: Table, d: Table, user: User, done: set<Context>, c: Context)
    requires SameTable(t, d) && Orderly(d) && c !in done
    ensures ClashersIn(t, user, done + {c}) == ClashersIn(t, user, done) + Clashers(t[c], user)
    ensures ClashersIn(t, user, done) !! Clashers(t[c], user)
  {
    forall c2: Context, a | a in Clashers(t[c2], user) ensures a.Action? && a.context == c2 {
      ClasherIsNamed(t[c2], d[c2], user, c2, a);
    }
  }

  lemma ClashesAreTrue(t: Table, user: User, c: Context, ps: seq<Problem>)
    requires c in t && Reverting(Overlay(t[c], user), user, Clashing(Overlay(t[c], user)), ps)
    ensures Once(ps) && Who(ps) == Clashers(t[c], user)
    ensures forall p | p in ps :: TrueReason(t, user, p)
  {
  }

  lemma ClasherIsNamed(r: Rows, d: Rows, user: User, c: Context, a: Action)
    requires SameRows(r, d) && OrderlyRows(c, d) && a in Clashers(r, user)
    ensures a.Action? && a.context == c && a in user
    ensures exists i :: 0 <= i < |r| && r[i].action == a && !r[i].doc
  {
    var i :| 0 <= i < |r| && Overlay(r, user)[i].action == a && InClash(Overlay(r, user), i);
    assert d[i].action == a && r[i].action == a && !r[i].doc;
  }

  /** In its context a mandatory action is the only one. */
  lemma OnlyMandatory(o: Rows, d: Rows, c: Context, a: Action)
    requires SameRows(o, d) && OrderlyRows(c, d) && Mandatory(a) && a.context == c
    ensures forall i | 0 <= i < |o| && Mandatory(o[i].action) :: o[i].action == a && !o[i].doc && d[i].keys != []
    ensures Emptied(o) <= {a}
  {
    forall i | 0 <= i < |o| && Mandatory(o[i].action) ensures o[i].action == a && !o[i].doc && d[i].keys != [] {
      assert d[i].action == o[i].action;
    }
  }

  lemma EmptiedAt(o: Rows, d: Rows, c: Context, a: Action, i: int)
    requires SameRows(o, d) && OrderlyRows(c, d) && Mandatory(a) && a.context == c
    requires i >= 0 ==> i < |o| && o[i].action == a
    requires i < 0 ==> forall j | 0 <= j < |o| :: o[j].action != a
    ensures Emptied(o) == if i >= 0 && o[i].keys == [] then {a} else {}
    ensures i >= 0 ==> !o[i].doc
  {
    OnlyMandatory(o, d, c, a);
    forall k | 0 <= k < |o| && o[k].action == a ensures k == i {
      assert d[k].action == a;
    }
  }

  lemma StagesAt(r: Rows, d: Rows, user: User, c: Context)
    requires SameRows(r, d) && OrderlyRows(c, d)
    ensures var o := if Touched(r, user) then Resolved(Overlay(r, user), d) else Overlay(r, user);
            AppliedRows(r, d, user) == Rebound(o, d) && LeftEmpty(r, d, user) == Emptied(o)
            && (c != Session && c != Global ==> Emptied(o) == {} && Rebound(o, d) == o)
  {
    var o := if Touched(r, user) then Resolved(Overlay(r, user), d) else Overlay(r, user);
    if !Touched(r, user) {
      assert Overlay(r, user) == r;
    }
    assert SameRows(Overlay(r, user), d);
    forall i | 0 <= i < |o| ensures o[i] == d[i].(keys := o[i].keys) {
      assert Overlay(r, user)[i] == d[i].(keys := Overlay(r, user)[i].keys);
    }
    if c != Session && c != Global {
      forall i | 0 <= i < |o| ensures !Mandatory(o[i].action) {
        assert d[i].action == o[i].action;
      }
    }
  }

  lemma SameEverywhere(x: Table, y: Table)
    requires forall c: Context :: c in x && c in y && x[c] == y[c]
    ensures x == y
  {
  }

  lemma AllStagesAt(t: Table, d: Table, user: User, r: Table, c: Context)
    requires SameTable(t, d) && Orderly(d) && user != map[]
    requires SameTable(Overlaid(t, user), d) && r == ResolvedIn(Overlaid(t, user), d, TouchedBy(t, user))
    ensures c in Applied(t, d, user)
    ensures r[Session := Rebound(r[Session], d[Session])][Global := Rebound(r[Global], d[Global])][c] == Applied(t, d, user)[c]
  {
    StagesAt(t[c], d[c], user, c);
  }

  lemma AllStages(t: Table, d: Table, user: User, r: Table)
    requires SameTable(t, d) && Orderly(d) && user != map[]
    requires SameTable(Overlaid(t, user), d) && r == ResolvedIn(Overlaid(t, user), d, TouchedBy(t, user))
    ensures r[Session := Rebound(r[Session], d[Session])][Global := Rebound(r[Global], d[Global])] == Applied(t, d, user)
  {
    var end := r[Session := Rebound(r[Session], d[Session])][Global := Rebound(r[Global], d[Global])];
    forall c: Context ensures c in Applied(t, d, user) && c in end && end[c] == Applied(t, d, user)[c] {
      AllStagesAt(t, d, user, r, c);
    }
    SameEverywhere(end, Applied(t, d, user));
  }

  /** RefusedIn, context by context, out of what the stages report. */
  ghost predicate Split(t: Table, d: Table, user: User, r: Table)
    requires SameTable(t, d)
  {
    forall c: Context ::
      && c in r
      && RefusedIn(t[c], d[c], user) == (if c in TouchedBy(t, user) then Clashers(t[c], user) else {}) + Emptied(r[c])
      && (c != Session && c != Global ==> Emptied(r[c]) == {})
  }

  lemma SplitHolds(t: Table, d: Table, user: User, r: Table)
    requires SameTable(t, d) && Orderly(d)
    requires SameTable(Overlaid(t, user), d) && r == ResolvedIn(Overlaid(t, user), d, TouchedBy(t, user))
    ensures Split(t, d, user, r)
  {
    forall c: Context
      ensures RefusedIn(t[c], d[c], user) == (if c in TouchedBy(t, user) then Clashers(t[c], user) else {}) + Emptied(r[c])
      ensures c != Session && c != Global ==> Emptied(r[c]) == {}
    {
      StagesAt(t[c], d[c], user, c);
    }
  }

  lemma RefusedSplits(t: Table, d: Table, user: User, r: Table)
    requires SameTable(t, d) && Split(t, d, user, r)
    ensures ClashersIn(t, user, TouchedBy(t, user)) + Emptied(r[Session]) + Emptied(r[Global]) == RefusedSomewhere(t, d, user)
  {
    Unions(map c: Context :: RefusedIn(t[c], d[c], user), map c: Context :: Clashers(t[c], user), map c: Context :: Emptied(r[c]),
           TouchedBy(t, user), RefusedSomewhere(t, d, user), ClashersIn(t, user, TouchedBy(t, user)));
  }

  lemma Unions(refused: map<Context, set<Action>>, clashers: map<Context, set<Action>>, empty: map<Context, set<Action>>,
               touched: set<Context>, all: set<Action>, some: set<Action>)
    requires forall c: Context :: c in refused && c in clashers && c in empty
    requires forall c: Context :: refused[c] == (if c in touched then clashers[c] else {}) + empty[c]
    requires forall c: Context | c != Session && c != Global :: empty[c] == {}
    requires forall a :: a in all <==> exists c: Context :: a in refused[c]
    requires forall a :: a in some <==> exists c: Context :: c in touched && a in clashers[c]
    ensures some + empty[Session] + empty[Global] == all
  {
    assert empty[Session] <= refused[Session] && empty[Global] <= refused[Global];
    forall a | a in some ensures a in all {
      var c: Context :| c in touched && a in clashers[c];
      assert a in refused[c];
    }
  }

  lemma StagesApart(t: Table, d: Table, user: User, r: Table)
    requires SameTable(t, d) && Orderly(d)
    requires SameTable(Overlaid(t, user), d) && r == ResolvedIn(Overlaid(t, user), d, TouchedBy(t, user))
    ensures Strangers(t, user) !! ClashersIn(t, user, TouchedBy(t, user))
    ensures forall a | a in Emptied(r[Session]) + Emptied(r[Global]) :: a !in Strangers(t, user)
    ensures forall a | a in Emptied(r[Session]) + Emptied(r[Global]) :: a !in ClashersIn(t, user, TouchedBy(t, user))
    ensures Emptied(r[Session]) !! Emptied(r[Global])
  {
    ClashersAreNoStrangers(t, d, user);
    forall a | a in Emptied(r[Session]) ensures a.Action? && a.context == Session && Rebindable(t, a) {
      EmptiedIsNoClasher(t[Session], d[Session], user, Session, a);
    }
    forall a | a in Emptied(r[Global]) ensures a.Action? && a.context == Global && Rebindable(t, a) {
      EmptiedIsNoClasher(t[Global], d[Global], user, Global, a);
    }
    forall a | a in Emptied(r[Session]) ensures Session in TouchedBy(t, user) ==> a !in Clashers(t[Session], user) {
      EmptiedIsNoClasher(t[Session], d[Session], user, Session, a);
    }
    forall a | a in Emptied(r[Global]) ensures Global in TouchedBy(t, user) ==> a !in Clashers(t[Global], user) {
      EmptiedIsNoClasher(t[Global], d[Global], user, Global, a);
    }
  }

  lemma ClashersAreNoStrangers(t: Table, d: Table, user: User)
    requires SameTable(t, d) && Orderly(d)
    ensures forall c: Context, a | a in Clashers(t[c], user) :: a.Action? && a.context == c && a !in Strangers(t, user)
  {
    forall c: Context, a | a in Clashers(t[c], user) ensures a.Action? && a.context == c && Rebindable(t, a) {
      ClasherIsNamed(t[c], d[c], user, c, a);
    }
  }

  lemma EmptiedIsNoClasher(r: Rows, d: Rows, user: User, c: Context, a: Action)
    requires SameRows(r, d) && OrderlyRows(c, d)
    requires a in Emptied(if Touched(r, user) then Resolved(Overlay(r, user), d) else Overlay(r, user))
    ensures a.Action? && a.context == c && (exists i :: 0 <= i < |r| && r[i].action == a && !r[i].doc)
    ensures Touched(r, user) ==> a !in Clashers(r, user)
  {
    var o := if Touched(r, user) then Resolved(Overlay(r, user), d) else Overlay(r, user);
    var i :| 0 <= i < |o| && o[i].action == a && Mandatory(a) && o[i].keys == [];
    assert d[i].action == a && r[i].action == a;
  }

  lemma TrueTogether(t: Table, user: User, ps: seq<Problem>, qs: seq<Problem>)
    requires (forall p | p in ps :: TrueReason(t, user, p)) && (forall p | p in qs :: TrueReason(t, user, p))
    ensures forall p | p in ps + qs :: TrueReason(t, user, p)
  {
    forall p | p in ps + qs ensures TrueReason(t, user, p) {
      assert p in ps || p in qs;
    }
  }

  /** The reports of the three stages, put together. */
  lemma FourReports(ps1: seq<Problem>, ps2: seq<Problem>, ps3: seq<Problem>, ps4: seq<Problem>)
    requires Once(ps1) && Once(ps2) && Once(ps3) && Once(ps4)
    requires Who(ps1) !! Who(ps2) && Who(ps1) + Who(ps2) !! Who(ps3) && Who(ps1) + Who(ps2) + Who(ps3) !! Who(ps4)
    ensures Once(ps1 + ps2 + ps3 + ps4) && Who(ps1 + ps2 + ps3 + ps4) == Who(ps1) + Who(ps2) + Who(ps3) + Who(ps4)
  {
    MoreReports(ps1, ps2);
    MoreReports(ps1 + ps2, ps3);
    MoreReports(ps1 + ps2 + ps3, ps4);
  }

  lemma ReportsJoined(t: Table, d: Table, user: User, r: Table,
                      ps1: seq<Problem>, ps2: seq<Problem>, ps3: seq<Problem>, ps4: seq<Problem>)
    requires SameTable(t, d) && Orderly(d) && user != map[]
    requires SameTable(Overlaid(t, user), d) && r == ResolvedIn(Overlaid(t, user), d, TouchedBy(t, user))
    requires Once(ps1) && Once(ps2) && Once(ps3) && Once(ps4)
    requires Who(ps1) == Strangers(t, user) && Who(ps2) == ClashersIn(t, user, TouchedBy(t, user))
    requires Who(ps3) == Emptied(r[Session]) && Who(ps4) == Emptied(r[Global])
    ensures Once(ps1 + ps2 + ps3 + ps4) && Who(ps1 + ps2 + ps3 + ps4) == Refused(t, d, user)
  {
    StagesApart(t, d, user, r);
    SplitHolds(t, d, user, r);
    RefusedSplits(t, d, user, r);
    FourReports(ps1, ps2, ps3, ps4);
  }

  lemma ReasonsJoined(t: Table, user: User, r: Table,
                      ps1: seq<Problem>, ps2: seq<Problem>, ps3: seq<Problem>, ps4: seq<Problem>)
    requires Session in r && Global in r
    requires forall p | p in ps1 :: TrueReason(t, user, p)
    requires forall p | p in ps2 :: TrueReason(t, user, p)
    requires var a := Action(Session, Escape); ps3 == if a in Emptied(r[Session]) then [Problem(a, CannotBeUnbound)] else []
    requires var a := Action(Global, ShowHelp); ps4 == if a in Emptied(r[Global]) then [Problem(a, CannotBeUnbound)] else []
    ensures Once(ps3) && Once(ps4)
    ensures forall p | p in ps1 + ps2 + ps3 + ps4 :: TrueReason(t, user, p)
  {
    TrueTogether(t, user, ps1, ps2);
    TrueTogether(t, user, ps1 + ps2, ps3);
    TrueTogether(t, user, ps1 + ps2 + ps3, ps4);
  }

  lemma ClashersAreCounted(o: Rows, seen: map<Key, seq<Action>>, reverted: set<Action>)
    requires TallyOf(seen, o) && reverted <= Clashing(o)
    requires Covered(seen, seen.Keys, reverted)
    ensures reverted == Clashing(o)
  {
    forall a | a in Clashing(o) ensures a in reverted {
      var i :| 0 <= i < |o| && o[i].action == a && InClash(o, i);
      var key :| HoldsKey(o, i, key) && Clash(o, key);
      CountedTwice(o, key);
      assert HeldBy(o, a, key);
    }
  }

  lemma HeldByOneMore(r: Rows, b: Binding, a: Action, key: Key)
    ensures HeldBy(r + [b], a, key) <==> HeldBy(r, a, key) || (!b.doc && key in b.keys && b.action == a)
  {
    var q := r + [b];
    if i :| HoldsKey(r, i, key) && r[i].action == a {
      assert HoldsKey(q, i, key) && q[i].action == a;
    }
    if !b.doc && key in b.keys && b.action == a {
      assert HoldsKey(q, |r|, key) && q[|r|].action == a;
    }
    if i :| HoldsKey(q, i, key) && q[i].action == a && i < |r| {
      assert HoldsKey(r, i, key) && r[i].action == a;
    }
  }

  lemma AddsNothing(r: Rows, b: Binding)
    requires b.doc || b.keys == []
    ensures KeysOf(r + [b]) == KeysOf(r)
    ensures forall a, key :: HeldBy(r + [b], a, key) <==> HeldBy(r, a, key)
  {
    assert (r + [b])[..|r|] == r;
    forall a, key ensures HeldBy(r + [b], a, key) <==> HeldBy(r, a, key) {
      HeldByOneMore(r, b, a, key);
    }
  }

  lemma OneMoreKey(r: Rows, b: Binding, j: nat)
    requires !b.doc && j < |b.keys|
    ensures var p, q := r + [b.(keys := b.keys[..j])], r + [b.(keys := b.keys[..j + 1])];
            && KeysOf(q) == KeysOf(p) + multiset{b.keys[j]}
            && forall a, key :: HeldBy(q, a, key) <==> HeldBy(p, a, key) || (key == b.keys[j] && a == b.action)
  {
    var x, y := b.(keys := b.keys[..j]), b.(keys := b.keys[..j + 1]);
    assert (r + [x])[..|r|] == r && (r + [y])[..|r|] == r;
    assert b.keys[..j + 1] == b.keys[..j] + [b.keys[j]];
    forall a, key ensures HeldBy(r + [y], a, key) <==> HeldBy(r + [x], a, key) || (key == b.keys[j] && a == b.action) {
      HeldByOneMore(r, x, a, key);
      HeldByOneMore(r, y, a, key);
    }
  }

  /** seen after one more holder of the key. */
  function Listed(seen: map<Key, seq<Action>>, key: Key, a: Action): map<Key, seq<Action>> {
    seen[key := (if key in seen then seen[key] else []) + [a]]
  }

  lemma CountsOneMore(seen: map<Key, seq<Action>>, r: Rows, q: Rows, key: Key, a: Action)
    requires Counts(seen, r) && KeysOf(q) == KeysOf(r) + multiset{key}
    ensures Counts(Listed(seen, key, a), q)
  {
    var now := Listed(seen, key, a);
    forall k ensures KeysOf(q)[k] == if k in now then |now[k]| else 0 {
      assert KeysOf(q)[k] == KeysOf(r)[k] + if k == key then 1 else 0;
    }
  }

  lemma HoldersOneMore(seen: map<Key, seq<Action>>, r: Rows, q: Rows, key: Key, a: Action)
    requires Holders(seen, r)
    requires forall b, k :: HeldBy(q, b, k) <==> HeldBy(r, b, k) || (k == key && b == a)
    ensures Holders(Listed(seen, key, a), q)
  {
    var now := Listed(seen, key, a);
    forall k, b ensures HeldBy(q, b, k) <==> k in now && b in now[k] {
      assert HeldBy(r, b, k) <==> k in seen && b in seen[k];
    }
  }

  // ---------------------------------------------------------------- dumping

  predicate RebindableIn(r: Rows, a: Action) { exists i :: 0 <= i < |r| && r[i].action == a && !r[i].doc }

  predicate DumpsRows(user: User, r: Rows) {
    forall i | 0 <= i < |r| && !r[i].doc :: r[i].action in user && user[r[i].action] == r[i].keys
  }

  lemma OneMoreDumped(r: Rows, i: int)
    requires Distinct(r) && 0 <= i < |r|
    ensures r[..i + 1] == r[..i] + [r[i]]
    ensures !RebindableIn(r[..i], r[i].action)
    ensures forall a :: RebindableIn(r[..i + 1], a) <==> RebindableIn(r[..i], a) || (a == r[i].action && !r[i].doc)
  {
    var p, q := r[..i], r[..i + 1];
    forall a ensures RebindableIn(q, a) <==> RebindableIn(p, a) || (a == r[i].action && !r[i].doc) {
      if k :| 0 <= k < |p| && p[k].action == a && !p[k].doc {
        assert q[k].action == a && !q[k].doc;
      }
      assert a == r[i].action && !r[i].doc ==> q[i].action == a;
      if k :| 0 <= k < |q| && q[k].action == a && !q[k].doc && k < i {
        assert p[k].action == a;
      }
    }
  }

  /** Rows of another context name no action of c's; rows of c are c's. */
  lemma DumpsAreApart(t: Table, d: Table, c: Context)
    requires SameTable(t, d) && Orderly(d)
    ensures Distinct(t[c])
    ensures forall c2: Context, i | 0 <= i < |t[c2]| && RebindableIn(t[c], t[c2][i].action) :: c2 == c
  {
    assert OrderlyRows(c, d[c]) && SameRows(t[c], d[c]);
    forall c2: Context, i | 0 <= i < |t[c2]| && RebindableIn(t[c], t[c2][i].action) ensures c2 == c {
      assert OrderlyRows(c2, d[c2]) && SameRows(t[c2], d[c2]);
      var k :| 0 <= k < |t[c]| && t[c][k].action == t[c2][i].action;
      assert d[c][k].action == d[c2][i].action;
    }
  }

  /** The rows of these contexts, and no others, are printed. */
  ghost predicate Dumped(user: User, t: Table, order: seq<Context>)
    requires forall c: Context :: c in t
  {
    && (forall a :: a in user <==> exists c | c in order :: RebindableIn(t[c], a))
    && (forall c | c in order :: DumpsRows(user, t[c]))
  }

  lemma DumpedOneMore(before: User, user: User, t: Table, d: Table, done: seq<Context>, c: Context)
    requires SameTable(t, d) && Orderly(d) && Dumped(before, t, done)
    requires forall a :: a in user <==> a in before || RebindableIn(t[c], a)
    requires DumpsRows(user, t[c])
    requires forall a | a in before && !RebindableIn(t[c], a) :: user[a] == before[a]
    ensures Dumped(user, t, done + [c])
  {
    DumpsAreApart(t, d, c);
    forall c2 | c2 in done + [c] ensures DumpsRows(user, t[c2]) {
      if c2 != c {
        DumpStays(before, user, t[c2], t[c]);
      }
    }
    NamedIn(before, user, t, done, c);
  }

  lemma DumpStays(before: User, user: User, r: Rows, added: Rows)
    requires DumpsRows(before, r) && forall i | 0 <= i < |r| :: !RebindableIn(added, r[i].action)
    requires forall a | a in before && !RebindableIn(added, a) :: a in user && user[a] == before[a]
    ensures DumpsRows(user, r)
  {
  }

  lemma NamedIn(before: User, user: User, t: Table, done: seq<Context>, c: Context)
    requires forall c: Context :: c in t
    requires forall a :: a in user <==> a in before || RebindableIn(t[c], a)
    requires forall a :: a in before <==> exists c2 | c2 in done :: RebindableIn(t[c2], a)
    ensures forall a :: a in user <==> exists c2 | c2 in done + [c] :: RebindableIn(t[c2], a)
  {
    forall a ensures a in user <==> exists c2 | c2 in done + [c] :: RebindableIn(t[c2], a) {
      assert c in done + [c];
      assert forall c2 | c2 in done :: c2 in done + [c];
    }
  }

  lemma DumpedAll(t: Table, user: User, order: seq<Context>)
    requires forall c: Context :: c in t && c in order
    requires Dumped(user, t, order)
    ensures IsDump(user, t)
  {
    forall a ensures a in user <==> Rebindable(t, a) {
      if c, i :| c in t && 0 <= i < |t[c]| && t[c][i].action == a && !t[c][i].doc {
        assert RebindableIn(t[c], a);
      }
    }
    forall c, i | c in t && 0 <= i < |t[c]| && !t[c][i].doc
      ensures t[c][i].action in user && user[t[c][i].action] == t[c][i].keys
    {
      assert DumpsRows(user, t[c]);
    }
  }
}
