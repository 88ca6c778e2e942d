/**
 * The variables of Plan's loops, and the step each row of a listing takes them
 * through.
 */
module WalkState {
  import opened Paths
  import opened Files
  import opened Plans

  ghost function Targets(root: Path, queue: seq<string>): (ps: seq<Path>)
    ensures |ps| == |queue| && forall k | 0 <= k < |queue| :: ps[k] == At(root, queue[k])
  {
    seq(|queue|, k requires 0 <= k < |queue| => At(root, queue[k]))
  }

  lemma SpotsAppend(root: Path, items: seq<Item>, item: Item)
    ensures Spots(root, items + [item]) == Spots(root, items) + [SpotOf(root, item)]
  {
  }

  lemma TargetsAppend(root: Path, queue: seq<string>, rel: string)
    ensures Targets(root, queue + [rel]) == Targets(root, queue) + [At(root, rel)]
  {
  }

  /** A row of a listing names a child, and Plan's relative path resolves to it. */
  lemma EntryIsChild(t: Tree, root: Path, rel: string, e: Entry)
    requires WellFormed(t) && IsRow(t, At(root, rel), e)
    ensures ValidName(e.name)
    ensures At(root, ChildRel(rel, e.name)) == At(root, rel) + [e.name]
    ensures ChildOf(At(root, rel) + [e.name], At(root, rel))
    ensures Under(At(root, rel) + [e.name], root)
  {
    var p := At(root, rel) + [e.name];
    assert p in t && p != [] && p[|p| - 1] == e.name;
    assert Housed(t, p);
    SegmentsOfChild(rel, e.name);
    assert Under(At(root, rel), root);
  }

  /** The walk's variables. */
  datatype State = State(items: seq<Item>, queue: seq<string>, total: nat, skipped: nat)

  ghost predicate Walks(t: Tree, root: Path, s: State, seen: set<Path>, busy: set<Path>) {
    && Walking(t, root, Spots(root, s.items), Targets(root, s.queue), s.total, s.skipped, seen, busy)
    && forall d | d in busy :: d in seen && d in t && t[d].Dir? && d !in Targets(root, s.queue)
  }

  /** Nodes not seen yet, plus directories not listed yet. */
  ghost function Left(t: Tree, root: Path, queue: seq<string>, seen: set<Path>): nat {
    |Below(t, root) - seen| + |queue|
  }

  /** What one row of a listing adds. */
  function Visit(s: State, rel: string, e: Entry): State {
    var child := ChildRel(rel, e.name);
    if e.link then s.(skipped := s.skipped + 1)
    else if e.isDir then s.(items := s.items + [Item(child, 0, true)], queue := s.queue + [child])
    else s.(items := s.items + [Item(child, e.size, false)], total := s.total + e.size)
  }

  lemma VisitKeeps(t: Tree, root: Path, s: State, seen: set<Path>, rel: string, e: Entry)
    requires WellFormed(t) && Walks(t, root, s, seen, {At(root, rel)})
    requires IsRow(t, At(root, rel), e) && At(root, rel) + [e.name] !in seen
    ensures var s' := Visit(s, rel, e);
            var seen' := seen + {At(root, rel) + [e.name]};
            Walks(t, root, s', seen', {At(root, rel)}) && Left(t, root, s'.queue, seen') <= Left(t, root, s.queue, seen)
  {
    var dir, p, child := At(root, rel), At(root, rel) + [e.name], ChildRel(rel, e.name);
    assert dir in {dir};
    EntryIsChild(t, root, rel, e);
    var unseen := Below(t, root) - seen;
    assert p in unseen && unseen - {p} == Below(t, root) - (seen + {p});
    var spots, queue := Spots(root, s.items), Targets(root, s.queue);
    if e.link {
      WalkSkips(t, root, spots, queue, s.total, s.skipped, seen, dir, p);
    } else if e.isDir {
      WalkSeesDir(t, root, spots, queue, s.total, s.skipped, seen, dir, Spot(p, 0, true));
      SpotsAppend(root, s.items, Item(child, 0, true));
      TargetsAppend(root, s.queue, child);
    } else {
      WalkSeesFile(t, root, spots, queue, s.total, s.skipped, seen, dir, Spot(p, e.size, false));
      SpotsAppend(root, s.items, Item(child, e.size, false));
    }
  }

  lemma PopKeeps(t: Tree, root: Path, s: State, seen: set<Path>)
    requires Walks(t, root, s, seen, {}) && s.queue != []
    ensures var d := At(root, s.queue[0]);
            && Walks(t, root, s.(queue := s.queue[1..]), seen, {d})
            && forall p | p in t && ChildOf(p, d) :: p !in seen
  {
    WalkPops(t, root, Spots(root, s.items), Targets(root, s.queue), s.total, s.skipped, seen);
    assert Targets(root, s.queue)[1..] == Targets(root, s.queue[1..]);
  }

  /** A root that is no directory is alone. */
  lemma PlanOfLink(t: Tree, root: Path)
    requires WellFormed(t) && root in t && t[root].Link?
    ensures IsPlan(t, root, [], 0, 1)
  {
    LeafIsAlone(t, root);
    assert LinksIn(t, {root}) == {root};
  }

  lemma PlanOfFile(t: Tree, root: Path)
    requires WellFormed(t) && root in t && t[root].File?
    ensures IsPlan(t, root, [Item("", |t[root].data|, false)], |t[root].data|, 0)
  {
    LeafIsAlone(t, root);
    var items := [Item("", |t[root].data|, false)];
    assert At(root, "") == root;
    assert Spots(root, items)[0] == Spot(root, |t[root].data|, false);
    assert Spots(root, items)[..0] == [];
    assert LinksIn(t, {root}) == {};
  }

  /** Of the rows of dir's listing, exactly the first i have been seen. */
  ghost predicate SeenUpTo(dir: Path, entries: seq<Entry>, i: nat, seen: set<Path>) {
    forall j | 0 <= j < |entries| :: dir + [entries[j].name] in seen <==> j < i
  }

  lemma SeenOneMore(t: Tree, dir: Path, entries: seq<Entry>, i: nat, seen: set<Path>)
    requires Lists(t, dir, entries) && SeenUpTo(dir, entries, i, seen) && i < |entries|
    ensures SeenUpTo(dir, entries, i + 1, seen + {dir + [entries[i].name]})
  {
    forall j | 0 <= j < |entries| && j != i ensures dir + [entries[j].name] != dir + [entries[i].name] {
      assert (dir + [entries[j].name])[|dir|] == entries[j].name;
    }
  }

  lemma SeenNone(t: Tree, dir: Path, entries: seq<Entry>, seen: set<Path>)
    requires Lists(t, dir, entries)
    requires forall p | p in t && ChildOf(p, dir) :: p !in seen
    ensures SeenUpTo(dir, entries, 0, seen)
  {
    forall j | 0 <= j < |entries| ensures dir + [entries[j].name] !in seen {
      assert IsRow(t, dir, entries[j]);
      assert Parent(dir + [entries[j].name]) == dir;
    }
  }

  lemma WalkBegins(t: Tree, root: Path)
    requires root in t && t[root].Dir?
    ensures Walks(t, root, State([Item("", 0, true)], [""], 0, 0), {root}, {})
  {
    WalkStarts(t, root);
    assert At(root, "") == root;
    assert Spots(root, [Item("", 0, true)]) == [Spot(root, 0, true)];
    assert Targets(root, [""]) == [root];
  }

  /** Every row has been seen: dir is done with. */
  lemma ListingEnds(t: Tree, root: Path, s: State, seen: set<Path>, dir: Path, entries: seq<Entry>)
    requires Walks(t, root, s, seen, {dir}) && Lists(t, dir, entries)
    requires SeenUpTo(dir, entries, |entries|, seen)
    ensures Walks(t, root, s, seen, {})
  {
    forall p | p in t && ChildOf(p, dir) ensures p in seen {
      assert HasRow(dir, entries, p);
    }
    WalkClosesDirectory(t, root, Spots(root, s.items), Targets(root, s.queue), s.total, s.skipped, seen, dir);
  }

  lemma WalkFinishes(t: Tree, root: Path, s: State, seen: set<Path>)
    requires WellFormed(t) && Walks(t, root, s, seen, {}) && s.queue == []
    ensures IsPlan(t, root, s.items, s.total, s.skipped)
  {
    assert Targets(root, []) == [];
    WalkEnds(t, root, Spots(root, s.items), s.total, s.skipped, seen);
  }
}
