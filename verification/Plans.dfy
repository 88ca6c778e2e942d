/**
 * Planning a recursive copy: internal/sftp/tree.go's breadth-first walk, and
 * what its answer says about the tree it walked.
 */
module Plans {
  import opened Paths
  import opened Files

  datatype Item = Item(rel: string, size: nat, isDir: bool)

  /** An item with its relative path resolved against the root. */
  datatype Spot = Spot(path: Path, size: nat, isDir: bool)

  /** The node a relative path stands for. */
  function At(root: Path, rel: string): Path { root + Segments(rel) }

  function SpotOf(root: Path, item: Item): Spot { Spot(At(root, item.rel), item.size, item.isDir) }

  function Spots(root: Path, items: seq<Item>): (spots: seq<Spot>)
    ensures |spots| == |items|
    ensures forall i | 0 <= i < |items| :: spots[i] == SpotOf(root, items[i])
  {
    seq(|items|, i requires 0 <= i < |items| => SpotOf(root, items[i]))
  }

  function SumSizes(spots: seq<Spot>): nat {
    if spots == [] then 0 else SumSizes(spots[..|spots| - 1]) + spots[|spots| - 1].size
  }

  function LinksIn(t: Tree, s: set<Path>): set<Path> { set p | p in s && p in t && t[p].Link? }

  // ---------------------------------------------------------------- what a plan is

  predicate Describes(t: Tree, spot: Spot) {
    spot.path in t && match t[spot.path]
      case File(data) => !spot.isDir && spot.size == |data|
      case Dir => spot.isDir && spot.size == 0
      case Link(_, _) => false
  }

  ghost predicate HasSpot(spots: seq<Spot>, p: Path) {
    exists i :: 0 <= i < |spots| && spots[i].path == p
  }

  /** Spot i is the root, or comes after the directory it is in. */
  ghost predicate AfterParent(root: Path, spots: seq<Spot>, i: nat)
    requires i < |spots|
  {
    spots[i].path != root ==>
      spots[i].path != [] && exists j :: 0 <= j < i && spots[j].isDir && spots[j].path == Parent(spots[i].path)
  }

  /** The spots describe distinct nodes, each after its parent: those in seen that are not links. */
  ghost predicate Covers(t: Tree, root: Path, spots: seq<Spot>, seen: set<Path>) {
    && (forall i | 0 <= i < |spots| :: Describes(t, spots[i]) && spots[i].path in seen)
    && (forall i, j | 0 <= i < j < |spots| :: spots[i].path != spots[j].path)
    && (forall p | p in seen && p in t && !t[p].Link? :: HasSpot(spots, p))
    && (forall i | 0 <= i < |spots| :: AfterParent(root, spots, i))
  }

  /**
   * What a plan promises of the tree t it was made from: every node at or below
   * root that is not a link is listed exactly once, after its parent, with its
   * kind and size; links are only counted.
   */
  ghost predicate IsPlan(t: Tree, root: Path, items: seq<Item>, total: nat, skipped: nat) {
    && Covers(t, root, Spots(root, items), Below(t, root))
    && total == SumSizes(Spots(root, items))
    && skipped == |LinksIn(t, Below(t, root))|
  }

  // ---------------------------------------------------------------- the walk

  ghost predicate Listed(t: Tree, d: Path, seen: set<Path>) {
    forall p | p in t && ChildOf(p, d) :: p in seen
  }

  /**
   * The directories seen but not listed yet are the queued ones and those in
   * busy, which are being listed.
   */
  ghost predicate QueueOk(t: Tree, root: Path, queue: seq<Path>, seen: set<Path>, busy: set<Path>) {
    && (forall k | 0 <= k < |queue| :: queue[k] in seen && queue[k] in t && t[queue[k]].Dir? && queue[k] !in busy)
    && NoRepeats(queue)
    && (forall p | p in seen && p != root :: p != [] && Parent(p) in seen && Parent(p) !in queue)
    && ListedOrWaiting(t, queue, seen, busy)
  }

  predicate NoRepeats(queue: seq<Path>) {
    forall k, l | 0 <= k < l < |queue| :: queue[k] != queue[l]
  }

  ghost predicate ListedOrWaiting(t: Tree, queue: seq<Path>, seen: set<Path>, busy: set<Path>) {
    forall d | d in seen && d in t && t[d].Dir? && d !in busy && d !in queue :: Listed(t, d, seen)
  }

  ghost predicate Walking(
    t: Tree, root: Path, spots: seq<Spot>, queue: seq<Path>, total: nat, skipped: nat, seen: set<Path>, busy: set<Path>)
  {
    && root in seen && seen <= Below(t, root)
    && Covers(t, root, spots, seen)
    && QueueOk(t, root, queue, seen, busy)
    && total == SumSizes(spots)
    && skipped == |LinksIn(t, seen)|
  }

  lemma CoversMore(t: Tree, root: Path, spots: seq<Spot>, seen: set<Path>, spot: Spot)
    requires Covers(t, root, spots, seen) && Describes(t, spot) && spot.path !in seen
    requires spot.path != [] && Parent(spot.path) in seen && Parent(spot.path) in t && t[Parent(spot.path)].Dir?
    ensures Covers(t, root, spots + [spot], seen + {spot.path})
  {
    var more := spots + [spot];
    assert HasSpot(spots, Parent(spot.path));
    forall i | 0 <= i < |spots| ensures AfterParent(root, more, i) {
      assert AfterParent(root, spots, i);
      if spots[i].path != root {
        var j :| 0 <= j < i && spots[j].isDir && spots[j].path == Parent(spots[i].path);
        assert more[j] == spots[j];
      }
    }
    forall p | p in seen + {spot.path} && p in t && !t[p].Link? ensures HasSpot(more, p) {
      if p == spot.path {
        assert more[|spots|].path == p;
      } else {
        assert HasSpot(spots, p);
        var i :| 0 <= i < |spots| && spots[i].path == p;
        assert more[i].path == p;
      }
    }
  }

  lemma CoversLink(t: Tree, root: Path, spots: seq<Spot>, seen: set<Path>, p: Path)
    requires Covers(t, root, spots, seen) && p in t && t[p].Link?
    ensures Covers(t, root, spots, seen + {p})
  {
  }

  /** A file or link in the directory being listed joins the seen. */
  lemma QueueSame(t: Tree, root: Path, queue: seq<Path>, seen: set<Path>, dir: Path, p: Path)
    requires QueueOk(t, root, queue, seen, {dir}) && dir in seen
    requires p in t && ChildOf(p, dir) && p !in seen && dir !in queue && !t[p].Dir?
    ensures QueueOk(t, root, queue, seen + {p}, {dir})
  {
    forall d | d in seen && d in t && t[d].Dir? && d != dir && d !in queue ensures Listed(t, d, seen + {p}) {
      assert Listed(t, d, seen);
    }
  }

  /** A directory joins the queue too. */
  lemma QueueMore(t: Tree, root: Path, queue: seq<Path>, seen: set<Path>, dir: Path, p: Path)
    requires QueueOk(t, root, queue, seen, {dir}) && dir in seen && root in seen
    requires p in t && ChildOf(p, dir) && p !in seen && dir !in queue && t[p].Dir?
    ensures QueueOk(t, root, queue + [p], seen + {p}, {dir})
  {
    var more, seen' := queue + [p], seen + {p};
    forall x ensures x in more <==> x in queue || x == p {
    }
    assert ListedOrWaiting(t, more, seen', {dir}) by {
      forall d | d in seen' && d in t && t[d].Dir? && d != dir && d !in more ensures Listed(t, d, seen') {
        assert Listed(t, d, seen);
      }
    }
    assert NoRepeats(more);
  }

  lemma WalkSeesFile(
    t: Tree, root: Path, spots: seq<Spot>, queue: seq<Path>, total: nat, skipped: nat, seen: set<Path>, dir: Path, spot: Spot)
    requires Walking(t, root, spots, queue, total, skipped, seen, {dir})
    requires dir in seen && dir in t && t[dir].Dir? && dir !in queue
    requires Describes(t, spot) && ChildOf(spot.path, dir) && spot.path !in seen && !spot.isDir
    ensures Walking(t, root, spots + [spot], queue, total + spot.size, skipped, seen + {spot.path}, {dir})
  {
    CoversMore(t, root, spots, seen, spot);
    QueueSame(t, root, queue, seen, dir, spot.path);
    assert (spots + [spot])[..|spots|] == spots;
    assert LinksIn(t, seen + {spot.path}) == LinksIn(t, seen);
    assert Under(spot.path, root) by { assert Under(dir, root); }
  }

  lemma WalkSeesDir(
    t: Tree, root: Path, spots: seq<Spot>, queue: seq<Path>, total: nat, skipped: nat, seen: set<Path>, dir: Path, spot: Spot)
    requires Walking(t, root, spots, queue, total, skipped, seen, {dir})
    requires dir in seen && dir in t && t[dir].Dir? && dir !in queue
    requires Describes(t, spot) && ChildOf(spot.path, dir) && spot.path !in seen && spot.isDir
    ensures Walking(t, root, spots + [spot], queue + [spot.path], total, skipped, seen + {spot.path}, {dir})
  {
    CoversMore(t, root, spots, seen, spot);
    QueueMore(t, root, queue, seen, dir, spot.path);
    assert (spots + [spot])[..|spots|] == spots;
    assert LinksIn(t, seen + {spot.path}) == LinksIn(t, seen);
    assert Under(spot.path, root) by { assert Under(dir, root); }
  }

  lemma WalkSkips(
    t: Tree, root: Path, spots: seq<Spot>, queue: seq<Path>, total: nat, skipped: nat, seen: set<Path>, dir: Path, p: Path)
    requires Walking(t, root, spots, queue, total, skipped, seen, {dir})
    requires dir in seen && dir !in queue && p in t && t[p].Link? && ChildOf(p, dir) && p !in seen
    ensures Walking(t, root, spots, queue, total, skipped + 1, seen + {p}, {dir})
  {
    CoversLink(t, root, spots, seen, p);
    QueueSame(t, root, queue, seen, dir, p);
    assert LinksIn(t, seen + {p}) == LinksIn(t, seen) + {p};
    assert Under(p, root) by { assert Under(dir, root); }
  }

  lemma QueuePops(t: Tree, root: Path, queue: seq<Path>, seen: set<Path>)
    requires QueueOk(t, root, queue, seen, {}) && queue != []
    ensures QueueOk(t, root, queue[1..], seen, {queue[0]})
    ensures forall p | p in t && ChildOf(p, queue[0]) :: p in seen ==> p == root
  {
    var d, rest := queue[0], queue[1..];
    assert forall x :: x in queue <==> x == d || x in rest;
    assert NoRepeats(rest) && d !in rest by {
      assert forall k | 0 <= k < |rest| :: rest[k] == queue[k + 1];
    }
  }

  /** The next directory leaves the queue; none of its children has been seen. */
  lemma WalkPops(t: Tree, root: Path, spots: seq<Spot>, queue: seq<Path>, total: nat, skipped: nat, seen: set<Path>)
    requires Walking(t, root, spots, queue, total, skipped, seen, {}) && queue != []
    ensures Walking(t, root, spots, queue[1..], total, skipped, seen, {queue[0]})
    ensures queue[0] in seen && queue[0] in t && t[queue[0]].Dir? && queue[0] !in queue[1..]
    ensures forall p | p in t && ChildOf(p, queue[0]) :: p !in seen
  {
    var d, rest := queue[0], queue[1..];
    assert forall x :: x in queue <==> x == d || x in rest;
    assert Under(d, root);
    QueuePops(t, root, queue, seen);
  }

  lemma WalkClosesDirectory(
    t: Tree, root: Path, spots: seq<Spot>, queue: seq<Path>, total: nat, skipped: nat, seen: set<Path>, d: Path)
    requires Walking(t, root, spots, queue, total, skipped, seen, {d}) && Listed(t, d, seen)
    ensures Walking(t, root, spots, queue, total, skipped, seen, {})
  {
  }

  /** Once nothing is queued everything below the root has been seen. */
  lemma {:induction false} NothingLeft(t: Tree, root: Path, seen: set<Path>, p: Path)
    requires WellFormed(t) && QueueOk(t, root, [], seen, {}) && root in seen
    requires p in t && Under(p, root)
    ensures p in seen
    decreases |p|
  {
    if p != root {
      PrefixesExist(t, p, Parent(p));
      assert Under(Parent(p), root);
      NothingLeft(t, root, seen, Parent(p));
      assert Listed(t, Parent(p), seen);
      assert ChildOf(p, Parent(p));
    }
  }

  lemma WalkEnds(t: Tree, root: Path, spots: seq<Spot>, total: nat, skipped: nat, seen: set<Path>)
    requires WellFormed(t) && Walking(t, root, spots, [], total, skipped, seen, {})
    ensures seen == Below(t, root)
  {
    forall p | p in Below(t, root) ensures p in seen {
      NothingLeft(t, root, seen, p);
    }
  }

  lemma WalkStarts(t: Tree, root: Path)
    requires root in t && t[root].Dir?
    ensures Walking(t, root, [Spot(root, 0, true)], [root], 0, 0, {root}, {})
  {
    var spots := [Spot(root, 0, true)];
    assert spots[0].path == root;
    assert LinksIn(t, {root}) == {};
    assert spots[..0] == [];
  }
}
