/**
 * The two halves together: carrying out a plan makes the destination mirror
 * the tree it was made from, links excepted.
 */
module CopyTree {
  import opened Options
  import opened Basics
  import opened Paths
  import opened Files
  import opened Plans
  import opened Copies
  import opened Halts
  import opened Transfer

  /** The node a copy of t[root] to dstRoot should put at q, if any. */
  predicate Wanted(t: Tree, root: Path, dstRoot: Path, q: Path) {
    if Under(q, dstRoot) then
      var s := root + q[|dstRoot|..];
      s in t && !t[s].Link?
    else root in t && t[root].Dir? && Under(dstRoot, q)
  }

  function WantedNode(t: Tree, root: Path, dstRoot: Path, q: Path): Node
    requires Wanted(t, root, dstRoot, q)
  {
    if Under(q, dstRoot) then t[root + q[|dstRoot|..]] else Dir
  }

  /**
   * after is before with the tree below t[root] laid over it at dstRoot: its
   * directories and files, no links, and, for a directory, the way to dstRoot.
   */
  ghost predicate Mirrors(before: Tree, after: Tree, t: Tree, root: Path, dstRoot: Path) {
    && (forall q :: q in after <==> q in before || Wanted(t, root, dstRoot, q))
    && (forall q | q in after ::
          after[q] == if Wanted(t, root, dstRoot, q) then WantedNode(t, root, dstRoot, q) else before[q])
  }

  /** Every node of m is a wanted one. */
  ghost predicate Agrees(m: Tree, t: Tree, root: Path, dstRoot: Path) {
    forall q | q in m :: Wanted(t, root, dstRoot, q) && m[q] == WantedNode(t, root, dstRoot, q)
  }

  lemma PlacedAgrees(t: Tree, root: Path, dstRoot: Path, item: Item)
    requires WellFormed(t) && Describes(t, SpotOf(root, item))
    ensures Agrees(Placed(t, root, dstRoot, item), t, root, dstRoot)
    ensures At(dstRoot, item.rel) in Placed(t, root, dstRoot, item)
  {
    var m, segs := Placed(t, root, dstRoot, item), Segments(item.rel);
    forall q | q in m ensures Wanted(t, root, dstRoot, q) && m[q] == WantedNode(t, root, dstRoot, q) {
      if item.isDir {
        if Under(q, dstRoot) {
          var s := root + q[|dstRoot|..];
          assert Under(root + segs, s);
          PrefixesExist(t, root + segs, s);
        } else {
          assert Under(root + segs, root);
          PrefixesExist(t, root + segs, root);
          PrefixOfBoth(dstRoot, segs, q);
        }
      } else {
        assert q == dstRoot + segs && q[|dstRoot|..] == segs;
      }
    }
  }

  lemma PrefixOfBoth(a: Path, b: Path, q: Path)
    requires Under(a + b, q) && !Under(q, a)
    ensures Under(a, q)
  {
  }

  lemma {:induction false} LandedAgrees(t: Tree, root: Path, dstRoot: Path, items: seq<Item>)
    requires WellFormed(t) && forall i | 0 <= i < |items| :: Describes(t, SpotOf(root, items[i]))
    ensures Agrees(Landed(t, root, dstRoot, items), t, root, dstRoot)
    ensures forall i | 0 <= i < |items| :: At(dstRoot, items[i].rel) in Landed(t, root, dstRoot, items)
  {
    if items != [] {
      var n := |items| - 1;
      LandedAgrees(t, root, dstRoot, items[..n]);
      PlacedAgrees(t, root, dstRoot, items[n]);
      forall i | 0 <= i < |items| ensures At(dstRoot, items[i].rel) in Landed(t, root, dstRoot, items) {
        if i < n {
          assert items[..n][i] == items[i];
        }
      }
    }
  }

  /** A directory in the plan brings the way to dstRoot with it. */
  lemma {:induction false} WayLands(t: Tree, root: Path, dstRoot: Path, items: seq<Item>, i: nat, q: Path)
    requires i < |items| && items[i].isDir && Under(dstRoot, q)
    ensures q in Landed(t, root, dstRoot, items)
  {
    var n := |items| - 1;
    if i == n {
      assert Under(At(dstRoot, items[i].rel), q);
    } else {
      assert items[..n][i] == items[i];
      WayLands(t, root, dstRoot, items[..n], i, q);
    }
  }

  /** Every item of a plan describes a node. */
  lemma PlanDescribes(t: Tree, root: Path, items: seq<Item>, total: nat, skipped: nat)
    requires IsPlan(t, root, items, total, skipped)
    ensures forall i | 0 <= i < |items| :: Describes(t, SpotOf(root, items[i])) && Under(At(root, items[i].rel), root)
  {
    forall i | 0 <= i < |items| ensures Describes(t, SpotOf(root, items[i])) && Under(At(root, items[i].rel), root) {
      assert Describes(t, Spots(root, items)[i]);
    }
  }

  /** The whole plan lands on every wanted place. */
  lemma WantedLands(t: Tree, root: Path, dstRoot: Path, items: seq<Item>, total: nat, skipped: nat, q: Path)
    requires WellFormed(t) && root in t && IsPlan(t, root, items, total, skipped) && Wanted(t, root, dstRoot, q)
    ensures q in Landed(t, root, dstRoot, items)
  {
    PlanDescribes(t, root, items, total, skipped);
    LandedAgrees(t, root, dstRoot, items);
    var s := if Under(q, dstRoot) then root + q[|dstRoot|..] else root;
    assert Under(s, root) && s in Below(t, root);
    assert HasSpot(Spots(root, items), s);
    var i :| 0 <= i < |items| && Spots(root, items)[i].path == s;
    if Under(q, dstRoot) {
      assert Segments(items[i].rel) == s[|root|..] == q[|dstRoot|..];
      assert At(dstRoot, items[i].rel) == q;
    } else {
      assert items[i].isDir;
      WayLands(t, root, dstRoot, items, i, q);
    }
  }

  /** Carrying out a plan in full mirrors its tree. */
  lemma PlanMirrors(before: Tree, t: Tree, root: Path, dstRoot: Path, items: seq<Item>, total: nat, skipped: nat)
    requires WellFormed(t) && root in t && IsPlan(t, root, items, total, skipped)
    ensures Mirrors(before, before + Landed(t, root, dstRoot, items), t, root, dstRoot)
  {
    PlanDescribes(t, root, items, total, skipped);
    LandedAgrees(t, root, dstRoot, items);
    forall q | Wanted(t, root, dstRoot, q) ensures q in Landed(t, root, dstRoot, items) {
      WantedLands(t, root, dstRoot, items, total, skipped, q);
    }
  }

  // ---------------------------------------------------------------- nothing is in its own way

  /**
   * What is already on the destination is of the kind the copy wants there,
   * and a single file has a directory to go to.
   */
  ghost predicate Compatible(before: Tree, t: Tree, root: Path, dstRoot: Path) {
    && (forall q | q in before && Wanted(t, root, dstRoot, q) ::
          if WantedNode(t, root, dstRoot, q).Dir? then before[q].Dir? else before[q].File?)
    && (root in t && t[root].File? ==> dstRoot != [] && Parent(dstRoot) in before && before[Parent(dstRoot)].Dir?)
  }

  /** After any number of items, a wanted place holds the wanted kind of node or nothing. */
  lemma ArrivedKinds(before: Tree, t: Tree, root: Path, dstRoot: Path, items: seq<Item>, k: nat, q: Path)
    requires WellFormed(t) && Compatible(before, t, root, dstRoot) && k <= |items|
    requires forall i | 0 <= i < |items| :: Describes(t, SpotOf(root, items[i]))
    requires Wanted(t, root, dstRoot, q)
    ensures var m := Arrived(before, t, root, dstRoot, items, k);
            q in m ==> (m[q].Dir? <==> WantedNode(t, root, dstRoot, q).Dir?) && !m[q].Link?
    ensures var m := Arrived(before, t, root, dstRoot, items, k);
            (forall i | 0 <= i < k :: At(dstRoot, items[i].rel) in m)
  {
    LandedAgrees(t, root, dstRoot, items[..k]);
    var landed := Landed(t, root, dstRoot, items[..k]);
    assert q in landed ==> landed[q] == WantedNode(t, root, dstRoot, q);
    forall i | 0 <= i < k ensures At(dstRoot, items[i].rel) in landed {
      assert items[..k][i] == items[i];
    }
  }

  /** A single file's directory was there before, and stays one. */
  lemma RootParentArrived(before: Tree, t: Tree, root: Path, dstRoot: Path, items: seq<Item>, k: nat)
    requires WellFormed(t) && root in t && t[root].File? && Compatible(before, t, root, dstRoot) && k <= |items|
    requires forall i | 0 <= i < |items| :: Describes(t, SpotOf(root, items[i]))
    ensures var m := Arrived(before, t, root, dstRoot, items, k);
            dstRoot != [] && Parent(dstRoot) in m && m[Parent(dstRoot)].Dir?
  {
    LandedAgrees(t, root, dstRoot, items[..k]) by {
      assert forall i | 0 <= i < k :: items[..k][i] == items[i];
    }
    assert !Wanted(t, root, dstRoot, Parent(dstRoot));
  }

  /** The directory an item's copy goes into has arrived before it. */
  lemma ParentArrived(
    before: Tree, t: Tree, root: Path, dstRoot: Path, items: seq<Item>, total: nat, skipped: nat, k: nat)
    requires WellFormed(t) && root in t && IsPlan(t, root, items, total, skipped) && Compatible(before, t, root, dstRoot)
    requires k < |items| && !items[k].isDir
    ensures var to, m := At(dstRoot, items[k].rel), Arrived(before, t, root, dstRoot, items, k);
            to != [] && Parent(to) in m && m[Parent(to)].Dir?
  {
    PlanDescribes(t, root, items, total, skipped);
    var segs := Segments(items[k].rel);
    if segs == [] {
      assert At(root, items[k].rel) == root && At(dstRoot, items[k].rel) == dstRoot;
      RootParentArrived(before, t, root, dstRoot, items, k);
    } else {
      var spots := Spots(root, items);
      assert AfterParent(root, spots, k);
      var j :| 0 <= j < k && spots[j].isDir && spots[j].path == Parent(spots[k].path);
      assert Parent(root + segs) == root + Parent(segs) && Parent(dstRoot + segs) == dstRoot + Parent(segs);
      assert Segments(items[j].rel) == At(root, items[j].rel)[|root|..] == Parent(segs);
      var q := At(dstRoot, items[j].rel);
      PlacedAgrees(t, root, dstRoot, items[j]);
      ArrivedKinds(before, t, root, dstRoot, items, k, q);
      assert q[|dstRoot|..] == Parent(segs) && WantedNode(t, root, dstRoot, q).Dir?;
    }
  }

  /** Carrying out a plan never finds something of its own, or of a compatible destination, in the way. */
  lemma NothingInTheWay(
    before: Tree, t: Tree, root: Path, dstRoot: Path, items: seq<Item>, total: nat, skipped: nat, k: nat)
    requires WellFormed(t) && root in t && IsPlan(t, root, items, total, skipped) && Compatible(before, t, root, dstRoot)
    requires k < |items|
    ensures !Obstructed(Arrived(before, t, root, dstRoot, items, k), At(dstRoot, items[k].rel), items[k].isDir)
  {
    PlanDescribes(t, root, items, total, skipped);
    var m, to := Arrived(before, t, root, dstRoot, items, k), At(dstRoot, items[k].rel);
    PlacedAgrees(t, root, dstRoot, items[k]);
    if items[k].isDir {
      forall q | Under(to, q) && q in m ensures m[q] == Dir {
        assert q in Placed(t, root, dstRoot, items[k]);
        ArrivedKinds(before, t, root, dstRoot, items, k, q);
      }
    } else {
      ParentArrived(before, t, root, dstRoot, items, total, skipped, k);
      ArrivedKinds(before, t, root, dstRoot, items, k, to);
      assert to[|dstRoot|..] == Segments(items[k].rel);
    }
  }

  // ---------------------------------------------------------------- counting

  ghost function PathsOf(spots: seq<Spot>): set<Path> { set i | 0 <= i < |spots| :: spots[i].path }

  lemma {:induction false} DistinctPaths(spots: seq<Spot>)
    requires forall i, j | 0 <= i < j < |spots| :: spots[i].path != spots[j].path
    ensures |PathsOf(spots)| == |spots|
  {
    if spots == [] {
      assert PathsOf(spots) == {};
    } else {
      var n := |spots| - 1;
      DistinctPaths(spots[..n]);
      assert PathsOf(spots) == PathsOf(spots[..n]) + {spots[n].path};
    }
  }

  /** A plan accounts for every node once: listed, or counted as skipped. */
  lemma PlanCountsEveryNode(t: Tree, root: Path, items: seq<Item>, total: nat, skipped: nat)
    requires IsPlan(t, root, items, total, skipped)
    ensures |items| + skipped == |Below(t, root)|
  {
    var spots := Spots(root, items);
    DistinctPaths(spots);
    var links := LinksIn(t, Below(t, root));
    forall p | p in Below(t, root) - links ensures p in PathsOf(spots) {
      assert HasSpot(spots, p);
      var i :| 0 <= i < |spots| && spots[i].path == p;
    }
    forall p | p in PathsOf(spots) ensures p in Below(t, root) - links {
      var i :| 0 <= i < |spots| && spots[i].path == p;
      assert Describes(t, spots[i]);
    }
    assert PathsOf(spots) == Below(t, root) - links;
  }

  function FilePaths(spots: seq<Spot>): set<Path> {
    if spots == [] then {}
    else FilePaths(spots[..|spots| - 1]) + if spots[|spots| - 1].isDir then {} else {spots[|spots| - 1].path}
  }

  lemma {:induction false} FilePathsAre(spots: seq<Spot>, p: Path)
    ensures p in FilePaths(spots) <==> exists i :: 0 <= i < |spots| && !spots[i].isDir && spots[i].path == p
  {
    if spots != [] {
      var n := |spots| - 1;
      FilePathsAre(spots[..n], p);
      if i :| 0 <= i < |spots| && !spots[i].isDir && spots[i].path == p {
        assert i < n ==> spots[..n][i] == spots[i];
      }
    }
  }

  function FileSpots(spots: seq<Spot>): nat {
    if spots == [] then 0 else FileSpots(spots[..|spots| - 1]) + if spots[|spots| - 1].isDir then 0 else 1
  }

  lemma {:induction false} DistinctFiles(spots: seq<Spot>)
    requires forall i, j | 0 <= i < j < |spots| :: spots[i].path != spots[j].path
    ensures |FilePaths(spots)| == FileSpots(spots)
  {
    if spots != [] {
      var n := |spots| - 1;
      DistinctFiles(spots[..n]);
      FilePathsAre(spots[..n], spots[n].path);
    }
  }

  lemma {:induction false} FilesAreFileSpots(root: Path, items: seq<Item>)
    ensures FilesIn(items) == FileSpots(Spots(root, items))
  {
    if items != [] {
      var n := |items| - 1;
      FilesAreFileSpots(root, items[..n]);
      assert Spots(root, items)[..n] == Spots(root, items[..n]);
    }
  }

  function FilesBelow(t: Tree, root: Path): set<Path> { set p | p in t && Under(p, root) && t[p].File? }

  lemma PlanCountsFiles(t: Tree, root: Path, items: seq<Item>, total: nat, skipped: nat)
    requires IsPlan(t, root, items, total, skipped)
    ensures FilesIn(items) == |FilesBelow(t, root)|
  {
    var spots := Spots(root, items);
    DistinctFiles(spots);
    FilesAreFileSpots(root, items);
    forall p ensures p in FilesBelow(t, root) <==> p in FilePaths(spots) {
      FilePathsAre(spots, p);
      if p in FilesBelow(t, root) {
        assert p in Below(t, root);
        assert HasSpot(spots, p);
        var i :| 0 <= i < |spots| && spots[i].path == p;
        assert Describes(t, spots[i]);
      }
      if i :| 0 <= i < |spots| && !spots[i].isDir && spots[i].path == p {
        assert Describes(t, spots[i]) && spots[i].path in Below(t, root);
      }
    }
    assert FilePaths(spots) == FilesBelow(t, root);
  }

  /** The planned total is the number of bytes the files hold. */
  lemma {:induction false} SizesAreBytes(t: Tree, root: Path, items: seq<Item>)
    requires forall i | 0 <= i < |items| :: Describes(t, SpotOf(root, items[i]))
    ensures BytesOf(t, root, items) == SumSizes(Spots(root, items))
  {
    if items != [] {
      var n := |items| - 1;
      SizesAreBytes(t, root, items[..n]);
      assert Spots(root, items)[..n] == Spots(root, items[..n]);
    }
  }

  lemma {:induction false} NodesHaveValidPaths(t: Tree, p: Path)
    requires WellFormed(t) && p in t
    ensures ValidPath(p)
    decreases |p|
  {
    if p != [] {
      assert Housed(t, p);
      NodesHaveValidPaths(t, Parent(p));
    }
  }

  lemma TargetsAreValid(t: Tree, root: Path, dstRoot: Path, items: seq<Item>)
    requires WellFormed(t) && ValidPath(dstRoot) && forall i | 0 <= i < |items| :: Describes(t, SpotOf(root, items[i]))
    ensures forall i | 0 <= i < |items| :: ValidPath(At(dstRoot, items[i].rel))
  {
    forall i | 0 <= i < |items| ensures ValidPath(At(dstRoot, items[i].rel)) {
      var segs := Segments(items[i].rel);
      NodesHaveValidPaths(t, root + segs);
      forall j | 0 <= j < |segs| ensures ValidName(segs[j]) {
        assert (root + segs)[|root| + j] == segs[j];
      }
    }
  }

  // ---------------------------------------------------------------- links on the destination

  /** Where the copy puts something, and on the way there, the destination has no link. */
  ghost predicate NoLinkInTheWay(before: Tree, t: Tree, root: Path, dstRoot: Path) {
    forall q | Wanted(t, root, dstRoot, q) :: Clear(before, q)
  }

  /** What is on the way to a wanted place is wanted too, but for what is above a single file. */
  lemma WayIsWanted(t: Tree, root: Path, dstRoot: Path, q: Path, r: Path)
    requires WellFormed(t) && root in t && Wanted(t, root, dstRoot, q) && Under(q, r)
    ensures Wanted(t, root, dstRoot, r) || (t[root].File? && q == dstRoot && r != q)
  {
    if Under(r, dstRoot) {
      var s := root + q[|dstRoot|..];
      assert Under(s, root + r[|dstRoot|..]);
      PrefixesExist(t, s, root + r[|dstRoot|..]);
    } else if Under(q, dstRoot) {
      PrefixOfBoth(dstRoot, q[|dstRoot|..], r);
      assert dstRoot + q[|dstRoot|..] == q;
      var s := root + q[|dstRoot|..];
      PrefixesExist(t, s, root);
      assert q != dstRoot ==> s != root;
    }
  }

  /** A plan's items go to wanted places. */
  lemma ItemsAreClear(before: Tree, t: Tree, root: Path, dstRoot: Path, items: seq<Item>, total: nat, skipped: nat)
    requires WellFormed(t) && IsPlan(t, root, items, total, skipped) && NoLinkInTheWay(before, t, root, dstRoot)
    ensures AllClear(before, dstRoot, items)
  {
    PlanDescribes(t, root, items, total, skipped);
    forall i | 0 <= i < |items| ensures Clear(before, At(dstRoot, items[i].rel)) {
      PlacedAgrees(t, root, dstRoot, items[i]);
    }
  }

  /** A destination of matching kinds has none. */
  lemma CompatibleIsClear(before: Tree, t: Tree, root: Path, dstRoot: Path)
    requires WellFormed(before) && WellFormed(t) && root in t && Compatible(before, t, root, dstRoot)
    ensures NoLinkInTheWay(before, t, root, dstRoot)
  {
    forall q, r | Wanted(t, root, dstRoot, q) && r in before && Under(q, r) ensures !before[r].Link? {
      WayIsWanted(t, root, dstRoot, q, r);
      if !Wanted(t, root, dstRoot, r) {
        assert Under(Parent(dstRoot), r);
        PrefixesExist(before, Parent(dstRoot), r);
      }
    }
  }

  /** Links being kept, a mirror can only come of a destination without any in the way. */
  lemma LinksSpoilMirrors(before: Tree, after: Tree, t: Tree, root: Path, dstRoot: Path)
    requires WellFormed(t) && root in t && WellFormed(after) && LinksStay(before, after)
    requires Mirrors(before, after, t, root, dstRoot)
    ensures NoLinkInTheWay(before, t, root, dstRoot)
  {
    forall q, r | Wanted(t, root, dstRoot, q) && r in before && Under(q, r) ensures !before[r].Link? {
      WayIsWanted(t, root, dstRoot, q, r);
      if !Wanted(t, root, dstRoot, r) {
        PrefixesExist(after, dstRoot, r);
      }
    }
  }

  /** A plan that has run in full mirrors its tree exactly if no link was in the way. */
  lemma RanMirrorsWhen(before: Tree, t: Tree, root: Path, dstRoot: Path, items: seq<Item>, total: nat, skipped: nat)
    requires WellFormed(before) && WellFormed(t) && root in t && ValidPath(dstRoot)
    requires IsPlan(t, root, items, total, skipped) && Ran(before, t, root, dstRoot, items).Some?
    ensures Mirrors(before, Ran(before, t, root, dstRoot, items).value, t, root, dstRoot) <==>
            NoLinkInTheWay(before, t, root, dstRoot)
  {
    PlanDescribes(t, root, items, total, skipped);
    TargetsAreValid(t, root, dstRoot, items);
    RanKeepsForm(before, t, root, dstRoot, items);
    assert items[..|items|] == items;
    if NoLinkInTheWay(before, t, root, dstRoot) {
      ItemsAreClear(before, t, root, dstRoot, items, total, skipped);
      RanWhenClear(before, t, root, dstRoot, items, |items|);
      PlanMirrors(before, t, root, dstRoot, items, total, skipped);
    } else if Mirrors(before, Ran(before, t, root, dstRoot, items).value, t, root, dstRoot) {
      LinksSpoilMirrors(before, Ran(before, t, root, dstRoot, items).value, t, root, dstRoot);
    }
  }

  /** docs on the destination is a link to elsewhere; docs, with one file in it, is copied over it. */
  lemma ALinkIsFollowed(docs: string, elsewhere: string, f: string, data: seq<byte>)
    requires ValidName(docs) && ValidName(elsewhere) && ValidName(f) && docs != elsewhere
    ensures var before: Tree := map[[] := Dir, [docs] := Link(true, [elsewhere]), [elsewhere] := Dir];
            var t: Tree := map[[] := Dir, [docs] := Dir, [docs, f] := File(data)];
            var items := [Item("", 0, true), Item(f, |data|, false)];
            var after := WithFile(before, [elsewhere, f], data);
            && Ran(before, t, [docs], [docs], items) == Some(after)
            && !Mirrors(before, after, t, [docs], [docs])
  {
    var before: Tree := map[[] := Dir, [docs] := Link(true, [elsewhere]), [elsewhere] := Dir];
    var t: Tree := map[[] := Dir, [docs] := Dir, [docs, f] := File(data)];
    var items := [Item("", 0, true), Item(f, |data|, false)];
    var after := WithFile(before, [elsewhere, f], data);
    SegmentsOfChild("", f);
    assert [docs] + Segments("") == [docs] && [docs] + Segments(f) == [docs, f];
    FollowsTo(before, docs, elsewhere, f);
    assert items[..1] == [items[0]] && items[..1][..0] == [];
    assert Ran(before, t, [docs], [docs], items[..1]) == Some(before);
    assert Lands(before, t, [docs], [docs], items[1]) == Some(after);
    assert Wanted(t, [docs], [docs], [docs]) && after[[docs]].Link?;
  }

  lemma FollowsTo(t: Tree, docs: string, elsewhere: string, f: string)
    requires [docs] in t && t[[docs]] == Link(true, [elsewhere]) && [elsewhere] in t && t[[elsewhere]] == Dir && [elsewhere, f] !in t
    ensures Follow(t, [docs]) == Some([elsewhere]) && Follow(t, [docs, f]) == Some([elsewhere, f])
  {
    assert Parent([docs]) == [] && Parent([elsewhere]) == [] && Parent([docs, f]) == [docs];
    assert [] + [docs] == [docs] && [] + [elsewhere] == [elsewhere] && [elsewhere] + [f] == [elsewhere, f];
    assert Follow(t, [], MAX_LINKS - 1) == Some([]);
    assert Follow(t, [elsewhere], MAX_LINKS - 1) == Some([elsewhere]);
  }

  /** A copy broken off over a link takes the link away and leaves what it led to cut short. */
  lemma ABrokenCopyCutsTheTarget(src: Tree, from: Path, l: string, o: string, was: seq<byte>, n: nat, now: Tree)
    requires ValidName(l) && ValidName(o) && l != o
    requires var t: Tree := map[[] := Dir, [l] := Link(false, [o]), [o] := File(was)]; Broken(src, from, t, [l], n, now)
    ensures now == map[[] := Dir, [o] := File(src[from].data[..n])]
  {
    var t: Tree := map[[] := Dir, [l] := Link(false, [o]), [o] := File(was)];
    assert Parent([l]) == [] && Parent([o]) == [] && [] + [l] == [l] && [] + [o] == [o];
    assert Follow(t, [], MAX_LINKS - 1) == Some([]);
    assert Follow(t, [o], MAX_LINKS - 1) == Some([o]);
    assert Follow(t, [l]) == Some([o]);
    var cut := WithFile(t, [o], src[from].data[..n]);
    assert Follow(cut, []) == Some([]);
    assert now == cut - {[l]};
  }

  /** after differs from before in wanted places only, and there by what is wanted or by nothing. */
  ghost predicate Within(before: Tree, after: Tree, t: Tree, root: Path, dstRoot: Path) {
    && (forall q | !Wanted(t, root, dstRoot, q) :: (q in after <==> q in before) && (q in before ==> after[q] == before[q]))
    && (forall q | q in after && Wanted(t, root, dstRoot, q) ::
          after[q] == WantedNode(t, root, dstRoot, q) || (q in before && after[q] == before[q]))
  }

  /** However far a plan has run, without links in the way it has kept to its own places. */
  lemma StoppedWithin(before: Tree, now: Tree, t: Tree, root: Path, dstRoot: Path, items: seq<Item>, total: nat, skipped: nat, k: nat, bytes: nat)
    requires WellFormed(before) && WellFormed(t) && root in t && ValidPath(dstRoot) && k <= |items|
    requires IsPlan(t, root, items, total, skipped) && NoLinkInTheWay(before, t, root, dstRoot)
    requires Stopped(before, now, t, root, dstRoot, items, k, bytes)
    ensures Within(before, now, t, root, dstRoot)
  {
    PlanDescribes(t, root, items, total, skipped);
    TargetsAreValid(t, root, dstRoot, items);
    ItemsAreClear(before, t, root, dstRoot, items, total, skipped);
    StoppedWhenClear(before, now, t, root, dstRoot, items, k, bytes);
    LandedAgrees(t, root, dstRoot, items[..k]);
    if k < |items| {
      PlacedAgrees(t, root, dstRoot, items[k]);
    }
  }

  /**
   * A confirmed transfer of one entry: plan it, then carry the plan out. In
   * full, it counts exactly, and mirrors the tree if and only if no link on the
   * destination was in the way; with matching kinds it can only stop for a
   * fault of the network or the disk, or because it was cancelled.
   */
  method CopyOver(src: FileSystem, root: Path, dst: FileSystem, dstRoot: Path, p: Progress?)
    returns (res: Result, total: nat, fault: Fault)
    requires src != dst && src.Valid() && dst.Valid() && ValidPath(dstRoot)
    modifies dst, p
    ensures dst.Valid() && src.nodes == old(src.nodes)
    ensures fault == Ok ==>
              && root in src.nodes
              && (Mirrors(old(dst.nodes), dst.nodes, src.nodes, root, dstRoot) <==>
                  NoLinkInTheWay(old(dst.nodes), src.nodes, root, dstRoot))
    ensures fault == Ok ==>
              && res.files == |FilesBelow(src.nodes, root)| && res.bytes == total
              && res.skipped == |LinksIn(src.nodes, Below(src.nodes, root))|
    ensures NoLinkInTheWay(old(dst.nodes), src.nodes, root, dstRoot) ==>
              Within(old(dst.nodes), dst.nodes, src.nodes, root, dstRoot)
    ensures p != null ==> p.done == old(p.done) + res.bytes
    ensures fault == Missing ==> root !in src.nodes
    ensures Compatible(old(dst.nodes), src.nodes, root, dstRoot) ==> fault in {Ok, Io, Cancelled, Missing}
    ensures fault !in {NotRegular, NotEmpty}
  {
    var items, skipped, planFault;
    items, total, skipped, planFault := Plan(src, root);
    if planFault != Ok {
      return Result(0, 0, 0), 0, planFault;
    }
    PlanDescribes(src.nodes, root, items, total, skipped);
    TargetsAreValid(src.nodes, root, dstRoot, items);
    ghost var before, k := dst.nodes, 0;
    res, fault, k := RunSet(src, root, dst, dstRoot, items, skipped, p);
    if NoLinkInTheWay(before, src.nodes, root, dstRoot) {
      StoppedWithin(before, dst.nodes, src.nodes, root, dstRoot, items, total, skipped, k, res.bytes);
    }
    if fault == Ok {
      assert items[..k] == items;
      RanMirrorsWhen(before, src.nodes, root, dstRoot, items, total, skipped);
      PlanCountsFiles(src.nodes, root, items, total, skipped);
      SizesAreBytes(src.nodes, root, items);
    } else {
      assert Describes(src.nodes, SpotOf(root, items[k]));
      if Compatible(before, src.nodes, root, dstRoot) {
        CompatibleIsNeverBlocked(before, src.nodes, root, dstRoot, items, total, skipped, k);
      }
    }
  }

  lemma CompatibleIsNeverBlocked(
    before: Tree, t: Tree, root: Path, dstRoot: Path, items: seq<Item>, total: nat, skipped: nat, k: nat)
    requires WellFormed(before) && WellFormed(t) && root in t && ValidPath(dstRoot)
    requires IsPlan(t, root, items, total, skipped) && Compatible(before, t, root, dstRoot) && k < |items|
    requires Ran(before, t, root, dstRoot, items[..k]).Some?
    ensures !Cannot(Ran(before, t, root, dstRoot, items[..k]).value, At(dstRoot, items[k].rel), items[k].isDir)
  {
    var ran, to := Ran(before, t, root, dstRoot, items[..k]).value, At(dstRoot, items[k].rel);
    PlanDescribes(t, root, items, total, skipped);
    TargetsAreValid(t, root, dstRoot, items);
    CompatibleIsClear(before, t, root, dstRoot);
    ItemsAreClear(before, t, root, dstRoot, items, total, skipped);
    RanWhenClear(before, t, root, dstRoot, items, k);
    RanKeepsForm(before, t, root, dstRoot, items[..k]);
    ClearStays(before, ran, to);
    NothingInTheWay(before, t, root, dstRoot, items, total, skipped, k);
    if Cannot(ran, to, items[k].isDir) {
      CannotWhenClear(ran, to, items[k].isDir);
    }
  }
}
