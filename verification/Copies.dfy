/**
 * What the copies of internal/sftp make of a destination, as functions: the
 * links on it are followed, and a copy that breaks off unlinks its name.
 */
module Copies {
  import opened Options
  import opened Basics
  import opened Paths
  import opened Files
  import opened Plans

  // ---------------------------------------------------------------- one file

  /** t' is t with from's bytes in whatever `to` leads to. */
  predicate Copied(src: Tree, from: Path, t: Tree, to: Path, t': Tree) {
    && from in src && src[from].File? && CanOpen(t, to)
    && t' == WithFile(t, Follow(t, to).value, src[from].data)
  }

  /** The copy broke off after n bytes, and `to` was unlinked. */
  predicate Broken(src: Tree, from: Path, t: Tree, to: Path, n: nat, t': Tree) {
    && from in src && src[from].File? && CanOpen(t, to) && n <= |src[from].data|
    && t' == Unlinked(WithFile(t, Follow(t, to).value, src[from].data[..n]), to)
  }

  /** Without links in the way it is `to` itself that gets the bytes, or is gone. */
  lemma CopiesWhenClear(src: Tree, from: Path, t: Tree, to: Path, n: nat, t': Tree)
    requires Clear(t, to)
    ensures Copied(src, from, t, to, t') ==> !Obstructed(t, to, false) && t' == WithFile(t, to, src[from].data)
    ensures Broken(src, from, t, to, n, t') ==> !Obstructed(t, to, false) && t' == t - {to}
  {
    OpensWhenClear(t, to);
    if Broken(src, from, t, to, n, t') {
      var cut := WithFile(t, to, src[from].data[..n]);
      assert NoNewLinks(t, cut);
      ClearStays(t, cut, to);
      OpensWhenClear(cut, to);
      WithFileTwice(t, to, src[from].data[..n], []);
    }
  }

  lemma BrokenWhenClear(there: Tree, ran: Tree, src: Tree, from: Path, to: Path, n: nat, now: Tree)
    requires Clear(there, to) && NoNewLinks(there, ran) && Broken(src, from, ran, to, n, now)
    ensures now == ran - {to}
  {
    ClearStays(there, ran, to);
    CopiesWhenClear(src, from, ran, to, n, now);
  }

  /** A copy that breaks off takes its file away exactly if the name it was given is no link; else the file stays, cut short. */
  lemma BrokenCleansUpWhen(src: Tree, from: Path, t: Tree, to: Path, n: nat, t': Tree)
    requires WellFormed(t) && ValidPath(to) && Broken(src, from, t, to, n, t')
    ensures Follow(t, to).value !in t' <==> !LastIsLink(t, to)
    ensures LastIsLink(t, to) ==> t'[Follow(t, to).value] == File(src[from].data[..n])
  {
    var at := Follow(t, to).value;
    var cut := WithFile(t, at, src[from].data[..n]);
    FollowEnds(t, to, MAX_LINKS);
    assert to != [];
    assert NoNewLinks(t, cut) && LinksStay(t, cut);
    SameLinksSameWay(t, cut, Parent(to), MAX_LINKS);
    if !LastIsLink(t, to) {
      LeadsToItsEntry(t, to);
    }
  }

  // ---------------------------------------------------------------- a set of items, each at its own place

  datatype Result = Result(files: nat, bytes: nat, skipped: nat)

  /** What one item leaves on the destination. */
  function Placed(src: Tree, srcRoot: Path, dstRoot: Path, item: Item): Tree {
    var from, to := At(srcRoot, item.rel), At(dstRoot, item.rel);
    if item.isDir then DirsTo(to) else if from in src then map[to := src[from]] else map[]
  }

  function Landed(src: Tree, srcRoot: Path, dstRoot: Path, items: seq<Item>): Tree {
    if items == [] then map[]
    else Landed(src, srcRoot, dstRoot, items[..|items| - 1]) + Placed(src, srcRoot, dstRoot, items[|items| - 1])
  }

  function FilesIn(items: seq<Item>): nat {
    if items == [] then 0
    else FilesIn(items[..|items| - 1]) + if items[|items| - 1].isDir then 0 else 1
  }

  /** The bytes an item brings over when it is copied in full. */
  function SizeAt(src: Tree, srcRoot: Path, item: Item): nat {
    var from := At(srcRoot, item.rel);
    if !item.isDir && from in src && src[from].File? then |src[from].data| else 0
  }

  function BytesOf(src: Tree, srcRoot: Path, items: seq<Item>): nat {
    if items == [] then 0
    else BytesOf(src, srcRoot, items[..|items| - 1]) + SizeAt(src, srcRoot, items[|items| - 1])
  }

  /** The destination once the first k items have landed on it. */
  function Arrived(there: Tree, src: Tree, srcRoot: Path, dstRoot: Path, items: seq<Item>, k: nat): Tree
    requires k <= |items|
  {
    there + Landed(src, srcRoot, dstRoot, items[..k])
  }

  lemma ArrivesNext(there: Tree, src: Tree, srcRoot: Path, dstRoot: Path, items: seq<Item>, i: nat)
    requires i < |items|
    ensures Arrived(there, src, srcRoot, dstRoot, items, i + 1)
         == Arrived(there, src, srcRoot, dstRoot, items, i) + Placed(src, srcRoot, dstRoot, items[i])
  {
    assert items[..i + 1][..i] == items[..i] && items[..i + 1][i] == items[i];
  }

  lemma CountsNext(src: Tree, srcRoot: Path, items: seq<Item>, i: nat)
    requires i < |items|
    ensures FilesIn(items[..i + 1]) == FilesIn(items[..i]) + if items[i].isDir then 0 else 1
    ensures BytesOf(src, srcRoot, items[..i + 1]) == BytesOf(src, srcRoot, items[..i]) + SizeAt(src, srcRoot, items[i])
  {
    assert items[..i + 1][..i] == items[..i] && items[..i + 1][i] == items[i];
  }

  // ---------------------------------------------------------------- a set of items, links followed

  /** What an item makes of the destination t, links on it followed; None if it cannot be done. */
  function Lands(t: Tree, src: Tree, srcRoot: Path, dstRoot: Path, item: Item): Option<Tree> {
    var from, to := At(srcRoot, item.rel), At(dstRoot, item.rel);
    if item.isDir then Made(t, to)
    else if from in src && src[from].File? && CanOpen(t, to) then Some(WithFile(t, Follow(t, to).value, src[from].data))
    else None
  }

  /** What the items make of it, one after another. */
  function Ran(t: Tree, src: Tree, srcRoot: Path, dstRoot: Path, items: seq<Item>): Option<Tree> {
    if items == [] then Some(t)
    else
      var r := Ran(t, src, srcRoot, dstRoot, items[..|items| - 1]);
      if r.None? then None else Lands(r.value, src, srcRoot, dstRoot, items[|items| - 1])
  }

  lemma RanNext(t: Tree, src: Tree, srcRoot: Path, dstRoot: Path, items: seq<Item>, i: nat)
    requires i < |items| && Ran(t, src, srcRoot, dstRoot, items[..i]).Some?
    ensures Ran(t, src, srcRoot, dstRoot, items[..i + 1])
         == Lands(Ran(t, src, srcRoot, dstRoot, items[..i]).value, src, srcRoot, dstRoot, items[i])
  {
    assert items[..i + 1][..i] == items[..i] && items[..i + 1][i] == items[i];
  }

  lemma LandsKeepsForm(t: Tree, src: Tree, srcRoot: Path, dstRoot: Path, item: Item)
    requires WellFormed(t) && ValidPath(At(dstRoot, item.rel))
    ensures var r := Lands(t, src, srcRoot, dstRoot, item);
            r.Some? ==> WellFormed(r.value) && NoNewLinks(t, r.value) && LinksStay(t, r.value)
  {
    var from, to := At(srcRoot, item.rel), At(dstRoot, item.rel);
    if item.isDir {
      MadeKeepsForm(t, to);
    } else if from in src && src[from].File? && CanOpen(t, to) {
      FollowEnds(t, to, MAX_LINKS);
      FileKeepsForm(t, Follow(t, to).value, src[from].data);
    }
  }

  lemma LandsWhenClear(t: Tree, src: Tree, srcRoot: Path, dstRoot: Path, item: Item)
    requires WellFormed(t) && ValidPath(At(dstRoot, item.rel)) && Clear(t, At(dstRoot, item.rel))
    ensures var r := Lands(t, src, srcRoot, dstRoot, item);
            && (r.Some? ==> r.value == t + Placed(src, srcRoot, dstRoot, item))
            && (r.None? && (item.isDir || (At(srcRoot, item.rel) in src && src[At(srcRoot, item.rel)].File?)) ==>
                  Obstructed(t, At(dstRoot, item.rel), item.isDir))
  {
    var from, to := At(srcRoot, item.rel), At(dstRoot, item.rel);
    if item.isDir {
      MadeWhenClear(t, to);
    } else {
      OpensWhenClear(t, to);
      if from in src && src[from].File? {
        WithFileTwice(t, to, src[from].data, []);
      }
    }
  }

  /** No link is where any item goes, or on the way there. */
  predicate AllClear(t: Tree, dstRoot: Path, items: seq<Item>) {
    forall i | 0 <= i < |items| :: Clear(t, At(dstRoot, items[i].rel))
  }

  lemma {:induction false} RanKeepsForm(t: Tree, src: Tree, srcRoot: Path, dstRoot: Path, items: seq<Item>)
    requires WellFormed(t) && forall i | 0 <= i < |items| :: ValidPath(At(dstRoot, items[i].rel))
    ensures var r := Ran(t, src, srcRoot, dstRoot, items);
            r.Some? ==> WellFormed(r.value) && NoNewLinks(t, r.value) && LinksStay(t, r.value)
  {
    if items != [] {
      var init, last := items[..|items| - 1], items[|items| - 1];
      RanKeepsForm(t, src, srcRoot, dstRoot, init);
      if Ran(t, src, srcRoot, dstRoot, init).Some? {
        LandsKeepsForm(Ran(t, src, srcRoot, dstRoot, init).value, src, srcRoot, dstRoot, last);
      }
    }
  }

  /** Without links in the way the items land where their paths say. */
  lemma {:induction false} RanWhenClear(t: Tree, src: Tree, srcRoot: Path, dstRoot: Path, items: seq<Item>, k: nat)
    requires WellFormed(t) && k <= |items| && AllClear(t, dstRoot, items)
    requires forall i | 0 <= i < |items| :: ValidPath(At(dstRoot, items[i].rel))
    requires Ran(t, src, srcRoot, dstRoot, items[..k]).Some?
    ensures Ran(t, src, srcRoot, dstRoot, items[..k]).value == Arrived(t, src, srcRoot, dstRoot, items, k)
  {
    if k > 0 {
      assert items[..k][..k - 1] == items[..k - 1] && items[..k][k - 1] == items[k - 1];
      RanWhenClear(t, src, srcRoot, dstRoot, items, k - 1);
      ArrivesNext(t, src, srcRoot, dstRoot, items, k - 1);
      var before := Ran(t, src, srcRoot, dstRoot, items[..k - 1]).value;
      RanKeepsForm(t, src, srcRoot, dstRoot, items[..k - 1]);
      ClearStays(t, before, At(dstRoot, items[k - 1].rel));
      LandsWhenClear(before, src, srcRoot, dstRoot, items[k - 1]);
    }
  }

  /** What has landed holds every item's place. */
  lemma {:induction false} LandedHolds(t: Tree, src: Tree, srcRoot: Path, dstRoot: Path, items: seq<Item>, i: nat)
    requires Ran(t, src, srcRoot, dstRoot, items).Some? && i < |items|
    ensures At(dstRoot, items[i].rel) in Landed(src, srcRoot, dstRoot, items)
    decreases |items|
  {
    var n := |items| - 1;
    if i < n {
      assert items[..n][i] == items[i];
      LandedHolds(t, src, srcRoot, dstRoot, items[..n], i);
    } else {
      assert At(dstRoot, items[n].rel) in Placed(src, srcRoot, dstRoot, items[n]);
    }
  }

  /** And no link. */
  lemma {:induction false} LandedHasNoLinks(t: Tree, src: Tree, srcRoot: Path, dstRoot: Path, items: seq<Item>)
    requires Ran(t, src, srcRoot, dstRoot, items).Some?
    ensures forall q | q in Landed(src, srcRoot, dstRoot, items) :: !Landed(src, srcRoot, dstRoot, items)[q].Link?
  {
    if items != [] {
      LandedHasNoLinks(t, src, srcRoot, dstRoot, items[..|items| - 1]);
    }
  }

  /** Items that have been carried out are at their own places exactly if no link was at any of those, or on the way there. */
  lemma RanArrivesWhen(t: Tree, src: Tree, srcRoot: Path, dstRoot: Path, items: seq<Item>)
    requires WellFormed(t) && forall i | 0 <= i < |items| :: ValidPath(At(dstRoot, items[i].rel))
    requires Ran(t, src, srcRoot, dstRoot, items).Some?
    ensures Ran(t, src, srcRoot, dstRoot, items).value == t + Landed(src, srcRoot, dstRoot, items) <==> AllClear(t, dstRoot, items)
  {
    var ran, landed := Ran(t, src, srcRoot, dstRoot, items).value, Landed(src, srcRoot, dstRoot, items);
    assert items[..|items|] == items;
    if AllClear(t, dstRoot, items) {
      RanWhenClear(t, src, srcRoot, dstRoot, items, |items|);
    } else if ran == t + landed {
      RanKeepsForm(t, src, srcRoot, dstRoot, items);
      LandedHasNoLinks(t, src, srcRoot, dstRoot, items);
      forall i, q | 0 <= i < |items| && q in t && Under(At(dstRoot, items[i].rel), q) ensures !t[q].Link? {
        LandedHolds(t, src, srcRoot, dstRoot, items, i);
        PrefixesExist(ran, At(dstRoot, items[i].rel), q);
      }
    }
  }

  /** A directory, or a file, cannot be made at p, links on the way followed. */
  predicate Cannot(t: Tree, p: Path, dir: bool) { if dir then Made(t, p).None? else !CanOpen(t, p) }

  lemma CannotWhenClear(t: Tree, p: Path, dir: bool)
    requires WellFormed(t) && ValidPath(p) && Clear(t, p) && Cannot(t, p, dir)
    ensures Obstructed(t, p, dir)
  {
    if dir {
      MadeWhenClear(t, p);
    } else {
      OpensWhenClear(t, p);
    }
  }

  /** The reason given for not doing an item is the true one. */
  predicate Explains(fault: Fault, t: Tree, src: Tree, srcRoot: Path, dstRoot: Path, item: Item) {
    var from := At(srcRoot, item.rel);
    && (fault == Missing ==> from !in src && !item.isDir)
    && (fault == NotRegular ==> from in src && !src[from].File? && !item.isDir)
    && (fault == Blocked ==> Cannot(t, At(dstRoot, item.rel), item.isDir))
  }
}
