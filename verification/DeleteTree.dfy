/**
 * The recursive delete of internal/sftp/remote.go: children first, then the
 * node itself, on the server's tree as it is.
 */
module DeleteTree {
  import opened Paths
  import opened Files
  import opened Plans
  import opened CopyTree
  import opened Copies
  import opened Halts
  import opened Transfer

  /** Nothing is taken away after something above it. */
  ghost predicate ChildrenFirst(removed: seq<Path>, from: nat) {
    forall i, j | from <= i < j < |removed| :: !Under(removed[j], removed[i])
  }

  /** Some row before i has q at or below it. */
  ghost predicate GoneBefore(p: Path, rows: seq<Entry>, i: nat, q: Path)
    requires i <= |rows|
  {
    exists j :: 0 <= j < i && Under(q, p + [rows[j].name])
  }

  lemma GoneNext(p: Path, rows: seq<Entry>, i: nat, q: Path)
    requires i < |rows|
    ensures GoneBefore(p, rows, i + 1, q) <==> GoneBefore(p, rows, i, q) || Under(q, p + [rows[i].name])
  {
  }

  /** now is t without what is at or below the first i rows of p. */
  ghost predicate Pruned(t: Tree, now: Tree, p: Path, rows: seq<Entry>, i: nat)
    requires i <= |rows|
  {
    && (forall q | q in now :: q in t && now[q] == t[q])
    && (forall q | q in t :: q in now <==> !GoneBefore(p, rows, i, q))
  }

  lemma PrunedMore(t: Tree, now: Tree, now': Tree, p: Path, rows: seq<Entry>, i: nat)
    requires i < |rows| && Pruned(t, now, p, rows, i) && now' == now - Below(now, p + [rows[i].name])
    ensures Pruned(t, now', p, rows, i + 1)
  {
    forall q | q in t ensures q in now' <==> !GoneBefore(p, rows, i + 1, q) {
      GoneNext(p, rows, i, q);
    }
  }

  lemma PrunedInside(t: Tree, now: Tree, p: Path, rows: seq<Entry>)
    requires WellFormed(t) && p in t && Lists(t, p, rows) && Pruned(t, now, p, rows, |rows|)
    ensures forall q | q in t && Under(q, p) && q != p :: q !in now
  {
    forall q | q in t && Under(q, p) && q != p ensures q !in now {
      var c := ChildOnTheWay(t, p, q);
      assert HasRow(p, rows, c);
      var j :| 0 <= j < |rows| && p + [rows[j].name] == c;
      assert GoneBefore(p, rows, |rows|, q);
    }
  }

  lemma PrunedOutside(t: Tree, now: Tree, p: Path, rows: seq<Entry>)
    requires Pruned(t, now, p, rows, |rows|)
    ensures forall q | q in t && !Under(q, p) :: q in now
  {
    forall q | q in t && !Under(q, p) ensures q in now {
      assert forall j | 0 <= j < |rows| :: !Under(q, p + [rows[j].name]);
      assert !GoneBefore(p, rows, |rows|, q);
    }
  }

  /** With every row gone, p alone is left of what was there. */
  lemma PrunedAll(t: Tree, now: Tree, p: Path, rows: seq<Entry>)
    requires WellFormed(t) && p in t && Lists(t, p, rows) && Pruned(t, now, p, rows, |rows|)
    ensures p in now && Below(now, p) == {p} && now - {p} == t - Below(t, p)
  {
    assert !GoneBefore(p, rows, |rows|, p);
    PrunedInside(t, now, p, rows);
    PrunedOutside(t, now, p, rows);
    OnlyTopLeft(t, now, p);
  }

  lemma OnlyTopLeft(t: Tree, now: Tree, p: Path)
    requires p in now && forall q | q in now :: q in t && now[q] == t[q]
    requires forall q | q in t && Under(q, p) && q != p :: q !in now
    requires forall q | q in t && !Under(q, p) :: q in now
    ensures Below(now, p) == {p} && now - {p} == t - Below(t, p)
  {
  }

  /** A removal log that was in order stays so when more of it, in order, is about other places. */
  lemma ChildrenFirstOn(a: seq<Path>, from: nat, b: seq<Path>)
    requires from <= |a| && a <= b && ChildrenFirst(a, from) && ChildrenFirst(b, |a|)
    requires forall i, j | from <= i < |a| <= j < |b| :: !Under(b[j], b[i])
    ensures ChildrenFirst(b, from)
  {
    forall i, j | from <= i < j < |b| ensures !Under(b[j], b[i]) {
      if j < |a| {
        assert b[i] == a[i] && b[j] == a[j];
      }
    }
  }

  /** The log since `from` is about the first i rows of p. */
  ghost predicate AboutRows(removed: seq<Path>, from: nat, p: Path, rows: seq<Entry>, i: nat)
    requires i <= |rows|
  {
    forall k | from <= k < |removed| :: GoneBefore(p, rows, i, removed[k])
  }

  lemma RowName(p: Path, a: string, x: Path)
    requires Under(x, p + [a])
    ensures |x| > |p| && x[|p|] == a
  {
  }

  /** Rows are different places: what is below one is not below another. */
  lemma RowsApart(p: Path, a: string, b: string, x: Path)
    requires a != b && Under(x, p + [a])
    ensures !Under(x, p + [b])
  {
    RowName(p, a, x);
    if Under(x, p + [b]) {
      RowName(p, b, x);
    }
  }

  lemma LogMore(t: Tree, p: Path, rows: seq<Entry>, i: nat, a: seq<Path>, from: nat, b: seq<Path>)
    requires Lists(t, p, rows) && i < |rows| && from <= |a| && a <= b
    requires ChildrenFirst(a, from) && AboutRows(a, from, p, rows, i)
    requires ChildrenFirst(b, |a|) && forall k | |a| <= k < |b| :: Under(b[k], p + [rows[i].name])
    ensures ChildrenFirst(b, from) && AboutRows(b, from, p, rows, i + 1)
  {
    forall k | from <= k < |b| ensures GoneBefore(p, rows, i + 1, b[k]) {
      if k < |a| {
        assert GoneBefore(p, rows, i, a[k]) && a[k] == b[k];
      }
      GoneNext(p, rows, i, b[k]);
    }
    forall k, l | from <= k < |a| <= l < |b| ensures !Under(b[l], b[k]) {
      assert GoneBefore(p, rows, i, a[k]) && a[k] == b[k];
      var j :| 0 <= j < i && Under(a[k], p + [rows[j].name]);
      RowsApart(p, rows[i].name, rows[j].name, b[l]);
    }
    ChildrenFirstOn(a, from, b);
  }

  lemma AboutRowsIsBelow(p: Path, rows: seq<Entry>, i: nat, a: seq<Path>, from: nat)
    requires i <= |rows| && AboutRows(a, from, p, rows, i)
    ensures forall k | from <= k < |a| :: Under(a[k], p) && a[k] != p
  {
    forall k | from <= k < |a| ensures Under(a[k], p) && a[k] != p {
      assert GoneBefore(p, rows, i, a[k]);
    }
  }

  lemma LogEnds(p: Path, a: seq<Path>, from: nat)
    requires from <= |a| && ChildrenFirst(a, from) && forall k | from <= k < |a| :: Under(a[k], p) && a[k] != p
    ensures ChildrenFirst(a + [p], from)
  {
    ChildrenFirstOn(a, from, a + [p]);
  }

  lemma NothingBelowNothing(t: Tree, p: Path)
    requires WellFormed(t) && p !in t
    ensures Below(t, p) == {}
  {
    forall q | q in t ensures !Under(q, p) {
      if Under(q, p) {
        PrefixesExist(t, q, p);
      }
    }
  }

  /** The fate of a subtree: some of it is gone, and nothing else has changed. */
  ghost predicate OnlyBelow(t: Tree, now: Tree, p: Path) {
    && (forall q | q in now :: q in t && now[q] == t[q])
    && (forall q | q in t && !Under(q, p) :: q in now)
  }

  lemma PrunedIsOnlyBelow(t: Tree, now: Tree, p: Path, rows: seq<Entry>, i: nat)
    requires i <= |rows| && Pruned(t, now, p, rows, i)
    ensures OnlyBelow(t, now, p)
  {
    forall q | q in t && !Under(q, p) ensures q in now {
      assert forall j | 0 <= j < i :: !Under(q, p + [rows[j].name]);
      assert !GoneBefore(p, rows, i, q);
    }
  }

  /**
   * removeTree: a link is unlinked and never followed. Only nodes at or below p
   * go, each by its own removal, after everything below it; the server is never
   * asked to remove a directory that is not empty.
   */
  method RemoveTree(fs: FileSystem, p: Path) returns (fault: Fault)
    requires fs.Valid() && p != []
    modifies fs
    ensures fs.Valid() && fault in {Ok, Io}
    ensures fault == Ok ==> fs.nodes == old(fs.nodes) - Below(old(fs.nodes), p)
    ensures OnlyBelow(old(fs.nodes), fs.nodes, p)
    ensures |fs.removed| + |fs.nodes| == old(|fs.removed| + |fs.nodes|)
    ensures old(fs.removed) <= fs.removed && ChildrenFirst(fs.removed, |old(fs.removed)|)
    ensures forall k | |old(fs.removed)| <= k < |fs.removed| :: Under(fs.removed[k], p)
    decreases Below(fs.nodes, p)
  {
    ghost var t, log := fs.nodes, fs.removed;
    var info, found, statErr := fs.Stat(p);
    if statErr != Ok {
      return statErr;
    }
    if !found {
      NothingBelowNothing(t, p);
      return Ok;
    }
    if info.isDir && !info.link {
      fault := RemoveChildren(fs, p);
      if fault != Ok {
        return;
      }
      LogEnds(p, fs.removed, |log|);
    } else {
      LeafIsAlone(t, p);
    }
    fault := fs.Remove(p);
  }

  /** The loop of removeTree over what is in the directory p. */
  method RemoveChildren(fs: FileSystem, p: Path) returns (fault: Fault)
    requires fs.Valid() && p != [] && p in fs.nodes && fs.nodes[p].Dir?
    modifies fs
    ensures fs.Valid() && fault in {Ok, Io}
    ensures fault == Ok ==> p in fs.nodes && Below(fs.nodes, p) == {p} && fs.nodes - {p} == old(fs.nodes) - Below(old(fs.nodes), p)
    ensures OnlyBelow(old(fs.nodes), fs.nodes, p)
    ensures |fs.removed| + |fs.nodes| == old(|fs.removed| + |fs.nodes|)
    ensures old(fs.removed) <= fs.removed && ChildrenFirst(fs.removed, |old(fs.removed)|)
    ensures forall k | |old(fs.removed)| <= k < |fs.removed| :: Under(fs.removed[k], p) && fs.removed[k] != p
    decreases Below(fs.nodes, p), 0
  {
    ghost var t, from := fs.nodes, |fs.removed|;
    var rows, listErr := fs.List(p);
    if listErr != Ok {
      return listErr;
    }
    var i := 0;
    while i < |rows|
      invariant 0 <= i <= |rows| && fs.Valid()
      invariant Pruned(t, fs.nodes, p, rows, i)
      invariant |fs.removed| + |fs.nodes| == old(|fs.removed| + |fs.nodes|)
      invariant old(fs.removed) <= fs.removed && ChildrenFirst(fs.removed, from) && AboutRows(fs.removed, from, p, rows, i)
    {
      ghost var now, log := fs.nodes, fs.removed;
      var c := p + [rows[i].name];
      assert Below(now, c) < Below(t, p) by {
        assert p in Below(t, p) && p !in Below(now, c);
      }
      fault := RemoveTree(fs, c);
      LogMore(t, p, rows, i, log, from, fs.removed);
      AboutRowsIsBelow(p, rows, i + 1, fs.removed, from);
      if fault != Ok {
        PrunedIsOnlyBelow(t, now, p, rows, i);
        return;
      }
      PrunedMore(t, now, fs.nodes, p, rows, i);
      i := i + 1;
    }
    AboutRowsIsBelow(p, rows, |rows|, fs.removed, from);
    PrunedIsOnlyBelow(t, fs.nodes, p, rows, |rows|);
    PrunedAll(t, fs.nodes, p, rows);
    return Ok;
  }

  lemma {:induction false} SizeWithout(t: Tree, s: set<Path>)
    requires s <= t.Keys
    ensures |t - s| == |t| - |s|
  {
    assert (t - s).Keys == t.Keys - s;
  }

  /**
   * A confirmed delete: the walk that counts for the question, then the
   * removal. When it succeeds it took one removal for every item counted and
   * one for every link the walk skipped.
   */
  method DeletePlanned(fs: FileSystem, p: Path) returns (items: seq<Item>, skipped: nat, fault: Fault)
    requires fs.Valid() && p != []
    modifies fs
    ensures fs.Valid()
    ensures fault == Ok ==>
              && fs.nodes == old(fs.nodes) - Below(old(fs.nodes), p)
              && |fs.removed| == |old(fs.removed)| + |items| + skipped
    ensures OnlyBelow(old(fs.nodes), fs.nodes, p)
  {
    var total;
    items, total, skipped, fault := Plan(fs, p);
    if fault != Ok {
      return;
    }
    PlanCountsEveryNode(fs.nodes, p, items, total, skipped);
    SizeWithout(fs.nodes, Below(fs.nodes, p));
    fault := RemoveTree(fs, p);
  }
}
