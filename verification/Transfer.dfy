/**
 * The recursive copy and delete of internal/sftp: Plan walks a tree, RunSet
 * carries the plan out on the other side, RemoveTree deletes children first.
 */
module Transfer {
  import opened Options
  import opened Basics
  import opened Paths
  import opened Files
  import opened Plans
  import opened Copies
  import opened Halts
  import opened WalkState

  /** joinRel: walks rel through the browser's own Join. */
  method JoinRel(root: Path, rel: string) returns (p: Path)
    ensures p == At(root, rel)
  {
    p := root;
    if rel == "" {
      return;
    }
    var segs := Split(rel);
    var i := 0;
    while i < |segs|
      invariant 0 <= i <= |segs| && p == root + segs[..i]
    {
      p := p + [segs[i]];
      i := i + 1;
    }
    assert segs[..|segs|] == segs;
  }

  /** The body of Plan's inner loop: one row of the listing of rel. */
  method PlanRow(items: seq<Item>, queue: seq<string>, total: nat, skipped: nat, rel: string, e: Entry)
    returns (items': seq<Item>, queue': seq<string>, total': nat, skipped': nat)
    ensures State(items', queue', total', skipped') == Visit(State(items, queue, total, skipped), rel, e)
  {
    items', queue', total', skipped' := items, queue, total, skipped;
    var child := e.name;
    if rel != "" {
      child := rel + "/" + e.name;
    }
    if e.link {
      skipped' := skipped + 1;
    } else if e.isDir {
      items' := items + [Item(child, 0, true)];
      queue' := queue + [child];
    } else {
      items' := items + [Item(child, e.size, false)];
      total' := total + e.size;
    }
  }

  method Plan(br: FileSystem, root: Path) returns (items: seq<Item>, total: nat, skipped: nat, fault: Fault)
    requires br.Valid()
    ensures fault == Ok ==> root in br.nodes && IsPlan(br.nodes, root, items, total, skipped)
    ensures fault != Ok ==> items == [] && total == 0 && skipped == 0
    ensures fault in {Ok, Io, Missing} && (fault == Missing ==> root !in br.nodes)
  {
    var e, found, err := br.Stat(root);
    if err != Ok {
      return [], 0, 0, err;
    }
    if !found {
      return [], 0, 0, Missing;
    }
    if e.link {
      PlanOfLink(br.nodes, root);
      return [], 0, 1, Ok;
    }
    if !e.isDir {
      PlanOfFile(br.nodes, root);
      return [Item("", e.size, false)], e.size, 0, Ok;
    }

    items, total, skipped := [Item("", 0, true)], 0, 0;
    var queue := [""];
    ghost var seen := {root};
    WalkBegins(br.nodes, root);
    while |queue| > 0
      invariant Walks(br.nodes, root, State(items, queue, total, skipped), seen, {})
      decreases Left(br.nodes, root, queue, seen)
    {
      PopKeeps(br.nodes, root, State(items, queue, total, skipped), seen);
      var rel := queue[0];
      queue := queue[1..];
      ghost var dir := At(root, rel);

      var at := JoinRel(root, rel);
      var entries, listErr := br.List(at);
      if listErr != Ok {
        return [], 0, 0, listErr;
      }
      ghost var left := Left(br.nodes, root, queue, seen);
      SeenNone(br.nodes, dir, entries, seen);
      ghost var s := State(items, queue, total, skipped);
      var i := 0;
      while i < |entries|
        invariant 0 <= i <= |entries|
        invariant s == State(items, queue, total, skipped)
        invariant Walks(br.nodes, root, s, seen, {dir})
        invariant SeenUpTo(dir, entries, i, seen)
        invariant Left(br.nodes, root, s.queue, seen) <= left
      {
        var entry := entries[i];
        VisitKeeps(br.nodes, root, s, seen, rel, entry);
        s := Visit(s, rel, entry);
        SeenOneMore(br.nodes, dir, entries, i, seen);
        items, queue, total, skipped := PlanRow(items, queue, total, skipped, rel, entry);
        seen := seen + {dir + [entry.name]};
        i := i + 1;
      }
      ListingEnds(br.nodes, root, s, seen, dir, entries);
    }
    WalkFinishes(br.nodes, root, State(items, queue, total, skipped), seen);
    return items, total, skipped, Ok;
  }

  // ---------------------------------------------------------------- one file

  const CHUNK: nat := 32 * 1024

  /** Written by the transfer, read by the screen. */
  class Progress {
    var done: nat

    constructor ()
      ensures done == 0
    {
      done := 0;
    }

    method Add(n: nat)
      modifies this
      ensures done == old(done) + n
    {
      if n > 0 {
        done := done + n;
      }
    }
  }

  /** How a read ended: with more to come, at the end of the file, or badly. */
  datatype ReadEnd = More | Eof | Failed

  /**
   * What the source's Read may do at position at: some bytes, up to a buffer's
   * worth, and then any end that fits. A read that neither moves nor ends is
   * excluded, as os.File and sftp.File exclude it.
   */
  method Read(data: seq<byte>, at: nat) returns (n: nat, end: ReadEnd)
    requires at <= |data|
    ensures n <= CHUNK && at + n <= |data|
    ensures end == Eof ==> at + n == |data|
    ensures end == More ==> n > 0
  {
    var most := if |data| - at < CHUNK then |data| - at else CHUNK;
    n :| 0 <= n <= most;
    end := if at + n == |data| then Eof else Failed;
    if * { end := Failed; }
    if n > 0 {
      if * { end := More; }
    }
  }

  /** Writing on from data[..at]. */
  lemma WritesOn(was: Tree, to: Path, data: seq<byte>, at: nat, n: nat, written: nat)
    requires written <= n && at + n <= |data|
    ensures var now := WithFile(was, to, data[..at]);
            && to in now && now[to] == File(data[..at])
            && WithFile(now, to, now[to].data + data[at..at + n][..written]) == WithFile(was, to, data[..at + written])
  {
    assert data[..at] + data[at..at + n][..written] == data[..at + written];
    WithFileTwice(was, to, data[..at], data[..at + written]);
  }

  /** copyCtx: the file at `to` grows by what was read, and the counter with it, until the end or a fault. */
  method CopyCtx(data: seq<byte>, dst: FileSystem, to: Path, p: Progress?) returns (total: nat, fault: Fault)
    requires dst.Valid() && to in dst.nodes && dst.nodes[to] == File([])
    modifies dst, p
    ensures dst.Valid() && dst.removed == old(dst.removed)
    ensures total <= |data| && dst.nodes == WithFile(old(dst.nodes), to, data[..total])
    ensures fault in {Ok, Io, Cancelled} && (fault == Ok ==> total == |data|)
    ensures p != null ==> p.done == old(p.done) + total
  {
    total := 0;
    ghost var was := dst.nodes;
    assert data[..total] == [] && dst.nodes == WithFile(was, to, data[..total]);
    while true
      invariant dst.Valid() && dst.removed == old(dst.removed)
      invariant total <= |data| && dst.nodes == WithFile(was, to, data[..total])
      invariant to in dst.nodes && dst.nodes[to].File?
      invariant p != null ==> p.done == old(p.done) + total
      decreases |data| - total
    {
      if * {
        return total, Cancelled;
      }
      var n, end := Read(data, total);
      if n > 0 {
        var written, writeErr := dst.Write(to, data[total..total + n]);
        WritesOn(was, to, data, total, n, written);
        total := total + written;
        if p != null {
          p.Add(written);
        }
        if writeErr != Ok {
          return total, writeErr;
        }
        if written != n {
          return total, Io;
        }
      }
      if end == Eof {
        assert data[..total] == data;
        return total, Ok;
      }
      if end == Failed {
        return total, Io;
      }
    }
  }

  /**
   * Upload and Download, which mirror each other: the bytes go where the
   * destination's links lead; a copy that does not finish is unlinked again.
   */
  method CopyFile(src: FileSystem, from: Path, dst: FileSystem, to: Path, p: Progress?) returns (n: nat, fault: Fault)
    requires src != dst && dst.Valid() && ValidPath(to)
    modifies dst, p
    ensures dst.Valid() && dst.removed == old(dst.removed)
    ensures fault == Ok ==> Copied(src.nodes, from, old(dst.nodes), to, dst.nodes) && n == |src.nodes[from].data|
    ensures fault != Ok ==>
              (dst.nodes == old(dst.nodes) && n == 0) || Broken(src.nodes, from, old(dst.nodes), to, n, dst.nodes)
    ensures fault == Missing ==> from !in src.nodes
    ensures fault == NotRegular ==> from in src.nodes && !src.nodes[from].File?
    ensures fault == Blocked ==> !CanOpen(old(dst.nodes), to)
    ensures fault in {Ok, Io, Cancelled, Missing, NotRegular, Blocked}
    ensures p != null ==> p.done == old(p.done) + n
  {
    var info, found, statErr := src.Stat(from);
    if statErr != Ok {
      return 0, statErr;
    }
    if !found {
      return 0, Missing;
    }
    if info.isDir || info.link {
      return 0, NotRegular;
    }
    if * {
      return 0, Io; // open
    }
    var at;
    at, fault := dst.Create(to);
    if fault != Ok {
      return 0, fault;
    }
    n, fault := CopyCtx(src.nodes[from].data, dst, at, p);
    if fault == Ok {
      if * {
        fault := Io; // close
      }
    }
    WithFileTwice(old(dst.nodes), at, [], src.nodes[from].data[..n]);
    if fault != Ok {
      dst.Discard(to);
    } else {
      assert src.nodes[from].data[..n] == src.nodes[from].data;
    }
  }

  // ---------------------------------------------------------------- a set of items

  /** The body of RunSet's loop: a directory is made, a file is copied. */
  method RunItem(src: FileSystem, srcRoot: Path, dst: FileSystem, dstRoot: Path, item: Item, p: Progress?)
    returns (n: nat, fault: Fault)
    requires src != dst && dst.Valid() && ValidPath(At(dstRoot, item.rel))
    modifies dst, p
    ensures dst.Valid()
    ensures fault == Ok ==>
              Lands(old(dst.nodes), src.nodes, srcRoot, dstRoot, item) == Some(dst.nodes) && n == SizeAt(src.nodes, srcRoot, item)
    ensures fault != Ok ==> StopsIn(old(dst.nodes), dst.nodes, src.nodes, srcRoot, dstRoot, item, n)
    ensures Explains(fault, old(dst.nodes), src.nodes, srcRoot, dstRoot, item)
    ensures fault != NotEmpty
    ensures p != null ==> p.done == old(p.done) + n
  {
    var from := JoinRel(srcRoot, item.rel);
    var to := JoinRel(dstRoot, item.rel);
    if item.isDir {
      n := 0;
      fault := dst.MkdirAll(to);
    } else {
      n, fault := CopyFile(src, from, dst, to, p);
    }
  }

  /**
   * RunSet: the items one by one, stopping at the first fault. Links on the
   * destination are followed. The first k items have been carried out, at their
   * own places if and only if no link was in their way; a file the run broke
   * off in is gone if and only if its own name was no link.
   */
  method RunSet(src: FileSystem, srcRoot: Path, dst: FileSystem, dstRoot: Path, items: seq<Item>, skipped: nat, p: Progress?)
    returns (res: Result, fault: Fault, ghost k: nat)
    requires src != dst && dst.Valid()
    requires forall i | 0 <= i < |items| :: ValidPath(At(dstRoot, items[i].rel))
    modifies dst, p
    ensures dst.Valid()
    ensures Halted(old(dst.nodes), dst.nodes, src.nodes, srcRoot, dstRoot, items, skipped, k, res, fault)
    ensures Leaves(old(dst.nodes), dst.nodes, src.nodes, srcRoot, dstRoot, items, k, res.bytes)
    ensures p != null ==> p.done == old(p.done) + res.bytes
  {
    ghost var there := dst.nodes;
    res, fault, k := RunItems(src, srcRoot, dst, dstRoot, items, skipped, p);
    StoppedLeaves(there, dst.nodes, src.nodes, srcRoot, dstRoot, items, k, res.bytes);
  }

  /** RunSet's loop. */
  method RunItems(src: FileSystem, srcRoot: Path, dst: FileSystem, dstRoot: Path, items: seq<Item>, skipped: nat, p: Progress?)
    returns (res: Result, fault: Fault, ghost k: nat)
    requires src != dst && dst.Valid()
    requires forall i | 0 <= i < |items| :: ValidPath(At(dstRoot, items[i].rel))
    modifies dst, p
    ensures dst.Valid()
    ensures Halted(old(dst.nodes), dst.nodes, src.nodes, srcRoot, dstRoot, items, skipped, k, res, fault)
    ensures p != null ==> p.done == old(p.done) + res.bytes
  {
    res, fault, k := Result(0, 0, skipped), Ok, 0;
    ghost var there := dst.nodes;
    var i := 0;
    while i < |items|
      invariant 0 <= i <= |items| && k == i && fault == Ok && dst.Valid() && res.skipped == skipped
      invariant Running(there, dst.nodes, src.nodes, srcRoot, dstRoot, items, i, res)
      invariant p != null ==> p.done == old(p.done) + res.bytes
    {
      if * {
        HaltsHere(there, dst.nodes, dst.nodes, src.nodes, srcRoot, dstRoot, items, i, res, 0, Cancelled);
        return res, Cancelled, i;
      }
      var item := items[i];
      ghost var was := dst.nodes;
      var n;
      n, fault := RunItem(src, srcRoot, dst, dstRoot, item, p);
      if fault != Ok {
        HaltsHere(there, was, dst.nodes, src.nodes, srcRoot, dstRoot, items, i, res, n, fault);
        res := res.(bytes := res.bytes + n);
        return;
      }
      RunsOn(there, was, dst.nodes, src.nodes, srcRoot, dstRoot, items, i, res, n);
      res := Result(res.files + if item.isDir then 0 else 1, res.bytes + n, res.skipped);
      i := i + 1;
      k := i;
    }
    HaltsAtTheEnd(there, dst.nodes, src.nodes, srcRoot, dstRoot, items, res);
  }
}
