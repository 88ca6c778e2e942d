/** Where a run of copies stops, and what it leaves on the destination (internal/sftp/tree.go). */
module Halts {
  import opened Options
  import opened Basics
  import opened Paths
  import opened Files
  import opened Plans
  import opened Copies

  /** The run so far: the first i items carried out, and counted. */
  predicate Running(there: Tree, now: Tree, src: Tree, srcRoot: Path, dstRoot: Path, items: seq<Item>, i: nat, res: Result)
    requires i <= |items|
  {
    && Ran(there, src, srcRoot, dstRoot, items[..i]) == Some(now)
    && res.files == FilesIn(items[..i]) && res.bytes == BytesOf(src, srcRoot, items[..i])
  }

  /** From t, with n bytes of the item counted: nothing done, or broken off inside its file. */
  predicate StopsIn(t: Tree, now: Tree, src: Tree, srcRoot: Path, dstRoot: Path, item: Item, n: int) {
    || (now == t && n == 0)
    || (n >= 0 && !item.isDir && Broken(src, At(srcRoot, item.rel), t, At(dstRoot, item.rel), n, now))
  }

  /** Where RunSet stopped: k items have been carried out, and perhaps some bytes of the next. */
  predicate Stopped(there: Tree, now: Tree, src: Tree, srcRoot: Path, dstRoot: Path, items: seq<Item>, k: nat, bytes: nat)
    requires k <= |items|
  {
    var ran, n := Ran(there, src, srcRoot, dstRoot, items[..k]), bytes - BytesOf(src, srcRoot, items[..k]);
    ran.Some? && if k == |items| then now == ran.value && n == 0 else StopsIn(ran.value, now, src, srcRoot, dstRoot, items[k], n)
  }

  /** How a run ends: after all items, or at item k for a reason that holds; files, bytes and skipped links counted. */
  predicate Halted(
    there: Tree, now: Tree, src: Tree, srcRoot: Path, dstRoot: Path, items: seq<Item>, skipped: nat, k: nat, res: Result, fault: Fault)
  {
    && k <= |items| && (fault == Ok <==> k == |items|)
    && Stopped(there, now, src, srcRoot, dstRoot, items, k, res.bytes)
    && res.files == FilesIn(items[..k]) && res.skipped == skipped
    && (fault == Ok ==> res.bytes == BytesOf(src, srcRoot, items[..k]))
    && (fault != Ok ==> Explains(fault, Ran(there, src, srcRoot, dstRoot, items[..k]).value, src, srcRoot, dstRoot, items[k]))
    && fault != NotEmpty
  }

  lemma RunsOn(there: Tree, was: Tree, now: Tree, src: Tree, srcRoot: Path, dstRoot: Path, items: seq<Item>, i: nat, res: Result, n: nat)
    requires i < |items| && Running(there, was, src, srcRoot, dstRoot, items, i, res)
    requires Lands(was, src, srcRoot, dstRoot, items[i]) == Some(now) && n == SizeAt(src, srcRoot, items[i])
    ensures Running(there, now, src, srcRoot, dstRoot, items, i + 1,
                    Result(res.files + if items[i].isDir then 0 else 1, res.bytes + n, res.skipped))
  {
    RanNext(there, src, srcRoot, dstRoot, items, i);
    CountsNext(src, srcRoot, items, i);
  }

  lemma HaltsHere(
    there: Tree, was: Tree, now: Tree, src: Tree, srcRoot: Path, dstRoot: Path, items: seq<Item>, i: nat, res: Result, n: nat, fault: Fault)
    requires i < |items| && Running(there, was, src, srcRoot, dstRoot, items, i, res)
    requires fault != Ok && fault != NotEmpty && Explains(fault, was, src, srcRoot, dstRoot, items[i])
    requires StopsIn(was, now, src, srcRoot, dstRoot, items[i], n)
    ensures Halted(there, now, src, srcRoot, dstRoot, items, res.skipped, i, res.(bytes := res.bytes + n), fault)
  {
  }

  lemma HaltsAtTheEnd(there: Tree, now: Tree, src: Tree, srcRoot: Path, dstRoot: Path, items: seq<Item>, res: Result)
    requires Running(there, now, src, srcRoot, dstRoot, items, |items|, res)
    ensures Halted(there, now, src, srcRoot, dstRoot, items, res.skipped, |items|, res, Ok)
  {
  }

  /** The item's file is as t has it, or gone; gone if any of its bytes were counted. */
  predicate IntactOrGone(t: Tree, now: Tree, dstRoot: Path, item: Item, n: int) {
    (now == t && n == 0) || (!item.isDir && now == t - {At(dstRoot, item.rel)})
  }

  lemma StopsIntactOrGone(there: Tree, t: Tree, now: Tree, src: Tree, srcRoot: Path, dstRoot: Path, item: Item, n: int)
    requires Clear(there, At(dstRoot, item.rel)) && NoNewLinks(there, t)
    requires StopsIn(t, now, src, srcRoot, dstRoot, item, n)
    ensures IntactOrGone(t, now, dstRoot, item, n)
  {
    if !(now == t && n == 0) {
      BrokenWhenClear(there, t, src, At(srcRoot, item.rel), At(dstRoot, item.rel), n, now);
    }
  }

  lemma NextIntactOrGone(there: Tree, now: Tree, src: Tree, srcRoot: Path, dstRoot: Path, items: seq<Item>, k: nat, bytes: nat)
    requires WellFormed(there) && k < |items| && Clear(there, At(dstRoot, items[k].rel))
    requires forall i | 0 <= i < |items| :: ValidPath(At(dstRoot, items[i].rel))
    requires Stopped(there, now, src, srcRoot, dstRoot, items, k, bytes)
    ensures IntactOrGone(Ran(there, src, srcRoot, dstRoot, items[..k]).value, now, dstRoot, items[k],
                         bytes - BytesOf(src, srcRoot, items[..k]))
  {
    RanKeepsForm(there, src, srcRoot, dstRoot, items[..k]);
    StopsIntactOrGone(there, Ran(there, src, srcRoot, dstRoot, items[..k]).value, now, src, srcRoot, dstRoot, items[k],
                      bytes - BytesOf(src, srcRoot, items[..k]));
  }

  /** Without links in the way the first k items are at their own places, and of the next there is all there was or nothing. */
  lemma StoppedWhenClear(there: Tree, now: Tree, src: Tree, srcRoot: Path, dstRoot: Path, items: seq<Item>, k: nat, bytes: nat)
    requires WellFormed(there) && k <= |items| && AllClear(there, dstRoot, items)
    requires forall i | 0 <= i < |items| :: ValidPath(At(dstRoot, items[i].rel))
    requires Stopped(there, now, src, srcRoot, dstRoot, items, k, bytes)
    ensures LeavesWhole(there, now, src, srcRoot, dstRoot, items, k, bytes)
  {
    RanWhenClear(there, src, srcRoot, dstRoot, items, k);
    if k < |items| {
      NextIntactOrGone(there, now, src, srcRoot, dstRoot, items, k, bytes);
    }
  }

  /** The first k items have landed, and the next one's file is whole or gone. */
  predicate LeavesWhole(there: Tree, now: Tree, src: Tree, srcRoot: Path, dstRoot: Path, items: seq<Item>, k: nat, bytes: nat)
    requires k <= |items|
  {
    var arrived, n := Arrived(there, src, srcRoot, dstRoot, items, k), bytes - BytesOf(src, srcRoot, items[..k]);
    if k == |items| then now == arrived && n == 0 else IntactOrGone(arrived, now, dstRoot, items[k], n)
  }

  /** The run broke off inside a file: something was written, or the next item's name is gone. */
  predicate BrokeOff(there: Tree, now: Tree, src: Tree, srcRoot: Path, dstRoot: Path, items: seq<Item>, k: nat, bytes: nat)
    requires k <= |items|
  {
    var ran := Ran(there, src, srcRoot, dstRoot, items[..k]);
    ran.Some? && (now != ran.value || bytes != BytesOf(src, srcRoot, items[..k]))
  }

  /** The item's file is gone if the name it was given is no link; if it is one, what it leads to has n of its bytes. */
  predicate CleansUp(there: Tree, now: Tree, src: Tree, srcRoot: Path, dstRoot: Path, item: Item, n: int) {
    var from, to := At(srcRoot, item.rel), At(dstRoot, item.rel);
    && from in src && src[from].File? && 0 <= n <= |src[from].data|
    && Follow(there, to).Some?
    && (Follow(there, to).value !in now <==> !LastIsLink(there, to))
    && (LastIsLink(there, to) ==> now[Follow(there, to).value] == File(src[from].data[..n]))
  }

  /** Told from the destination as it was before the run. */
  lemma StoppedCleansUpWhen(there: Tree, now: Tree, src: Tree, srcRoot: Path, dstRoot: Path, items: seq<Item>, k: nat, bytes: nat)
    requires WellFormed(there) && k <= |items| && forall i | 0 <= i < |items| :: ValidPath(At(dstRoot, items[i].rel))
    requires Stopped(there, now, src, srcRoot, dstRoot, items, k, bytes)
    requires BrokeOff(there, now, src, srcRoot, dstRoot, items, k, bytes)
    ensures k < |items| && CleansUp(there, now, src, srcRoot, dstRoot, items[k], bytes - BytesOf(src, srcRoot, items[..k]))
  {
    var ran, to := Ran(there, src, srcRoot, dstRoot, items[..k]).value, At(dstRoot, items[k].rel);
    RanKeepsForm(there, src, srcRoot, dstRoot, items[..k]);
    SameLinksSameWay(there, ran, to, MAX_LINKS);
    SameLinksSameLast(there, ran, to);
    BrokenCleansUpWhen(src, At(srcRoot, items[k].rel), ran, to, bytes - BytesOf(src, srcRoot, items[..k]), now);
  }

  /**
   * What a run that stopped at item k leaves, told from the destination as it
   * was: what was carried out is at its own places exactly if no link was in
   * the way of that; a file broken off in is gone exactly if its own name was
   * no link; and without links in the way everything is whole.
   */
  predicate Leaves(there: Tree, now: Tree, src: Tree, srcRoot: Path, dstRoot: Path, items: seq<Item>, k: nat, bytes: nat)
    requires k <= |items| && Ran(there, src, srcRoot, dstRoot, items[..k]).Some?
  {
    && (Ran(there, src, srcRoot, dstRoot, items[..k]).value == Arrived(there, src, srcRoot, dstRoot, items, k) <==>
        AllClear(there, dstRoot, items[..k]))
    && (BrokeOff(there, now, src, srcRoot, dstRoot, items, k, bytes) ==>
          k < |items| && CleansUp(there, now, src, srcRoot, dstRoot, items[k], bytes - BytesOf(src, srcRoot, items[..k])))
    && (AllClear(there, dstRoot, items) ==> LeavesWhole(there, now, src, srcRoot, dstRoot, items, k, bytes))
  }

  lemma StoppedLeaves(there: Tree, now: Tree, src: Tree, srcRoot: Path, dstRoot: Path, items: seq<Item>, k: nat, bytes: nat)
    requires WellFormed(there) && k <= |items| && forall i | 0 <= i < |items| :: ValidPath(At(dstRoot, items[i].rel))
    requires Stopped(there, now, src, srcRoot, dstRoot, items, k, bytes)
    ensures Leaves(there, now, src, srcRoot, dstRoot, items, k, bytes)
  {
    RanArrivesWhen(there, src, srcRoot, dstRoot, items[..k]);
    if BrokeOff(there, now, src, srcRoot, dstRoot, items, k, bytes) {
      StoppedCleansUpWhen(there, now, src, srcRoot, dstRoot, items, k, bytes);
    }
    if AllClear(there, dstRoot, items) {
      StoppedWhenClear(there, now, src, srcRoot, dstRoot, items, k, bytes);
    }
  }
}
