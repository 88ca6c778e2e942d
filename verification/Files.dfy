/**
 * One side of a transfer: a finite file system with symbolic links, and the
 * operations internal/sftp performs on it. Any operation may fail with Io at
 * any time; the other faults say what the caller got wrong.
 */
module Files {
  import opened Options
  import opened Basics
  import opened Paths

  /** A link knows whether it is listed as a directory, and where it leads. */
  datatype Node = File(data: seq<byte>) | Dir | Link(toDir: bool, to: Path)

  type Tree = map<Path, Node>

  datatype Fault = Ok | Io | Cancelled | Missing | Blocked | NotEmpty | NotRegular

  /** A row of a listing. A link to a directory reads as both a link and a directory. */
  datatype Entry = Entry(name: string, link: bool, isDir: bool, size: nat)

  function EntryOf(name: string, n: Node): Entry {
    match n
    case File(data) => Entry(name, false, false, |data|)
    case Dir => Entry(name, false, true, 0)
    case Link(toDir, _) => Entry(name, true, toDir, 0)
  }

  function Parent(p: Path): Path
    requires p != []
  {
    p[..|p| - 1]
  }

  /** q is p or somewhere below it. */
  predicate Under(q: Path, p: Path) { p <= q }

  lemma UnderParent(q: Path, p: Path)
    requires p != []
    ensures Under(p, q) <==> q == p || Under(Parent(p), q)
  {
  }

  predicate ChildOf(p: Path, dir: Path) { p != [] && Parent(p) == dir }

  /** p sits in a directory, under a name a listing can show. */
  predicate Housed(t: Tree, p: Path)
    requires p != []
  {
    ValidName(p[|p| - 1]) && Parent(p) in t && t[Parent(p)].Dir?
  }

  ghost predicate WellFormed(t: Tree) {
    && [] in t && t[[]].Dir?
    && (forall p {:trigger Housed(t, p)} | p in t && p != [] :: Housed(t, p))
    && (forall p | p in t && t[p].Link? :: ValidPath(t[p].to))
  }

  predicate ValidPath(p: Path) { forall i | 0 <= i < |p| :: ValidName(p[i]) }

  /** The nodes at or below p. */
  ghost function Below(t: Tree, p: Path): set<Path> { set q | q in t && Under(q, p) }

  /** The directories on the way to p, and p itself. */
  function DirsTo(p: Path): (t: Tree)
    ensures forall q :: q in t <==> Under(p, q)
    ensures forall q | q in t :: t[q] == Dir
  {
    if p == [] then map[[] := Dir]
    else
      assert forall q :: Under(p, q) <==> q == p || Under(Parent(p), q) by {
        forall q ensures Under(p, q) <==> q == p || Under(Parent(p), q) { UnderParent(q, p); }
      }
      DirsTo(Parent(p))[p := Dir]
  }

  lemma PrefixesExist(t: Tree, p: Path, q: Path)
    requires WellFormed(t) && p in t && Under(p, q)
    ensures q in t && (q != p ==> t[q].Dir?)
    decreases |p|
  {
    if q != p {
      assert Housed(t, p);
      PrefixesExist(t, Parent(p), q);
    }
  }

  /** The rows so far are children of dir, each once, and all but those in rest. */
  ghost predicate ListsBut(t: Tree, dir: Path, entries: seq<Entry>, rest: set<Path>) {
    && (forall p | p in rest :: p in t && ChildOf(p, dir))
    && (forall i | 0 <= i < |entries| :: IsRow(t, dir, entries[i]) && dir + [entries[i].name] !in rest)
    && (forall i, j | 0 <= i < j < |entries| :: entries[i].name != entries[j].name)
    && (forall p | p in t && ChildOf(p, dir) && p !in rest :: HasRow(dir, entries, p))
  }

  predicate IsRow(t: Tree, dir: Path, e: Entry) {
    dir + [e.name] in t && e == EntryOf(e.name, t[dir + [e.name]])
  }

  ghost predicate HasRow(dir: Path, entries: seq<Entry>, p: Path) {
    exists i :: 0 <= i < |entries| && dir + [entries[i].name] == p
  }

  /** The rows of a listing are exactly the children of dir, each once. */
  ghost predicate Lists(t: Tree, dir: Path, entries: seq<Entry>) { ListsBut(t, dir, entries, {}) }

  lemma ListsOneMore(t: Tree, dir: Path, entries: seq<Entry>, rest: set<Path>, p: Path)
    requires ListsBut(t, dir, entries, rest) && p in rest
    ensures ListsBut(t, dir, entries + [EntryOf(p[|p| - 1], t[p])], rest - {p})
  {
    var more := entries + [EntryOf(p[|p| - 1], t[p])];
    assert p == dir + [p[|p| - 1]];
    assert dir + [more[|entries|].name] == p;
    forall q | q in t && ChildOf(q, dir) && q !in rest - {p} ensures HasRow(dir, more, q) {
      if q != p {
        assert HasRow(dir, entries, q);
        var i :| 0 <= i < |entries| && dir + [entries[i].name] == q;
        assert dir + [more[i].name] == q;
      }
    }
    forall i | 0 <= i < |entries| ensures more[i].name != p[|p| - 1] {
      assert dir + [entries[i].name] !in rest;
    }
  }

  /** t with exactly these bytes in the file at p. */
  function WithFile(t: Tree, p: Path, data: seq<byte>): Tree { t[p := File(data)] }

  lemma WithFileTwice(t: Tree, p: Path, a: seq<byte>, b: seq<byte>)
    ensures WithFile(WithFile(t, p, a), p, b) == WithFile(t, p, b)
    ensures WithFile(t, p, a)[p] == File(a)
    ensures WithFile(t, p, a) - {p} == t - {p}
    ensures WithFile(t, p, a) == t + map[p := File(a)]
  {
  }

  /** Something in t keeps a directory, or a file, from being made at p. */
  ghost predicate Obstructed(t: Tree, p: Path, dir: bool) {
    if dir then exists q :: Under(p, q) && q in t && t[q] != Dir
    else p == [] || Parent(p) !in t || !t[Parent(p)].Dir? || (p in t && !t[p].File?)
  }

  lemma FileKeepsForm(t: Tree, p: Path, data: seq<byte>)
    requires WellFormed(t) && p != [] && Housed(t, p) && (p in t ==> t[p].File?)
    ensures WellFormed(WithFile(t, p, data))
  {
    forall q | q in WithFile(t, p, data) && q != [] ensures Housed(WithFile(t, p, data), q) {
      assert Housed(t, q);
    }
  }

  lemma RemovalKeepsForm(t: Tree, p: Path)
    requires WellFormed(t) && p != [] && forall q | q in t :: !ChildOf(q, p)
    ensures WellFormed(t - {p})
  {
    forall q | q in t - {p} && q != [] ensures Housed(t - {p}, q) {
      assert Housed(t, q) && !ChildOf(q, p);
    }
  }

  /** A file or a link has nothing below it. */
  lemma LeafIsAlone(t: Tree, p: Path)
    requires WellFormed(t) && p in t && !t[p].Dir?
    ensures Below(t, p) == {p}
  {
    forall q | q in t ensures !ChildOf(q, p) {
      assert q != [] ==> Housed(t, q);
    }
    ChildlessIsAlone(t, p);
  }

  // ---------------------------------------------------------------- following links

  /** A chain of links longer than this is an error. */
  const MAX_LINKS: nat := 40

  /** Where p leads when every link on the way, and p itself, is followed; if anywhere. */
  function Follow(t: Tree, p: Path, left: nat := MAX_LINKS): Option<Path>
    decreases left, |p|
  {
    if p == [] then Some([])
    else
      var dir := Follow(t, Parent(p), left);
      if dir.None? then None
      else
        var q := dir.value + [p[|p| - 1]];
        if q !in t || !t[q].Link? then Some(q)
        else if left == 0 then None
        else Follow(t, t[q].to, left - 1)
  }

  /** No link is at p or on the way there. */
  predicate Clear(t: Tree, p: Path) { forall q | q in t && Under(p, q) :: !t[q].Link? }

  lemma ClearUp(t: Tree, p: Path)
    requires Clear(t, p) && p != []
    ensures Clear(t, Parent(p)) && Under(p, Parent(p)) && Parent(p) + [p[|p| - 1]] == p
  {
    forall q | q in t && Under(Parent(p), q) ensures !t[q].Link? {
      assert Under(p, q);
    }
  }

  lemma {:induction false} ClearLeadsToItself(t: Tree, p: Path, left: nat)
    requires Clear(t, p)
    ensures Follow(t, p, left) == Some(p)
    decreases |p|
  {
    if p != [] {
      ClearUp(t, p);
      ClearLeadsToItself(t, Parent(p), left);
      assert p in t ==> Under(p, p);
    }
  }

  /** What a path leads to is no link, and a place a file can be put. */
  lemma {:induction false} FollowEnds(t: Tree, p: Path, left: nat)
    requires WellFormed(t) && ValidPath(p)
    ensures var q := Follow(t, p, left); q.Some? ==> ValidPath(q.value) && (q.value in t ==> !t[q.value].Link?)
    decreases left, |p|
  {
    if p != [] {
      FollowEnds(t, Parent(p), left);
      var dir := Follow(t, Parent(p), left);
      if dir.Some? {
        var q := dir.value + [p[|p| - 1]];
        if q in t && t[q].Link? && left > 0 {
          FollowEnds(t, t[q].to, left - 1);
        }
      }
    }
  }

  /** os.MkdirAll: a directory that is there, perhaps through links, is enough; else its parent first. */
  function Made(t: Tree, p: Path): Option<Tree>
    decreases |p|
  {
    var q := Follow(t, p);
    if q.Some? && q.value in t then
      if t[q.value].Dir? then Some(t) else None
    else if p == [] then None
    else
      var up := Made(t, Parent(p));
      if up.None? then None else MadeIn(up.value, p)
  }

  /** mkdir of p alone, which follows links on the way only. */
  function MadeIn(t: Tree, p: Path): Option<Tree>
    requires p != []
  {
    var dir := Follow(t, Parent(p));
    if dir.None? || dir.value !in t || !t[dir.value].Dir? || dir.value + [p[|p| - 1]] in t then None
    else Some(t[dir.value + [p[|p| - 1]] := Dir])
  }

  /** Whether a file can be opened for writing at p. */
  predicate CanOpen(t: Tree, p: Path) {
    var q := Follow(t, p);
    && q.Some? && q.value != [] && Parent(q.value) in t && t[Parent(q.value)].Dir?
    && (q.value in t ==> t[q.value].File?)
  }

  /** Unlinking p, which follows links on the way only. */
  function Unlinked(t: Tree, p: Path): Tree {
    if p == [] then t
    else
      var dir := Follow(t, Parent(p));
      if dir.None? then t
      else
        var at := dir.value + [p[|p| - 1]];
        if at in t && !t[at].Dir? then t - {at} else t
  }

  /** No link of t' is new. */
  predicate NoNewLinks(t: Tree, t': Tree) { forall q | q in t' && t'[q].Link? :: q in t && t[q] == t'[q] }

  /** And none of t's is gone. */
  predicate LinksStay(t: Tree, t': Tree) { forall q | q in t && t[q].Link? :: q in t' && t'[q] == t[q] }

  /** Where a path leads depends on the links alone. */
  lemma {:induction false} SameLinksSameWay(t: Tree, t': Tree, p: Path, left: nat)
    requires NoNewLinks(t, t') && LinksStay(t, t')
    ensures Follow(t', p, left) == Follow(t, p, left)
    decreases left, |p|
  {
    if p != [] {
      SameLinksSameWay(t, t', Parent(p), left);
      var dir := Follow(t, Parent(p), left);
      if dir.Some? {
        var q := dir.value + [p[|p| - 1]];
        assert (q in t && t[q].Link?) <==> (q in t' && t'[q].Link?);
        if q in t && t[q].Link? && left > 0 {
          SameLinksSameWay(t, t', t[q].to, left - 1);
        }
      }
    }
  }

  /** Links on the way followed, the entry p names is itself a link. */
  predicate LastIsLink(t: Tree, p: Path) {
    && p != [] && Follow(t, Parent(p)).Some?
    && var at := Follow(t, Parent(p)).value + [p[|p| - 1]];
       at in t && t[at].Link?
  }

  lemma SameLinksSameLast(t: Tree, t': Tree, p: Path)
    requires NoNewLinks(t, t') && LinksStay(t, t')
    ensures LastIsLink(t', p) == LastIsLink(t, p)
  {
    if p != [] {
      SameLinksSameWay(t, t', Parent(p), MAX_LINKS);
    }
  }

  /** If it is none, it is where the path leads. */
  lemma LeadsToItsEntry(t: Tree, p: Path)
    requires p != [] && Follow(t, p).Some? && !LastIsLink(t, p)
    ensures Follow(t, Parent(p)).Some? && Follow(t, p).value == Follow(t, Parent(p)).value + [p[|p| - 1]]
  {
  }

  lemma ClearStays(t: Tree, t': Tree, p: Path)
    requires Clear(t, p) && NoNewLinks(t, t')
    ensures Clear(t', p)
  {
  }

  lemma DirKeepsForm(t: Tree, p: Path)
    requires WellFormed(t) && p != [] && Housed(t, p) && p !in t
    ensures WellFormed(t[p := Dir])
  {
    var now := t[p := Dir];
    forall q | q in now && q != [] ensures Housed(now, q) {
      assert Housed(t, q);
    }
  }

  lemma {:induction false} MadeKeepsForm(t: Tree, p: Path)
    requires WellFormed(t) && ValidPath(p)
    ensures Made(t, p).Some? ==> WellFormed(Made(t, p).value) && NoNewLinks(t, Made(t, p).value) && LinksStay(t, Made(t, p).value)
    decreases |p|
  {
    var q := Follow(t, p);
    if !(q.Some? && q.value in t) && p != [] && Made(t, Parent(p)).Some? {
      MadeKeepsForm(t, Parent(p));
      var up := Made(t, Parent(p)).value;
      if MadeIn(up, p).Some? {
        var at := Follow(up, Parent(p)).value + [p[|p| - 1]];
        assert Parent(at) == Follow(up, Parent(p)).value;
        DirKeepsForm(up, at);
      }
    }
  }

  lemma DirsToOneMore(t: Tree, p: Path)
    requires p != []
    ensures (t + DirsTo(Parent(p)))[p := Dir] == t + DirsTo(p)
  {
    forall q ensures Under(p, q) <==> q == p || Under(Parent(p), q) {
      UnderParent(q, p);
    }
  }

  lemma MadeInWhenClear(t: Tree, p: Path)
    requires Clear(t, p) && p != [] && p !in t && !Obstructed(t, Parent(p), true)
    ensures MadeIn(t + DirsTo(Parent(p)), p) == Some(t + DirsTo(p))
  {
    var up := t + DirsTo(Parent(p));
    ClearUp(t, p);
    forall q | q in up && Under(Parent(p), q) ensures !up[q].Link? {
    }
    ClearLeadsToItself(up, Parent(p), MAX_LINKS);
    assert Parent(p) in up && up[Parent(p)] == Dir;
    assert |p| > |Parent(p)| && !Under(Parent(p), p) && p !in up;
    DirsToOneMore(t, p);
  }

  /** Without links in the way the directories on the way are made, unless something is where one should be. */
  lemma {:induction false} MadeWhenClear(t: Tree, p: Path)
    requires WellFormed(t) && ValidPath(p) && Clear(t, p)
    ensures Made(t, p) == if Obstructed(t, p, true) then None else Some(t + DirsTo(p))
    decreases |p|
  {
    ClearLeadsToItself(t, p, MAX_LINKS);
    if p in t {
      forall q | Under(p, q) ensures q in t && (q != p ==> t[q].Dir?) {
        PrefixesExist(t, p, q);
      }
      if t[p].Dir? {
        assert t + DirsTo(p) == t;
      }
    } else {
      ClearUp(t, p);
      MadeWhenClear(t, Parent(p));
      forall q ensures Under(p, q) <==> q == p || Under(Parent(p), q) {
        UnderParent(q, p);
      }
      if !Obstructed(t, Parent(p), true) {
        MadeInWhenClear(t, p);
      }
    }
  }

  /** Without links in the way a file can be opened unless something is in its place or its directory is missing. */
  lemma OpensWhenClear(t: Tree, p: Path)
    requires Clear(t, p)
    ensures Follow(t, p) == Some(p) && (CanOpen(t, p) <==> !Obstructed(t, p, false))
    ensures p in t && !t[p].Dir? && p != [] ==> Unlinked(t, p) == t - {p}
  {
    ClearLeadsToItself(t, p, MAX_LINKS);
    if p != [] {
      ClearUp(t, p);
      ClearLeadsToItself(t, Parent(p), MAX_LINKS);
    }
  }

  lemma UnlinkedKeepsForm(t: Tree, p: Path)
    requires WellFormed(t)
    ensures WellFormed(Unlinked(t, p)) && NoNewLinks(t, Unlinked(t, p))
  {
    if Unlinked(t, p) != t {
      var at := Follow(t, Parent(p)).value + [p[|p| - 1]];
      forall q | q in t ensures !ChildOf(q, at) {
        assert q != [] ==> Housed(t, q);
      }
      RemovalKeepsForm(t, at);
    }
  }

  class FileSystem {
    var nodes: Tree
    /** Every path Remove took away, in order. */
    var removed: seq<Path>

    ghost predicate Valid()
      reads this
    {
      WellFormed(nodes)
    }

    constructor (nodes: Tree)
      requires WellFormed(nodes)
      ensures Valid() && this.nodes == nodes && removed == []
    {
      this.nodes := nodes;
      removed := [];
    }

    /** Lstat: a missing path is an answer, not a fault. */
    method Stat(p: Path) returns (e: Entry, found: bool, fault: Fault)
      ensures fault == Ok || fault == Io
      ensures fault == Ok ==> (found <==> p in nodes) && (found ==> e == EntryOf("", nodes[p]).(isDir := nodes[p].Dir?))
    {
      e, found, fault := Entry("", false, false, 0), p in nodes, Ok;
      if * {
        fault := Io;
      } else if found {
        e := EntryOf("", nodes[p]).(isDir := nodes[p].Dir?);
      }
    }

    method List(dir: Path) returns (entries: seq<Entry>, fault: Fault)
      requires Valid()
      ensures fault == Ok ==> dir in nodes && nodes[dir].Dir? && Lists(nodes, dir, entries)
      ensures fault == Ok || fault == Io || fault == Missing
      ensures fault == Missing ==> dir !in nodes || !nodes[dir].Dir?
    {
      entries, fault := [], Ok;
      if dir !in nodes || !nodes[dir].Dir? {
        return [], Missing;
      }
      if * {
        return [], Io;
      }
      var rest := set p | p in nodes && ChildOf(p, dir);
      while rest != {}
        invariant ListsBut(nodes, dir, entries, rest)
        decreases rest
      {
        var p :| p in rest;
        ListsOneMore(nodes, dir, entries, rest, p);
        entries := entries + [EntryOf(p[|p| - 1], nodes[p])];
        rest := rest - {p};
      }
    }

    /** Creates p and whatever is missing above it, whole or not at all. */
    method MkdirAll(p: Path) returns (fault: Fault)
      requires Valid() && ValidPath(p)
      modifies this
      ensures Valid() && removed == old(removed)
      ensures fault in {Ok, Io, Blocked}
      ensures fault == Ok ==> Made(old(nodes), p) == Some(nodes)
      ensures fault != Ok ==> nodes == old(nodes)
      ensures fault == Blocked ==> Made(nodes, p) == None
    {
      var made := Made(nodes, p);
      if made.None? {
        return Blocked;
      }
      if * {
        return Io;
      }
      MadeKeepsForm(nodes, p);
      nodes := made.value;
      return Ok;
    }

    /** Opens p for writing, empty; `at` is the file that is open. */
    method Create(p: Path) returns (at: Path, fault: Fault)
      requires Valid() && ValidPath(p)
      modifies this
      ensures Valid() && removed == old(removed)
      ensures fault in {Ok, Io, Blocked}
      ensures fault == Ok ==> CanOpen(old(nodes), p) && Follow(old(nodes), p) == Some(at) && nodes == WithFile(old(nodes), at, [])
      ensures fault != Ok ==> nodes == old(nodes)
      ensures fault == Blocked ==> !CanOpen(nodes, p)
    {
      at := [];
      if !CanOpen(nodes, p) {
        return at, Blocked;
      }
      if * {
        return at, Io;
      }
      at := Follow(nodes, p).value;
      FollowEnds(nodes, p, MAX_LINKS);
      FileKeepsForm(nodes, at, []);
      nodes := nodes[at := File([])];
      return at, Ok;
    }

    /** Writes some or all of chunk at the end of the file at p. */
    method Write(p: Path, chunk: seq<byte>) returns (written: nat, fault: Fault)
      requires Valid() && p in nodes && nodes[p].File?
      modifies this
      ensures Valid() && removed == old(removed)
      ensures written <= |chunk| && fault in {Ok, Io}
      ensures nodes == WithFile(old(nodes), p, old(nodes)[p].data + chunk[..written])
    {
      written, fault := |chunk|, Ok;
      if * {
        written :| 0 <= written <= |chunk|;
        if * { fault := Io; }
      }
      assert p != [] && Housed(nodes, p);
      FileKeepsForm(nodes, p, nodes[p].data + chunk[..written]);
      nodes := nodes[p := File(nodes[p].data + chunk[..written])];
    }

    /** Unlinks p, if it can; its failure is ignored by every caller, so it has none. */
    method Discard(p: Path)
      requires Valid()
      modifies this
      ensures Valid() && removed == old(removed) && nodes == Unlinked(old(nodes), p)
    {
      UnlinkedKeepsForm(nodes, p);
      nodes := Unlinked(nodes, p);
    }

    /** Removes a file, a link or an empty directory. */
    method Remove(p: Path) returns (fault: Fault)
      requires Valid()
      modifies this
      ensures Valid()
      ensures fault in {Ok, Io, Missing, NotEmpty}
      ensures fault == Ok ==> p in old(nodes) && p != [] && nodes == old(nodes) - {p} && removed == old(removed) + [p]
      ensures fault == Ok ==> Below(old(nodes), p) == {p}
      ensures fault != Ok ==> nodes == old(nodes) && removed == old(removed)
      ensures fault == Missing ==> p !in nodes
      ensures fault == NotEmpty ==> p == [] || Below(nodes, p) != {p}
    {
      if p !in nodes {
        return Missing;
      }
      if p == [] || exists q | q in nodes :: ChildOf(q, p) {
        if p != [] {
          var q :| q in nodes && ChildOf(q, p);
          assert q in Below(nodes, p);
        }
        return NotEmpty;
      }
      if * {
        return Io;
      }
      ChildlessIsAlone(nodes, p);
      RemovalKeepsForm(nodes, p);
      nodes := nodes - {p};
      removed := removed + [p];
      return Ok;
    }
  }

  /** Whatever is below p is below, or is, one of its children. */
  lemma ChildOnTheWay(t: Tree, p: Path, q: Path) returns (c: Path)
    requires WellFormed(t) && q in t && Under(q, p) && q != p
    ensures c in t && ChildOf(c, p) && Under(q, c)
  {
    c := q[..|p| + 1];
    PrefixesExist(t, q, c);
    assert Parent(c) == p;
  }

  /** A node without children has nothing below it. */
  lemma ChildlessIsAlone(t: Tree, p: Path)
    requires WellFormed(t) && p in t && forall q | q in t :: !ChildOf(q, p)
    ensures Below(t, p) == {p}
  {
    forall q | q in t && Under(q, p) ensures q == p {
      if q != p {
        var c := ChildOnTheWay(t, p, q);
      }
    }
  }
}
