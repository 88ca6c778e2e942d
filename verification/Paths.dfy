/**
 * Slash-separated relative paths and the path segments they stand for, as
 * internal/sftp/tree.go builds and takes apart.
 */
module Paths {
  /** An absolute path as its segments; [] is the root directory. */
  type Path = seq<string>

  /** What a directory listing can name. */
  predicate ValidName(name: string) {
    name != "" && name != "." && name != ".." && '/' !in name
  }

  /** strings.Split(s, "/"). */
  function Split(s: string, from: nat := 0): (segs: seq<string>)
    requires from <= |s|
    ensures |segs| > 0
    decreases |s| - from
  {
    if from == |s| then [s]
    else if s[from] == '/' then [s[..from]] + Split(s[from + 1..])
    else Split(s, from + 1)
  }

  /** A RelPath as segments: "" is the root of the copy itself. */
  function Segments(rel: string): Path {
    if rel == "" then [] else Split(rel)
  }

  /** The RelPath Plan gives to an entry of the directory at rel. */
  function ChildRel(rel: string, name: string): string {
    if rel == "" then name else rel + "/" + name
  }

  lemma SplitAtom(s: string, from: nat)
    requires from <= |s| && '/' !in s[from..]
    ensures Split(s, from) == [s]
    decreases |s| - from
  {
    if from < |s| {
      assert s[from..][0] == s[from];
      assert s[from..][1..] == s[from + 1..];
      SplitAtom(s, from + 1);
    }
  }

  lemma {:induction false} SplitLast(a: string, name: string, from: nat)
    requires from <= |a| && '/' !in name
    ensures Split(a + "/" + name, from) == Split(a, from) + [name]
    decreases |a| - from, |a|
  {
    var s := a + "/" + name;
    if from == |a| {
      assert s[from] == '/' && s[..from] == a && s[from + 1..] == name;
      SplitAtom(name, 0);
    } else if a[from] == '/' {
      assert s[from] == '/' && s[..from] == a[..from] && s[from + 1..] == a[from + 1..] + "/" + name;
      SplitLast(a[from + 1..], name, 0);
    } else {
      assert s[from] == a[from];
      SplitLast(a, name, from + 1);
    }
  }

  /** Gluing a name on with a slash and splitting again is appending a segment. */
  lemma SegmentsOfChild(rel: string, name: string)
    requires ValidName(name)
    ensures Segments(ChildRel(rel, name)) == Segments(rel) + [name]
    ensures ChildRel(rel, name) != ""
  {
    if rel == "" {
      SplitAtom(name, 0);
    } else {
      SplitLast(rel, name, 0);
    }
  }
}
