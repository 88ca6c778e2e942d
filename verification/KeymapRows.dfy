/** Adding a row that is new to rows that are sound. */
module KeymapRows {
  import opened KeymapModel

  predicate NoRepeats(keys: seq<Key>) { forall i, j | 0 <= i < j < |keys| :: keys[i] != keys[j] }

  /** A row that would be sound alone. */
  predicate SoundRow(c: Context, b: Binding) {
    && b.action.Action? && b.action.context == c
    && (b.doc || NoRepeats(b.keys))
    && (Mandatory(b.action) ==> b.keys != [] && !b.doc)
  }

  /** Not the same action and no key of both. */
  predicate Apart(a: Binding, b: Binding) {
    a.action != b.action && (a.doc || b.doc || forall key | key in a.keys :: key !in b.keys)
  }

  ghost predicate NewTo(b: Binding, r: Rows) { forall i | 0 <= i < |r| :: Apart(r[i], b) }

  lemma {:induction false} TwiceIsTwoPlaces(keys: seq<Key>, key: Key)
    ensures multiset(keys)[key] >= 1 ==> key in keys
    ensures multiset(keys)[key] >= 2 ==> exists j, k :: 0 <= j < k < |keys| && keys[j] == keys[k] == key
  {
    if keys != [] {
      var n := |keys| - 1;
      assert keys == keys[..n] + [keys[n]];
      TwiceIsTwoPlaces(keys[..n], key);
      if keys[n] == key && key in keys[..n] {
        var j :| 0 <= j < n && keys[..n][j] == key;
        assert keys[j] == keys[n] == key;
      }
    }
  }

  lemma NoNewClash(r: Rows, b: Binding, key: Key)
    requires !Clash(r, key) && NewTo(b, r) && (b.doc || NoRepeats(b.keys))
    ensures !Clash(r + [b], key)
  {
    var q := r + [b];
    TwiceIsTwoPlaces(b.keys, key);
    forall i | HoldsKey(q, i, key) ensures !HoldsTwice(q, i, key) {
      assert i < |r| ==> HoldsKey(r, i, key) && (HoldsTwice(q, i, key) ==> HoldsTwice(r, i, key));
      assert i == |r| ==> q[i] == b;
    }
    forall i, j | i < j && HoldsKey(q, i, key) ensures !HoldsKey(q, j, key) {
      if j < |q| {
        assert HoldsKey(r, i, key);
        assert Apart(r[i], b);
        assert j < |r| && HoldsKey(q, j, key) ==> HoldsKey(r, j, key);
      }
    }
  }

  /** Rows that are sound stay sound with one more that is new to each of them. */
  lemma AddRow(c: Context, r: Rows, b: Binding)
    requires SoundRows(c, r) && SoundRow(c, b) && NewTo(b, r)
    ensures SoundRows(c, r + [b])
  {
    forall key ensures !Clash(r + [b], key) {
      assert !Clash(r, key);
      NoNewClash(r, b, key);
    }
    assert forall i | 0 <= i < |r| :: Apart(r[i], b);
  }

  // ---------------------------------------------------------------- whole tables

  /** b is new to the first i rows. */
  predicate NewToFirst(b: Binding, r: Rows, i: nat)
    requires i <= |r|
  {
    i == 0 || (Apart(r[i - 1], b) && NewToFirst(b, r, i - 1))
  }

  /** Each of the first k rows is new to those before it. */
  predicate EachNew(c: Context, r: Rows, k: nat)
    requires k <= |r|
  {
    k == 0 || (SoundRow(c, r[k - 1]) && NewToFirst(r[k - 1], r, k - 1) && EachNew(c, r, k - 1))
  }

  /** Each of the first k rows of s is new to the first n rows of r. */
  predicate EachNewTo(s: Rows, k: nat, r: Rows, n: nat)
    requires k <= |s| && n <= |r|
  {
    k == 0 || (NewToFirst(s[k - 1], r, n) && EachNewTo(s, k - 1, r, n))
  }

  lemma {:induction false} NewToThem(b: Binding, r: Rows, i: nat)
    requires i <= |r| && NewToFirst(b, r, i)
    ensures NewTo(b, r[..i])
  {
    if i > 0 {
      NewToThem(b, r, i - 1);
      assert forall j | 0 <= j < i - 1 :: r[..i - 1][j] == r[..i][j];
    }
  }

  lemma {:induction false} AddEach(c: Context, r: Rows, k: nat)
    requires k <= |r| && EachNew(c, r, k)
    ensures SoundRows(c, r[..k])
  {
    if k == 0 {
      assert r[..0] == [];
    } else {
      AddEach(c, r, k - 1);
      NewToThem(r[k - 1], r, k - 1);
      AddRow(c, r[..k - 1], r[k - 1]);
      assert r[..k] == r[..k - 1] + [r[k - 1]];
    }
  }

  lemma AllNewAreSound(c: Context, r: Rows, n: nat)
    requires n == |r| && EachNew(c, r, n)
    ensures SoundRows(c, r)
  {
    AddEach(c, r, n);
    assert r[..n] == r;
  }

  lemma {:induction false} RowsAreApart(s: Rows, k: nat, r: Rows)
    requires k <= |s| && EachNewTo(s, k, r, |r|)
    ensures forall j | 0 <= j < k :: NewTo(s[j], r)
  {
    if k > 0 {
      RowsAreApart(s, k - 1, r);
      NewToThem(s[k - 1], r, |r|);
      assert r[..|r|] == r;
    }
  }

  lemma {:induction false} AddFirst(c: Context, r: Rows, s: Rows, k: nat)
    requires k <= |s| && SoundRows(c, r) && EachNew(c, s, k) && (forall j | 0 <= j < |s| :: NewTo(s[j], r))
    ensures SoundRows(c, r + s[..k])
  {
    if k == 0 {
      assert r + s[..0] == r;
    } else {
      AddFirst(c, r, s, k - 1);
      var q := r + s[..k - 1];
      NewToThem(s[k - 1], s, k - 1);
      forall i | 0 <= i < |q| ensures Apart(q[i], s[k - 1]) {
        assert i < |r| ==> NewTo(s[k - 1], r) && q[i] == r[i];
        assert i >= |r| ==> q[i] == s[..k - 1][i - |r|];
      }
      AddRow(c, q, s[k - 1]);
      assert r + s[..k] == q + [s[k - 1]];
    }
  }

  /** A second part of a table, each row new to those before it there and to the first part. */
  lemma AddPart(c: Context, r: Rows, s: Rows)
    requires SoundRows(c, r) && EachNew(c, s, |s|) && (forall j | 0 <= j < |s| :: NewTo(s[j], r))
    ensures SoundRows(c, r + s)
  {
    AddFirst(c, r, s, |s|);
    assert s[..|s|] == s;
  }

  /** A table in three parts, each row new to those before it in its part and to the parts before. */
  lemma ThreeParts(c: Context, r1: Rows, n1: nat, r2: Rows, n2: nat, r3: Rows, n3: nat)
    requires n1 == |r1| && n2 == |r2| && n3 == |r3|
    requires EachNew(c, r1, n1) && EachNew(c, r2, n2) && EachNew(c, r3, n3)
    requires EachNewTo(r2, n2, r1, n1) && EachNewTo(r3, n3, r1, n1) && EachNewTo(r3, n3, r2, n2)
    ensures SoundRows(c, r1 + r2 + r3)
  {
    AllNewAreSound(c, r1, n1);
    RowsAreApart(r2, n2, r1);
    AddPart(c, r1, r2);
    RowsAreApart(r3, n3, r1);
    RowsAreApart(r3, n3, r2);
    forall j | 0 <= j < n3 ensures NewTo(r3[j], r1 + r2) {
      assert NewTo(r3[j], r1) && NewTo(r3[j], r2);
      assert forall i | n1 <= i < n1 + n2 :: (r1 + r2)[i] == r2[i - n1];
    }
    AddPart(c, r1 + r2, r3);
  }
}
