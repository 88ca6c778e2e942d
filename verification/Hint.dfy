/** The status line's shortcut hint (hintFor in internal/ui/app.go): what stays when it does not fit. */
module Hint {
  import opened Basics

  /** A binding as the hint sees it; `short` is its word, "" for none. */
  datatype Binding = Binding(keys: string, short: string, priority: int)

  datatype Item = Item(text: string, priority: int)

  // ---------------------------------------------------------------- ranks

  /** i is kept before j: more important, or as important and further left. */
  predicate Beats(items: seq<Item>, i: int, j: int)
    requires 0 <= i < |items| && 0 <= j < |items|
  {
    items[i].priority > items[j].priority || (items[i].priority == items[j].priority && i < j)
  }

  function Beaters(items: seq<Item>, j: int): set<int>
    requires 0 <= j < |items|
  {
    set i | 0 <= i < |items| && Beats(items, i, j)
  }

  function Rank(items: seq<Item>, j: int): nat
    requires 0 <= j < |items|
  {
    |Beaters(items, j)|
  }

  /** The positions among the first n of rank below k, from left to right. */
  function Best(items: seq<Item>, k: int, n: nat): seq<int>
    requires n <= |items|
  {
    if n == 0 then [] else Best(items, k, n - 1) + if Rank(items, n - 1) < k then [n - 1] else []
  }

  lemma {:induction false} BestAre(items: seq<Item>, k: int, n: nat)
    requires n <= |items|
    ensures Rising(Best(items, k, n), n)
    ensures forall i :: i in Best(items, k, n) <==> 0 <= i < n && Rank(items, i) < k
  {
    if n > 0 {
      BestAre(items, k, n - 1);
    }
  }

  /** Positions below n, from left to right. */
  predicate Rising(places: seq<int>, n: int) {
    && (forall p | 0 <= p < |places| :: 0 <= places[p] < n)
    && (forall p, q | 0 <= p < q < |places| :: places[p] < places[q])
  }

  function At(items: seq<Item>, places: seq<int>): (r: seq<Item>)
    ensures |r| == |places|
  {
    seq(|places|, p requires 0 <= p < |places| => if 0 <= places[p] < |items| then items[places[p]] else Item("", 0))
  }

  /** The k most important, ties to the left, as declared. */
  function Top(items: seq<Item>, k: int): seq<Item> { At(items, Best(items, k, |items|)) }

  lemma RanksDiffer(items: seq<Item>, i: int, j: int)
    requires 0 <= i < |items| && 0 <= j < |items| && Beats(items, i, j)
    ensures Rank(items, i) < Rank(items, j)
  {
    assert Beaters(items, i) < Beaters(items, j) by {
      assert i in Beaters(items, j) && i !in Beaters(items, i);
    }
    SmallerSet(Beaters(items, i), Beaters(items, j));
  }

  lemma SmallerSet(a: set<int>, b: set<int>)
    requires a < b
    ensures |a| < |b|
  {
    assert b == a + (b - a);
    assert b - a != {};
  }

  function Range(n: nat): (r: set<int>)
    ensures |r| == n && forall i :: i in r <==> 0 <= i < n
  {
    if n == 0 then {} else Range(n - 1) + {n - 1}
  }

  lemma AllRanked(items: seq<Item>, i: int)
    requires 0 <= i < |items|
    ensures Rank(items, i) < |items|
  {
    assert i in Range(|items|) && i !in Beaters(items, i);
    SmallerSet(Beaters(items, i), Range(|items|));
  }

  /** Where the line must give way: the last of the least important. */
  predicate IsWorst(shown: seq<Item>, worst: int) {
    && 0 <= worst < |shown|
    && (forall p | 0 <= p < |shown| :: shown[worst].priority <= shown[p].priority)
    && (forall p | worst < p < |shown| :: shown[worst].priority < shown[p].priority)
  }

  /** If k are shown, the one that gives way has the last rank among them. */
  lemma WorstHasLastRank(items: seq<Item>, k: nat, worst: int)
    requires |Best(items, k, |items|)| == k && IsWorst(Top(items, k), worst)
    ensures 0 <= Best(items, k, |items|)[worst] < |items|
    ensures Rank(items, Best(items, k, |items|)[worst]) == k - 1
  {
    var best := Best(items, k, |items|);
    BestAre(items, k, |items|);
    assert best[worst] in best;
    var w := best[worst];
    var others := set p | 0 <= p < k && p != worst :: best[p];
    forall p | 0 <= p < k && p != worst ensures Beats(items, best[p], w) {
      assert Top(items, k)[p] == items[best[p]];
    }
    assert others <= Beaters(items, w);
    ImageSize(best, worst);
    Subset(others, Beaters(items, w));
  }

  lemma Subset(a: set<int>, b: set<int>)
    requires a <= b
    ensures |a| <= |b|
  {
    if a != b {
      SmallerSet(a, b);
    }
  }

  lemma {:induction false} ImageSize(s: seq<int>, skip: int)
    requires 0 <= skip < |s| && forall p, q | 0 <= p < q < |s| :: s[p] < s[q]
    ensures |set p | 0 <= p < |s| && p != skip :: s[p]| == |s| - 1
  {
    ElementsSize(s);
    assert (set p | 0 <= p < |s| && p != skip :: s[p]) == (set p | 0 <= p < |s| :: s[p]) - {s[skip]};
  }

  lemma {:induction false} ElementsSize(s: seq<int>)
    requires forall p, q | 0 <= p < q < |s| :: s[p] < s[q]
    ensures |set p | 0 <= p < |s| :: s[p]| == |s|
  {
    if s != [] {
      var init := s[..|s| - 1];
      ElementsSize(init);
      var all, rest := set p | 0 <= p < |s| :: s[p], set p | 0 <= p < |init| :: init[p];
      assert all == rest + {s[|s| - 1]} by {
        forall x | x in all ensures x in rest + {s[|s| - 1]} {
          var p :| 0 <= p < |s| && s[p] == x;
          if p < |init| {
            assert init[p] == x;
          }
        }
        forall x | x in rest ensures x in all {
          var p :| 0 <= p < |init| && init[p] == x;
          assert s[p] == x;
        }
      }
      assert s[|s| - 1] !in rest;
    }
  }

  lemma WithoutOn<T>(init: seq<T>, x: T, p: int)
    requires 0 <= p < |init|
    ensures Without(init + [x], p) == Without(init, p) + [x]
  {
  }

  lemma LessOn(items: seq<Item>, k: int, n: nat, p: int)
    requires 0 < n <= |items| && 0 <= p < |Best(items, k, n - 1)| && Rank(items, n - 1) != k - 1
    requires Best(items, k - 1, n - 1) == Without(Best(items, k, n - 1), p)
    ensures Best(items, k - 1, n) == Without(Best(items, k, n), p)
  {
    if Rank(items, n - 1) < k {
      WithoutOn(Best(items, k, n - 1), n - 1, p);
    }
  }

  lemma LessAtEnd(items: seq<Item>, k: int, n: nat)
    requires 0 < n <= |items| && Rank(items, n - 1) == k - 1
    ensures Best(items, k, n) == Best(items, k, n - 1) + [n - 1] && Best(items, k - 1, n) == Best(items, k, n - 1)
  {
    NoneOfRank(items, k, n - 1, n - 1);
  }

  /** The last position, when it is among the best, is the last of them. */
  lemma EndIsLast(items: seq<Item>, k: int, n: nat, p: int)
    requires 0 < n <= |items| && 0 <= p < |Best(items, k, n)| && Best(items, k, n)[p] == n - 1
    ensures p == |Best(items, k, n - 1)|
  {
    BestAre(items, k, n - 1);
  }

  lemma InsideStays(items: seq<Item>, k: int, n: nat, p: int)
    requires 0 < n <= |items| && 0 <= p < |Best(items, k, n)| && Best(items, k, n)[p] != n - 1
    ensures p < |Best(items, k, n - 1)| && Best(items, k, n)[p] == Best(items, k, n - 1)[p]
    ensures 0 <= Best(items, k, n)[p] < n - 1
  {
    BestAre(items, k, n - 1);
  }

  lemma WithoutLast<T>(init: seq<T>, x: T)
    ensures Without(init + [x], |init|) == init
  {
  }

  /** Leaving out the one of the last rank leaves the next smaller selection. */
  lemma {:induction false} OneLess(items: seq<Item>, k: int, n: nat, p: int)
    requires n <= |items| && 0 <= p < |Best(items, k, n)| && 0 <= Best(items, k, n)[p] < n
    requires Rank(items, Best(items, k, n)[p]) == k - 1
    ensures Best(items, k - 1, n) == Without(Best(items, k, n), p)
  {
    var at := Best(items, k, n)[p];
    if at == n - 1 {
      EndIsLast(items, k, n, p);
      LessAtEnd(items, k, n);
      WithoutLast(Best(items, k, n - 1), n - 1);
    } else {
      InsideStays(items, k, n, p);
      OneLess(items, k, n - 1, p);
      if Rank(items, n - 1) == k - 1 {
        OneOfEachRank(items, n - 1, at);
      }
      LessOn(items, k, n, p);
    }
  }

  lemma AtWithout(items: seq<Item>, places: seq<int>, p: int)
    requires 0 <= p < |places|
    ensures At(items, Without(places, p)) == Without(At(items, places), p)
  {
  }

  lemma OneOfEachRank(items: seq<Item>, i: int, j: int)
    requires 0 <= i < |items| && 0 <= j < |items| && Rank(items, i) == Rank(items, j)
    ensures i == j
  {
    if i != j {
      if Beats(items, i, j) {
        RanksDiffer(items, i, j);
      } else {
        RanksDiffer(items, j, i);
      }
    }
  }

  lemma {:induction false} NoneOfRank(items: seq<Item>, k: int, n: nat, i: int)
    requires n <= i < |items| && Rank(items, i) == k - 1
    ensures Best(items, k - 1, n) == Best(items, k, n)
  {
    if n > 0 {
      NoneOfRank(items, k, n - 1, i);
      if Rank(items, n - 1) == k - 1 {
        OneOfEachRank(items, n - 1, i);
      }
    }
  }

  lemma {:induction false} EverythingFirst(items: seq<Item>, n: nat)
    requires n <= |items|
    ensures Best(items, |items|, n) == seq(n, i => i)
  {
    if n > 0 {
      EverythingFirst(items, n - 1);
      AllRanked(items, n - 1);
    }
  }

  lemma TopOfAll(items: seq<Item>)
    ensures Top(items, |items|) == items && |Best(items, |items|, |items|)| == |items|
  {
    EverythingFirst(items, |items|);
  }

  /** Dropping the worst of the k shown leaves the k - 1 most important. */
  lemma DropTheWorst(items: seq<Item>, k: nat, worst: int)
    requires |Best(items, k, |items|)| == k && IsWorst(Top(items, k), worst)
    ensures Top(items, k - 1) == Without(Top(items, k), worst) && |Best(items, k - 1, |items|)| == k - 1
  {
    WorstHasLastRank(items, k, worst);
    OneLess(items, k, |items|, worst);
    AtWithout(items, Best(items, k, |items|), worst);
  }

  // ---------------------------------------------------------------- the hint

  function Line(items: seq<Item>): string { Join(seq(|items|, i requires 0 <= i < |items| => items[i].text), " · ") }

  function Listed(bindings: seq<Binding>): seq<Item> {
    if bindings == [] then []
    else
      var b := bindings[|bindings| - 1];
      Listed(bindings[..|bindings| - 1]) +
      if b.priority <= 0 || b.short == "" then [] else [Item(b.keys + " " + b.short, b.priority)]
  }

  predicate IsShown(b: Binding) { b.priority > 0 && b.short != "" }

  /** The items are the bindings at these places, each as its keys and its word. */
  predicate ItemsAt(bindings: seq<Binding>, places: seq<int>, items: seq<Item>) {
    && Rising(places, |bindings|) && |places| == |items|
    && forall p | 0 <= p < |places| ::
         items[p] == Item(bindings[places[p]].keys + " " + bindings[places[p]].short, bindings[places[p]].priority)
  }

  lemma OneMoreItem(bindings: seq<Binding>, b: Binding, places: seq<int>, items: seq<Item>)
    requires ItemsAt(bindings, places, items)
    ensures ItemsAt(bindings + [b], places, items)
    ensures ItemsAt(bindings + [b], places + [|bindings|], items + [Item(b.keys + " " + b.short, b.priority)])
  {
  }

  /** They are all the bindings with a word and a priority, in their order. */
  lemma {:induction false} ListedAre(bindings: seq<Binding>) returns (places: seq<int>)
    ensures ItemsAt(bindings, places, Listed(bindings))
    ensures forall i :: i in places <==> 0 <= i < |bindings| && IsShown(bindings[i])
  {
    places := [];
    if bindings != [] {
      var n := |bindings| - 1;
      var init := bindings[..n];
      places := ListedAre(init);
      OneMoreItem(init, bindings[n], places, Listed(init));
      assert bindings == init + [bindings[n]];
      assert forall i | 0 <= i < n :: init[i] == bindings[i];
      if IsShown(bindings[n]) {
        places := places + [n];
      }
    }
  }

  predicate Fits(items: seq<Item>, width: string -> int, room: int, k: int) { width(Line(Top(items, k))) <= room }

  /** No more than k items fit. */
  predicate NoMoreFit(items: seq<Item>, width: string -> int, room: int, k: int) {
    forall m | k < m <= |items| :: !Fits(items, width, room, m)
  }

  /** k is the largest number of items that fit, or 1 if no number does. */
  predicate FitsBest(items: seq<Item>, width: string -> int, room: int, k: nat) {
    1 <= k <= |items| && (k == 1 || Fits(items, width, room, k)) && NoMoreFit(items, width, room, k)
  }

  lemma OneFewer(items: seq<Item>, width: string -> int, room: int, k: int)
    requires NoMoreFit(items, width, room, k) && !Fits(items, width, room, k)
    ensures NoMoreFit(items, width, room, k - 1)
  {
  }

  method ListItems(bindings: seq<Binding>) returns (items: seq<Item>)
    ensures items == Listed(bindings)
  {
    items := [];
    var n := 0;
    while n < |bindings|
      invariant 0 <= n <= |bindings| && items == Listed(bindings[..n])
    {
      var b := bindings[n];
      assert bindings[..n + 1][..n] == bindings[..n];
      n := n + 1;
      if b.priority <= 0 || b.short == "" {
        continue;
      }
      items := items + [Item(b.keys + " " + b.short, b.priority)];
    }
    assert bindings[..n] == bindings;
  }

  /** `width` measures a line on the terminal. */
  method HintFor(bindings: seq<Binding>, width: string -> int, room: int) returns (hint: string)
    ensures Listed(bindings) == [] ==> hint == ""
    ensures Listed(bindings) != [] ==>
              exists k: nat :: FitsBest(Listed(bindings), width, room, k) && hint == Line(Top(Listed(bindings), k))
  {
    var items := ListItems(bindings);
    if |items| == 0 {
      return "";
    }
    items := Shorten(items, width, room);
    hint := Line(items);
  }

  method Shorten(all: seq<Item>, width: string -> int, room: int) returns (items: seq<Item>)
    requires all != []
    ensures FitsBest(all, width, room, |items|) && items == Top(all, |items|)
  {
    items := all;
    TopOfAll(all);
    while |items| > 1 && width(Line(items)) > room
      invariant 1 <= |items| <= |all| && items == Top(all, |items|)
      invariant NoMoreFit(all, width, room, |items|)
    {
      var worst := Worst(items);
      OneFewer(all, width, room, |items|);
      DropTheWorst(all, |items|, worst);
      items := Without(items, worst);
    }
  }

  /** Scanning to the right, so that ties lose the one furthest from the front. */
  method Worst(items: seq<Item>) returns (worst: int)
    requires items != []
    ensures IsWorst(items, worst)
  {
    worst := 0;
    var i := 0;
    while i < |items|
      invariant 0 <= i <= |items| && 0 <= worst < |items| && (i == 0 ==> worst == 0) && (i > 0 ==> worst < i)
      invariant forall p | 0 <= p < i :: items[worst].priority <= items[p].priority
      invariant forall p | worst < p < i :: items[worst].priority < items[p].priority
    {
      if items[i].priority <= items[worst].priority {
        worst := i;
      }
      i := i + 1;
    }
  }

  /** Whatever is left out is less important than all that is shown, or as important and further right. */
  lemma ShownBeatHidden(items: seq<Item>, k: int, i: int, j: int)
    requires i in Best(items, k, |items|) && 0 <= j < |items| && j !in Best(items, k, |items|)
    ensures 0 <= i < |items| && Beats(items, i, j)
  {
    BestAre(items, k, |items|);
    if !Beats(items, i, j) {
      RanksDiffer(items, j, i);
    }
  }

  /** For every k up to their number there are k of them. */
  lemma {:induction false} TopHasK(items: seq<Item>, k: nat)
    requires k <= |items|
    ensures |Top(items, k)| == k
    decreases |items| - k
  {
    if k == |items| {
      TopOfAll(items);
    } else {
      TopHasK(items, k + 1);
      var worst := WorstOf(Top(items, k + 1));
      DropTheWorst(items, k + 1, worst);
    }
  }

  ghost function WorstOf(shown: seq<Item>): (worst: int)
    requires shown != []
    ensures IsWorst(shown, worst)
  {
    var n := |shown| - 1;
    if n == 0 then 0
    else
      var w := WorstOf(shown[..n]);
      if shown[n].priority <= shown[w].priority then n else w
  }
}
