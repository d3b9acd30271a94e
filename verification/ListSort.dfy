/** Bottom-up mergesort of a linked list, in place: singly or doubly linked, linear or
    circular. */
module ListSort {
  import opened Words

  class Element {
    var next: Element?
    var prev: Element?
    const i: int

    constructor (i: int)
      ensures this.i == i && next == null && prev == null
    {
      this.i := i;
      next, prev := null, null;
    }
  }

  /** cmp */
  function Cmp(a: Element, b: Element): int {
    if a.i < b.i then -1 else if a.i > b.i then 1 else 0
  }

  // ----- what a stable sort is -----

  ghost predicate Sorted(s: seq<Element>) {
    forall a, b :: 0 <= a < b < |s| ==> s[a].i <= s[b].i
  }

  /** The elements with value v, in their order. */
  function Filter(s: seq<Element>, v: int): seq<Element> {
    if s == [] then []
    else if s[0].i == v then [s[0]] + Filter(s[1..], v)
    else Filter(s[1..], v)
  }

  /** The same elements, and equal ones in the same order. */
  ghost predicate StablePermutation(s: seq<Element>, t: seq<Element>) {
    forall v :: Filter(s, v) == Filter(t, v)
  }

  lemma {:induction false} FilterConcat(a: seq<Element>, b: seq<Element>, v: int)
    ensures Filter(a + b, v) == Filter(a, v) + Filter(b, v)
  {
    if a == [] {
      assert a + b == b;
    } else {
      assert (a + b)[1..] == a[1..] + b;
      FilterConcat(a[1..], b, v);
    }
  }

  lemma {:induction false} FilterCount(s: seq<Element>, e: Element)
    ensures multiset(s)[e] == multiset(Filter(s, e.i))[e]
  {
    if s != [] {
      assert s == [s[0]] + s[1..];
      FilterCount(s[1..], e);
    }
  }

  lemma StableIsPermutation(s: seq<Element>, t: seq<Element>)
    requires StablePermutation(s, t)
    ensures multiset(s) == multiset(t)
  {
    forall e: Element ensures multiset(s)[e] == multiset(t)[e] {
      FilterCount(s, e);
      FilterCount(t, e);
      assert Filter(s, e.i) == Filter(t, e.i);
    }
  }

  lemma {:induction false} FilterKeeps(s: seq<Element>, a: nat, b: nat) returns (x: nat, y: nat)
    requires a <= b < |s| && s[a].i == s[b].i
    ensures x <= y < |Filter(s, s[a].i)| && Filter(s, s[a].i)[x] == s[a] && Filter(s, s[a].i)[y] == s[b]
    ensures a < b ==> x < y
  {
    var v := s[a].i;
    if a > 0 {
      x, y := FilterKeeps(s[1..], a - 1, b - 1);
      if s[0].i == v {
        x, y := x + 1, y + 1;
      }
    } else if b > 0 {
      var z;
      z, y := FilterKeeps(s[1..], b - 1, b - 1);
      x, y := 0, y + 1;
    } else {
      x, y := 0, 0;
    }
  }

  lemma {:induction false} FilterFrom(t: seq<Element>, v: int, x: nat, y: nat) returns (c: nat, d: nat)
    requires x <= y < |Filter(t, v)|
    ensures c <= d < |t| && t[c] == Filter(t, v)[x] && t[d] == Filter(t, v)[y]
    ensures x < y ==> c < d
  {
    if t[0].i != v {
      c, d := FilterFrom(t[1..], v, x, y);
      c, d := c + 1, d + 1;
    } else if x > 0 {
      c, d := FilterFrom(t[1..], v, x - 1, y - 1);
      c, d := c + 1, d + 1;
    } else if y > 0 {
      c, d := FilterFrom(t[1..], v, y - 1, y - 1);
      c, d := 0, d + 1;
    } else {
      c, d := 0, 0;
    }
  }

  /** Of two equal elements the one that was first stays first. */
  lemma StableKeepsOrder(s: seq<Element>, t: seq<Element>, a: nat, b: nat) returns (c: nat, d: nat)
    requires StablePermutation(s, t) && a < b < |s| && s[a].i == s[b].i
    ensures c < d < |t| && t[c] == s[a] && t[d] == s[b]
  {
    hide Filter;
    var x, y := FilterKeeps(s, a, b);
    assert Filter(t, s[a].i) == Filter(s, s[a].i);
    c, d := FilterFrom(t, s[a].i, x, y);
  }

  /** There is only one stable sort of a list. */
  lemma {:induction false} StableSortUnique(s: seq<Element>, t: seq<Element>)
    requires StablePermutation(s, t) && Sorted(s) && Sorted(t)
    ensures s == t
  {
    hide Filter, StablePermutation;
    StableIsPermutation(s, t);
    assert |s| == |multiset(s)| == |multiset(t)| == |t|;
    if s != [] {
      SameFirst(s, t);
      SameRest(s, t);
      SortedTails(s, t);
      StableSortUnique(s[1..], t[1..]);
      assert s == [s[0]] + s[1..] && t == [t[0]] + t[1..];
    }
  }

  lemma SameFirst(s: seq<Element>, t: seq<Element>)
    requires StablePermutation(s, t) && multiset(s) == multiset(t) && Sorted(s) && Sorted(t) && s != [] && t != []
    ensures s[0] == t[0]
  {
    assert s[0] in multiset(t) && t[0] in multiset(s);
    assert s[0] in t && t[0] in s;
    var v := s[0].i;
    assert t[0].i == v;
    FilterFirst(s, v);
    FilterFirst(t, v);
    assert Filter(s, v)[0] == s[0] && Filter(t, v)[0] == t[0];
  }

  lemma SameRest(s: seq<Element>, t: seq<Element>)
    requires StablePermutation(s, t) && s != [] && t != [] && s[0] == t[0]
    ensures StablePermutation(s[1..], t[1..])
  {
    forall u ensures Filter(s[1..], u) == Filter(t[1..], u) {
      assert Filter(s, u) == Filter(t, u);
      if u == s[0].i {
        assert Filter(s, u)[1..] == Filter(s[1..], u) && Filter(t, u)[1..] == Filter(t[1..], u);
      }
    }
  }

  // ----- one merge -----

  function Merge(x: seq<Element>, y: seq<Element>): (r: seq<Element>)
    ensures |r| == |x| + |y|
    decreases |x| + |y|
  {
    if x == [] then y
    else if y == [] then x
    else if Cmp(x[0], y[0]) <= 0 then [x[0]] + Merge(x[1..], y)
    else [y[0]] + Merge(x, y[1..])
  }

  lemma {:induction false} MergeMembers(x: seq<Element>, y: seq<Element>, e: Element)
    ensures e in Merge(x, y) <==> e in x || e in y
    decreases |x| + |y|
  {
    if x == [] {
    } else if y == [] {
    } else if Cmp(x[0], y[0]) <= 0 {
      assert x == [x[0]] + x[1..];
      MergeMembers(x[1..], y, e);
    } else {
      assert y == [y[0]] + y[1..];
      MergeMembers(x, y[1..], e);
    }
  }

  lemma {:induction false} MergeSorted(x: seq<Element>, y: seq<Element>)
    requires Sorted(x) && Sorted(y)
    ensures Sorted(Merge(x, y))
    decreases |x| + |y|
  {
    if x != [] && y != [] {
      if Cmp(x[0], y[0]) <= 0 {
        MergeSorted(x[1..], y);
        SmallestFirst(x[0], Merge(x[1..], y), x[1..], y);
      } else {
        MergeSorted(x, y[1..]);
        SmallestFirst(y[0], Merge(x, y[1..]), x, y[1..]);
      }
    }
  }

  lemma SmallestFirst(e: Element, m: seq<Element>, x: seq<Element>, y: seq<Element>)
    requires Sorted(m) && m == Merge(x, y)
    requires (forall k :: 0 <= k < |x| ==> e.i <= x[k].i) && forall k :: 0 <= k < |y| ==> e.i <= y[k].i
    ensures Sorted([e] + m)
  {
    forall k | 0 <= k < |m| ensures e.i <= m[k].i {
      MergeMembers(x, y, m[k]);
    }
  }

  lemma {:induction false} MergeStable(x: seq<Element>, y: seq<Element>, v: int)
    requires Sorted(x) && Sorted(y)
    ensures Filter(Merge(x, y), v) == Filter(x, v) + Filter(y, v)
    decreases |x| + |y|
  {
    hide Filter, Sorted, Merge;
    NoneOf([], v);
    MergeFirst(x, y);
    if x != [] && y != [] {
      FilterFirst(x, v);
      FilterFirst(y, v);
      FilterFirst(Merge(x, y), v);
      SortedTails(x, y);
      if Cmp(x[0], y[0]) <= 0 {
        MergeStable(x[1..], y, v);
        Regroup(if x[0].i == v then [x[0]] else [], Filter(x[1..], v), Filter(y, v));
      } else {
        MergeStable(x, y[1..], v);
        if y[0].i == v {
          NoneOf(x, v);
        }
      }
    }
  }

  lemma MergeFirst(x: seq<Element>, y: seq<Element>)
    ensures x == [] ==> Merge(x, y) == y
    ensures y == [] ==> Merge(x, y) == x
    ensures x != [] && y != [] ==>
              if Cmp(x[0], y[0]) <= 0 then Merge(x, y)[0] == x[0] && Merge(x, y)[1..] == Merge(x[1..], y)
              else Merge(x, y)[0] == y[0] && Merge(x, y)[1..] == Merge(x, y[1..])
  {
  }

  lemma FilterFirst(s: seq<Element>, v: int)
    requires s != []
    ensures Filter(s, v) == (if s[0].i == v then [s[0]] else []) + Filter(s[1..], v)
  {
  }

  lemma SortedTails(x: seq<Element>, y: seq<Element>)
    requires x != [] && y != [] && Sorted(x) && Sorted(y)
    ensures Sorted(x[1..]) && Sorted(y[1..])
    ensures Cmp(x[0], y[0]) > 0 ==> forall k :: 0 <= k < |x| ==> x[k].i > y[0].i
  {
  }

  lemma Regroup(a: seq<Element>, b: seq<Element>, c: seq<Element>)
    ensures a + (b + c) == (a + b) + c
  {
  }

  lemma {:induction false} NoneOf(x: seq<Element>, v: int)
    requires forall k :: 0 <= k < |x| ==> x[k].i != v
    ensures Filter(x, v) == []
  {
    if x != [] {
      NoneOf(x[1..], v);
    }
  }

  // ----- one pass -----

  function Min(a: nat, b: nat): nat {
    if a < b then a else b
  }

  /** Merge neighbouring runs of width w. */
  function PassOf(s: seq<Element>, w: nat): (r: seq<Element>)
    requires w > 0
    ensures |r| == |s|
    decreases |s|
  {
    if s == [] then []
    else
      var mid, end := Min(w, |s|), Min(2 * w, |s|);
      Merge(s[..mid], s[mid..end]) + PassOf(s[end..], w)
  }

  /** All the runs of width w are sorted. */
  ghost predicate RunsSorted(s: seq<Element>, w: nat)
    requires w > 0
    decreases |s|
  {
    if |s| <= w then Sorted(s) else Sorted(s[..w]) && RunsSorted(s[w..], w)
  }

  lemma {:induction false} SinglesSorted(s: seq<Element>)
    ensures RunsSorted(s, 1)
    decreases |s|
  {
    if |s| > 1 {
      SinglesSorted(s[1..]);
    }
  }

  lemma FirstTwoRuns(s: seq<Element>, w: nat)
    requires w > 0 && RunsSorted(s, w)
    ensures var mid, end := Min(w, |s|), Min(2 * w, |s|);
            Sorted(s[..mid]) && Sorted(s[mid..end]) && RunsSorted(s[end..], w)
  {
    hide Sorted;
    assert s[..|s|] == s;
    NothingSorted(s[|s|..]);
    if |s| > w {
      var end, rest := Min(2 * w, |s|), s[w..];
      Slices(s, w, end);
      assert rest[..|rest|] == rest;
      if |rest| <= w {
        assert s[w..end] == rest;
      }
    }
  }

  lemma NothingSorted(s: seq<Element>)
    requires s == []
    ensures Sorted(s)
  {
  }

  lemma Slices(s: seq<Element>, a: nat, b: nat)
    requires a <= b <= |s|
    ensures s[a..][..b - a] == s[a..b] && s[a..][b - a..] == s[b..] && s[..a] + s[a..b] == s[..b]
            && s[..b] + s[b..] == s
  {
  }

  lemma {:induction false} PassSorts(s: seq<Element>, w: nat)
    requires w > 0 && RunsSorted(s, w)
    ensures RunsSorted(PassOf(s, w), 2 * w)
    decreases |s|
  {
    if s != [] {
      var mid, end := Min(w, |s|), Min(2 * w, |s|);
      FirstTwoRuns(s, w);
      MergeSorted(s[..mid], s[mid..end]);
      PassSorts(s[end..], w);
      var m, r := Merge(s[..mid], s[mid..end]), PassOf(s[end..], w);
      assert (m + r)[..end] == m && (m + r)[end..] == r;
      assert end == |s| ==> m + r == m;
    }
  }

  lemma PassUnfold(s: seq<Element>, w: nat)
    requires w > 0 && s != []
    ensures var mid, end := Min(w, |s|), Min(2 * w, |s|);
            PassOf(s, w) == Merge(s[..mid], s[mid..end]) + PassOf(s[end..], w)
  {
    hide Merge;
  }

  lemma PassOfNothing(s: seq<Element>, w: nat)
    requires w > 0 && s == []
    ensures PassOf(s, w) == []
  {
  }

  /** A pass keeps equal elements in their order. */
  lemma {:induction false} PassStable(s: seq<Element>, w: nat, v: int)
    requires w > 0 && RunsSorted(s, w)
    ensures Filter(PassOf(s, w), v) == Filter(s, v)
    decreases |s|
  {
    hide Filter, Merge, Sorted, PassOf, RunsSorted;
    if s == [] {
      PassOfNothing(s, w);
    } else {
      var mid, end := Min(w, |s|), Min(2 * w, |s|);
      FirstTwoRuns(s, w);
      var x, y, rest := s[..mid], s[mid..end], s[end..];
      Slices(s, mid, end);
      MergeStable(x, y, v);
      PassUnfold(s, w);
      PassStable(rest, w, v);
      FilterConcat(Merge(x, y), PassOf(rest, w), v);
      FilterConcat(x, y, v);
      FilterConcat(s[..end], rest, v);
    }
  }

  // ----- the links -----

  ghost predicate Distinct(s: seq<Element>) {
    forall a, b :: 0 <= a < b < |s| ==> s[a] != s[b]
  }

  ghost function Elements(s: seq<Element>): set<Element> {
    set e | e in s
  }

  /** What next holds behind element k of s; stop follows the last one. */
  function Successor(s: seq<Element>, k: nat, stop: Element?): Element? {
    if k + 1 < |s| then s[k + 1] else stop
  }

  /** What prev holds in element k. */
  function Predecessor(s: seq<Element>, k: nat, first: Element?): Element?
    requires k < |s|
  {
    if k > 0 then s[k - 1] else first
  }

  function At(s: seq<Element>, k: nat): Element? {
    if k < |s| then s[k] else null
  }

  /** Elements lo..hi of s still have their links. */
  ghost predicate Intact(s: seq<Element>, lo: nat, hi: nat, stop: Element?)
    requires hi <= |s|
    reads s
  {
    forall k :: lo <= k < hi ==> s[k].next == Successor(s, k, stop)
  }

  /** A list that is being built: its head, its tail, and the links between. */
  ghost predicate Built(s: seq<Element>, list: Element?, tail: Element?, isDouble: bool)
    reads s
  {
    && (s == [] ==> list == null && tail == null)
    && (s != [] ==> list == s[0] && tail == s[|s| - 1])
    && (forall k :: 0 <= k < |s| - 1 ==> s[k].next == s[k + 1])
    && (isDouble ==> forall k :: 0 <= k < |s| ==> s[k].prev == Predecessor(s, k, null))
  }

  /** A finished list. */
  ghost predicate IsList(s: seq<Element>, isCircular: bool)
    reads s
  {
    s != [] ==> Intact(s, 0, |s|, if isCircular then s[0] else null)
  }

  ghost predicate HasBackLinks(s: seq<Element>, isCircular: bool)
    reads s
  {
    forall k :: 0 <= k < |s| ==> s[k].prev == Predecessor(s, k, if isCircular then s[|s| - 1] else null)
  }

  /** Add the next element to the merged list. */
  method Append(e: Element, list: Element?, tail: Element?, isDouble: bool, ghost out: seq<Element>)
      returns (list': Element?)
    requires Built(out, list, tail, isDouble) && Distinct(out) && e !in out
    modifies (if tail == null then {} else {tail})`next, e`prev
    ensures Built(out + [e], list', e, isDouble) && Distinct(out + [e])
    ensures !isDouble ==> e.prev == old(e.prev)
  {
    hide Distinct;
    DistinctGrows(out, e);
    list' := list;
    if tail != null {
      tail.next := e;
    } else {
      list' := e;
    }
    if isDouble {
      e.prev := tail;
    }
    assert forall k :: 0 <= k < |out| ==> (out + [e])[k] == out[k];
  }

  lemma DistinctGrows(out: seq<Element>, e: Element)
    requires Distinct(out) && e !in out
    ensures Distinct(out + [e])
    ensures forall k :: 0 <= k < |out| ==> out[k] != e
    ensures forall k :: 0 <= k < |out| - 1 ==> out[k] != out[|out| - 1]
  {
  }

  // ----- merging two runs in place -----

  /** What is still to be merged of the two runs. */
  function ToMerge(s: seq<Element>, a: nat, mid: nat, b: nat, end: nat): seq<Element>
    requires a <= mid <= b <= end <= |s|
  {
    Merge(s[a..mid], s[b..end])
  }

  lemma TakeLeft(s: seq<Element>, a: nat, mid: nat, b: nat, end: nat)
    requires a < mid <= b <= end <= |s| && (b == end || Cmp(s[a], s[b]) <= 0)
    ensures ToMerge(s, a, mid, b, end) == [s[a]] + ToMerge(s, a + 1, mid, b, end)
  {
    var x, y := s[a..mid], s[b..end];
    assert x[1..] == s[a + 1..mid];
    assert y == [] ==> x == [s[a]] + x[1..];
  }

  lemma TakeRight(s: seq<Element>, a: nat, mid: nat, b: nat, end: nat)
    requires a <= mid <= b < end <= |s| && (a == mid || Cmp(s[a], s[b]) > 0)
    ensures ToMerge(s, a, mid, b, end) == [s[b]] + ToMerge(s, a, mid, b + 1, end)
  {
    var x, y := s[a..mid], s[b..end];
    assert y[1..] == s[b + 1..end];
    assert x == [] ==> y == [s[b]] + y[1..];
  }

  lemma Shift(out: seq<Element>, e: Element, rest: seq<Element>)
    ensures out + ([e] + rest) == (out + [e]) + rest
  {
  }

  /** None of out is among the elements a..mid and b.. of s. */
  ghost predicate Apart(out: seq<Element>, s: seq<Element>, a: nat, mid: nat, b: nat) {
    forall k, j :: 0 <= k < |out| && (a <= j < mid || b <= j) && 0 <= j < |s| ==> out[k] != s[j]
  }

  /** Where the next element of the merge comes from, and how p and q go on. */
  method Choose(p0: Element?, psize0: nat, q0: Element?, qsize0: nat, oldhead: Element, isCircular: bool,
      ghost s: seq<Element>, ghost a: nat, ghost mid: nat, ghost b: nat, ghost end: nat)
    returns (e: Element, p: Element?, psize: nat, q: Element?, qsize: nat, ghost fromP: bool, ghost compared: nat)
    requires a <= mid <= b <= end <= |s| && (a < mid || b < end) && Distinct(s) && oldhead == s[0]
    requires psize0 == mid - a && (a < mid ==> p0 == s[a])
    requires q0 == At(s, b) && (qsize0 > 0 && q0 != null <==> b < end)
    requires Intact(s, a, mid, if isCircular then s[0] else null)
             && Intact(s, b, |s|, if isCircular then s[0] else null)
    ensures compared <= 1 && if fromP then a < mid && e == s[a] else b < end && e == s[b]
    ensures var a', b' := if fromP then a + 1 else a, if fromP then b else b + 1;
            && ToMerge(s, a, mid, b, end) == [e] + ToMerge(s, a', mid, b', end)
            && psize == mid - a' && (a' < mid ==> p == s[a'])
            && q == At(s, b') && qsize == qsize0 - (b' - b)
  {
    hide ToMerge;
    p, psize, q, qsize, compared := p0, psize0, q0, qsize0, 0;
    if psize == 0 {
      TakeRight(s, a, mid, b, end);
      fromP, e, q, qsize := false, q, q.next, qsize - 1;
      if isCircular && q == oldhead { q := null; }
    } else if qsize == 0 || q == null {
      TakeLeft(s, a, mid, b, end);
      fromP, e, p, psize := true, p, p.next, psize - 1;
      if isCircular && p == oldhead { p := null; }
    } else if Cmp(p, q) <= 0 {
      TakeLeft(s, a, mid, b, end);
      fromP, e, p, psize, compared := true, p, p.next, psize - 1, 1;
      if isCircular && p == oldhead { p := null; }
    } else {
      TakeRight(s, a, mid, b, end);
      fromP, e, q, qsize, compared := false, q, q.next, qsize - 1, 1;
      if isCircular && q == oldhead { q := null; }
    }
  }

  /** What is built and what is left stay apart when an element moves over. */
  lemma MoveOver(out: seq<Element>, s: seq<Element>, a: nat, mid: nat, b: nat, fromP: bool, e: Element)
    requires Apart(out, s, a, mid, b) && Distinct(s) && a <= mid <= b <= |s|
    requires if fromP then a < mid && e == s[a] else b < |s| && e == s[b]
    ensures e !in out && Apart(out + [e], s, if fromP then a + 1 else a, mid, if fromP then b else b + 1)
    ensures out != [] ==> forall j :: 0 <= j < |s| && (a <= j < mid || b <= j) ==> s[j] != out[|out| - 1]
  {
  }

  /** Append, with what is still to be merged in view. */
  method AppendNext(e: Element, list: Element?, tail: Element?, isDouble: bool,
      ghost out: seq<Element>, ghost s: seq<Element>, ghost a: nat, ghost mid: nat, ghost b: nat, ghost fromP: bool,
        ghost stop: Element?)
    returns (list': Element?)
    requires Built(out, list, tail, isDouble) && Distinct(out) && Distinct(s) && a <= mid <= b <= |s|
             && Apart(out, s, a, mid, b)
    requires if fromP then a < mid && e == s[a] else b < |s| && e == s[b]
    requires Intact(s, a, mid, stop) && Intact(s, b, |s|, stop)
    modifies (if tail == null then {} else {tail})`next, e`prev
    ensures Built(out + [e], list', e, isDouble) && Distinct(out + [e])
    ensures Apart(out + [e], s, if fromP then a + 1 else a, mid, if fromP then b else b + 1)
    ensures Intact(s, a, mid, stop) && Intact(s, b, |s|, stop)
    ensures !isDouble ==> e.prev == old(e.prev)
  {
    hide Distinct, Apart, Built;
    MoveOver(out, s, a, mid, b, fromP, e);
    TailIsLast(out, list, tail, isDouble);
    list' := Append(e, list, tail, isDouble, out);
  }

  lemma TailIsLast(out: seq<Element>, list: Element?, tail: Element?, isDouble: bool)
    requires Built(out, list, tail, isDouble)
    ensures if out == [] then tail == null else list == out[0] && tail == out[|out| - 1] && list in out && tail in out
  {
  }

  lemma IntactNarrows(s: seq<Element>, a: nat, b: nat, mid: nat, fromP: bool, stop: Element?)
    requires a <= mid <= b <= |s| && Intact(s, a, mid, stop) && Intact(s, b, |s|, stop)
    ensures fromP ==> Intact(s, a + 1, mid, stop)
    ensures Intact(s, b + 1, |s|, stop)
  {
  }

  lemma ApartNone(out: seq<Element>, s: seq<Element>, mid: nat, end: nat)
    requires mid <= end && Apart(out, s, mid, mid, end)
    ensures Apart(out, s, end, end, end)
  {
  }

  lemma ApartTail(out: seq<Element>, s: seq<Element>, base: nat, mid: nat)
    requires base <= mid <= |s|
    ensures Apart(out, s, base, mid, mid) <==> Apart(out, s, base, base, base)
  {
  }

  lemma IntactParts(s: seq<Element>, base: nat, mid: nat, stop: Element?)
    requires base <= mid <= |s|
    ensures Intact(s, base, |s|, stop) <==> Intact(s, base, mid, stop) && Intact(s, mid, |s|, stop)
  {
  }

  /** The inner loop of listsort: merge the psize elements from p with the following
      insize ones, behind the list that ends at tail. */
  method MergeRuns(p0: Element, psize0: nat, q0: Element?, insize: nat, list0: Element?, tail0: Element?,
      oldhead: Element,
      isCircular: bool, isDouble: bool, ghost s: seq<Element>, ghost base: nat, ghost out0: seq<Element>)
    returns (list: Element?, tail: Element?, q: Element?, ghost out: seq<Element>, ghost comparisons: nat)
    requires Distinct(s) && base < |s| && oldhead == s[0] && insize > 0
    requires psize0 == Min(insize, |s| - base) && p0 == s[base] && q0 == At(s, base + psize0)
    requires Intact(s, base, |s|, if isCircular then s[0] else null)
    requires Built(out0, list0, tail0, isDouble) && Distinct(out0) && |out0| == base
    requires Apart(out0, s, base, base, base) && forall e :: e in out0 ==> e in s
    modifies s
    ensures var mid, end := base + psize0, Min(base + 2 * insize, |s|);
            && out == out0 + ToMerge(s, base, mid, mid, end) && q == At(s, end)
            && Intact(s, end, |s|, if isCircular then s[0] else null)
            && Apart(out, s, end, end, end)
            && comparisons <= end - base
    ensures Built(out, list, tail, isDouble) && Distinct(out) && forall e :: e in out ==> e in s
    ensures !isDouble ==> forall e :: e in s ==> e.prev == old(e.prev)
  {
    hide ToMerge, Apart, Distinct, Intact, Built;
    ghost var stop := if isCircular then s[0] else null;
    ghost var mid, end := base + psize0, Min(base + 2 * insize, |s|);
    ghost var a, b := base, mid;
    ghost var target := out0 + ToMerge(s, base, mid, mid, end);
    var p: Element?, psize, qsize := p0, psize0, insize;
    list, tail, q, out, comparisons := list0, tail0, q0, out0, 0;
    ApartTail(out, s, base, mid);
    IntactParts(s, base, mid, stop);
    while psize > 0 || (qsize > 0 && q != null)
      invariant base <= a <= mid <= b <= end && psize == mid - a && qsize == insize - (b - mid)
      invariant (a < mid ==> p == s[a]) && q == At(s, b)
      invariant out + ToMerge(s, a, mid, b, end) == target
      invariant Intact(s, a, mid, stop) && Intact(s, b, |s|, stop)
      invariant Built(out, list, tail, isDouble) && Distinct(out) && |out| == a + (b - mid)
      invariant Apart(out, s, a, mid, b) && forall e :: e in out ==> e in s
      invariant comparisons <= |out| - |out0|
      invariant !isDouble ==> forall e :: e in s ==> e.prev == old(e.prev)
      decreases mid - a + end - b
    {
      var e: Element;
      ghost var fromP, compared;
      e, p, psize, q, qsize, fromP, compared := Choose(p, psize, q, qsize, oldhead, isCircular, s, a, mid, b, end);
      comparisons := comparisons + compared;
      Shift(out, e, if fromP then ToMerge(s, a + 1, mid, b, end) else ToMerge(s, a, mid, b + 1, end));
      TailIsLast(out, list, tail, isDouble);
      list := AppendNext(e, list, tail, isDouble, out, s, a, mid, b, fromP, stop);
      tail, out := e, out + [e];
      IntactNarrows(s, a, b, mid, fromP, stop);
      a, b := if fromP then a + 1 else a, if fromP then b else b + 1;
    }
    NothingToMerge(s, mid, end);
    ApartNone(out, s, mid, end);
  }

  lemma NothingToMerge(s: seq<Element>, mid: nat, end: nat)
    requires mid <= end <= |s|
    ensures ToMerge(s, mid, mid, end, end) == []
  {
  }

  // ----- one pass -----

  /** Step insize places along from p. */
  method StepAlong(p: Element, insize: nat, oldhead: Element, isCircular: bool, ghost s: seq<Element>, ghost base: nat)
    returns (q: Element?, psize: nat)
    requires base < |s| && p == s[base] && oldhead == s[0] && insize > 0 && Distinct(s)
    requires Intact(s, base, |s|, if isCircular then s[0] else null)
    ensures psize == Min(insize, |s| - base) && q == At(s, base + psize)
  {
    q, psize := p, 0;
    var i := 0;
    while i < insize
      invariant 0 <= i <= insize && psize == i && base + i <= |s| && q == At(s, base + i) && (i < insize ==> q != null)
    {
      psize := psize + 1;
      if isCircular {
        q := if q.next == oldhead then null else q.next;
      } else {
        q := q.next;
      }
      if q == null {
        break;
      }
      i := i + 1;
    }
  }

  /** Merges in a pass over n elements. */
  function Merges(n: nat, w: nat): nat
    requires w > 0
  {
    if n == 0 then 0 else 1 + Merges(n - Min(2 * w, n), w)
  }

  /** m is n divided by d, rounded up. */
  predicate IsCeiling(m: nat, n: nat, d: nat) {
    m * d >= n && (m > 0 ==> (m - 1) * d < n)
  }

  lemma {:induction false} MergesIsCeiling(n: nat, w: nat)
    requires w > 0
    ensures IsCeiling(Merges(n, w), n, 2 * w)
  {
    if n > 2 * w {
      MergesIsCeiling(n - 2 * w, w);
      OneMore(Merges(n - 2 * w, w), n - 2 * w, 2 * w);
    } else if n > 0 {
      MergesStep(n, w);
    }
  }

  lemma OneMore(m: nat, n: nat, d: nat)
    requires n > 0 && IsCeiling(m, n, d)
    ensures IsCeiling(m + 1, n + d, d)
  {
    assert (m + 1) * d == m * d + d;
    assert m > 0 ==> m * d == (m - 1) * d + d;
  }

  lemma SliceTail(s: seq<Element>, base: nat, mid: nat, end: nat)
    requires base <= mid <= end <= |s|
    ensures var r := s[base..];
            r[..mid - base] == s[base..mid] && r[mid - base..end - base] == s[mid..end] && r[end - base..] == s[end..]
  {
  }

  lemma PassStep(s: seq<Element>, base: nat, w: nat)
    requires w > 0 && base < |s|
    ensures var mid, end := base + Min(w, |s| - base), Min(base + 2 * w, |s|);
            PassOf(s[base..], w) == ToMerge(s, base, mid, mid, end) + PassOf(s[end..], w)
  {
    hide Merge, PassOf;
    PassUnfold(s[base..], w);
    SliceTail(s, base, base + Min(w, |s| - base), Min(base + 2 * w, |s|));
  }

  lemma Join(a: seq<Element>, b: seq<Element>, c: seq<Element>)
    ensures a + (b + c) == (a + b) + c
  {
  }

  /** One turn of the outer loop of listsort. */
  method Pass(list0: Element, insize: nat, isCircular: bool, isDouble: bool, ghost s: seq<Element>)
    returns (list: Element, nmerges: nat, ghost out: seq<Element>, ghost comparisons: nat)
    requires s != [] && list0 == s[0] && Distinct(s) && IsList(s, isCircular) && insize > 0
    modifies Elements(s)
    ensures out == PassOf(s, insize) && list == out[0] && Distinct(out) && IsList(out, isCircular)
    ensures isDouble ==> HasBackLinks(out, isCircular)
    ensures !isDouble ==> forall e :: e in s ==> e.prev == old(e.prev)
    ensures nmerges == Merges(|s|, insize) && comparisons <= |s|
  {
    hide PassOf, ToMerge, Merges, Distinct, Apart, Intact, Built;
    var p: Element?, oldhead := list0, list0;
    var head: Element?, tail: Element? := null, null;
    ghost var base, stop := 0, if isCircular then s[0] else null;
    nmerges, out, comparisons := 0, [], 0;
    PassStart(s, insize, stop, isDouble);
    while p != null
      invariant base <= |s| && p == At(s, base) && |out| == base
      invariant out + PassOf(s[base..], insize) == PassOf(s, insize)
      invariant Intact(s, base, |s|, stop) && Built(out, head, tail, isDouble) && Distinct(out)
      invariant Apart(out, s, base, base, base) && forall e :: e in out ==> e in s
      invariant nmerges + Merges(|s| - base, insize) == Merges(|s|, insize) && comparisons <= base
      invariant !isDouble ==> forall e :: e in s ==> e.prev == old(e.prev)
      decreases |s| - base
    {
      nmerges := nmerges + 1;
      var q, psize := StepAlong(p, insize, oldhead, isCircular, s, base);
      PassStep(s, base, insize);
      ghost var mid, end := base + psize, Min(base + 2 * insize, |s|);
      Join(out, ToMerge(s, base, mid, mid, end), PassOf(s[end..], insize));
      MergesStep(|s| - base, insize);
      ghost var compared;
      head, tail, q, out, compared := MergeRuns(p, psize, q, insize, head, tail, oldhead, isCircular, isDouble, s,
        base, out);
      comparisons := comparisons + compared;
      base := end;
      p := q;
    }
    PassEnd(s, base, insize);
    TailIsLast(out, head, tail, isDouble);
    list := head;
    Close(list, tail, isCircular, isDouble, out);
  }

  lemma PassStart(s: seq<Element>, w: nat, stop: Element?, isDouble: bool)
    requires w > 0 && s != [] && Intact(s, 0, |s|, stop)
    ensures s[0..] == s && Built([], null, null, isDouble) && Distinct([]) && Apart([], s, 0, 0, 0)
  {
  }

  lemma PassEnd(s: seq<Element>, base: nat, w: nat)
    requires w > 0 && base == |s|
    ensures PassOf(s[base..], w) == [] && Merges(|s| - base, w) == 0
  {
  }

  lemma MergesStep(n: nat, w: nat)
    requires w > 0 && n > 0
    ensures Merges(n, w) == 1 + Merges(n - Min(2 * w, n), w)
  {
  }

  /** The last links of a pass. */
  method Close(list: Element, tail: Element, isCircular: bool, isDouble: bool, ghost out: seq<Element>)
    requires out != [] && Built(out, list, tail, isDouble) && Distinct(out)
    modifies tail`next, list`prev
    ensures IsList(out, isCircular) && (isDouble ==> HasBackLinks(out, isCircular))
    ensures !isDouble ==> list.prev == old(list.prev)
  {
    assert forall k :: 0 < k < |out| ==> out[0] != out[k];
    assert forall k :: 0 <= k < |out| - 1 ==> out[k] != out[|out| - 1];
    if isCircular {
      tail.next := list;
      if isDouble {
        list.prev := tail;
      }
    } else {
      tail.next := null;
    }
  }

  // ----- the sort -----

  /** listsort: the same elements, stably sorted, linked as the arguments ask; pass k
      makes ceil(n / 2^k) merges and at most n comparisons. */
  method ListSort(list0: Element?, isCircular: bool, isDouble: bool, ghost s: seq<Element>)
    returns (list: Element?, ghost sorted: seq<Element>, ghost merges: seq<nat>, ghost comparisons: seq<nat>)
    requires Distinct(s) && IsList(s, isCircular) && list0 == At(s, 0)
    modifies Elements(s)
    ensures StablePermutation(s, sorted) && multiset(s) == multiset(sorted)
    ensures forall a, b :: 0 <= a < b < |sorted| ==> sorted[a].i <= sorted[b].i
    ensures if sorted == [] then list == null else list == sorted[0]
    ensures forall k :: 0 < k < |sorted| ==> sorted[k - 1].next == sorted[k]
    ensures sorted != [] ==> sorted[|sorted| - 1].next == if isCircular then sorted[0] else null
    ensures isDouble ==> forall k :: 0 < k < |sorted| ==> sorted[k].prev == sorted[k - 1]
    ensures isDouble && sorted != [] ==> sorted[0].prev == if isCircular then sorted[|sorted| - 1] else null
    ensures !isDouble ==> forall e :: e in s ==> e.prev == old(e.prev)
    ensures s == [] <==> merges == []
    ensures forall k :: 0 <= k < |merges|
              ==> (merges[k] - 1) * Pow2(k + 1) < |s| <= merges[k] * Pow2(k + 1)
    ensures s != [] ==> |s| <= Pow2(|merges|) && (|merges| > 1 ==> Pow2(|merges| - 1) < |s|)
    ensures |comparisons| == |merges| && forall k :: 0 <= k < |comparisons| ==> comparisons[k] <= |s|
  {
    hide PassOf, Distinct, Intact, RunsSorted, Sorted, StablePermutation, IsList, HasBackLinks, IsCeiling, Elements,
      Merges;
    list, sorted, merges, comparisons := list0, s, [], [];
    SameIsStable(s);
    if list == null {
      NothingSorted(s);
      NoLinks(s, isCircular);
      InWords(s, sorted, isCircular, isDouble, merges);
      return;
    }
    var insize := 1;
    SinglesSorted(s);
    while true
      invariant sorted != [] && list == sorted[0] && |sorted| == |s| && Distinct(sorted) && IsList(sorted, isCircular)
      invariant insize == Pow2(|merges|) && RunsSorted(sorted, insize) && StablePermutation(s, sorted)
      invariant Elements(sorted) == Elements(s)
      invariant |merges| > 0 ==> insize < |s|
      invariant forall k :: 0 <= k < |merges| ==> IsCeiling(merges[k], |s|, Pow2(k + 1))
      invariant |comparisons| == |merges| && forall k :: 0 <= k < |comparisons| ==> comparisons[k] <= |s|
      invariant !isDouble ==> forall e :: e in s ==> e.prev == old(e.prev)
      decreases |s| - insize
    {
      ghost var was, compared := sorted, 0;
      Members(was, s);
      var nmerges;
      list, nmerges, sorted, compared := Pass(list, insize, isCircular, isDouble, was);
      PassSorts(was, insize);
      PassIsStable(s, was, insize);
      MergesIsCeiling(|s|, insize);
      assert Pow2(|merges| + 1) == 2 * insize;
      merges, comparisons := merges + [nmerges], comparisons + [compared];
      if nmerges <= 1 {
        OneRun(sorted, insize);
        InWords(s, sorted, isCircular, isDouble, merges);
        return;
      }
      ManyRuns(|s|, insize);
      insize := insize * 2;
    }
  }

  /** What the sort promises, in terms of the elements. */
  lemma InWords(s: seq<Element>, t: seq<Element>, isCircular: bool, isDouble: bool, merges: seq<nat>)
    requires StablePermutation(s, t) && Sorted(t) && IsList(t, isCircular) && (isDouble ==> HasBackLinks(t, isCircular))
    requires forall k :: 0 <= k < |merges| ==> IsCeiling(merges[k], |s|, Pow2(k + 1))
    requires merges == [] <==> s == []
    ensures multiset(s) == multiset(t)
    ensures forall a, b :: 0 <= a < b < |t| ==> t[a].i <= t[b].i
    ensures forall k :: 0 < k < |t| ==> t[k - 1].next == t[k]
    ensures t != [] ==> t[|t| - 1].next == if isCircular then t[0] else null
    ensures isDouble ==> forall k :: 0 < k < |t| ==> t[k].prev == t[k - 1]
    ensures isDouble && t != [] ==> t[0].prev == if isCircular then t[|t| - 1] else null
    ensures forall k :: 0 <= k < |merges| ==> (merges[k] - 1) * Pow2(k + 1) < |s| <= merges[k] * Pow2(k + 1)
  {
    hide Filter, StablePermutation;
    StableIsPermutation(s, t);
    forall k | 0 < k < |t| ensures t[k - 1].next == t[k] && (isDouble ==> t[k].prev == t[k - 1]) {
      assert t[k - 1].next == Successor(t, k - 1, if isCircular then t[0] else null);
      assert isDouble ==> t[k].prev == Predecessor(t, k, if isCircular then t[|t| - 1] else null);
    }
    forall k | 0 <= k < |merges| ensures (merges[k] - 1) * Pow2(k + 1) < |s| <= merges[k] * Pow2(k + 1) {
      assert IsCeiling(merges[k], |s|, Pow2(k + 1));
    }
  }

  lemma Members(s: seq<Element>, t: seq<Element>)
    requires Elements(s) == Elements(t)
    ensures forall e :: e in s <==> e in t
  {
    forall e ensures e in s <==> e in t {
      assert e in s <==> e in Elements(s);
      assert e in t <==> e in Elements(t);
    }
  }

  lemma NoLinks(s: seq<Element>, isCircular: bool)
    requires s == []
    ensures HasBackLinks(s, isCircular)
  {
  }

  lemma SameIsStable(s: seq<Element>)
    ensures StablePermutation(s, s)
  {
  }

  lemma PassIsStable(s: seq<Element>, was: seq<Element>, w: nat)
    requires w > 0 && StablePermutation(s, was) && RunsSorted(was, w)
    ensures StablePermutation(s, PassOf(was, w))
    ensures Elements(PassOf(was, w)) == Elements(was)
  {
    hide PassOf, RunsSorted;
    forall v ensures Filter(s, v) == Filter(PassOf(was, w), v) {
      PassStable(was, w, v);
    }
    forall v ensures Filter(was, v) == Filter(PassOf(was, w), v) {
      PassStable(was, w, v);
    }
    StableIsPermutation(was, PassOf(was, w));
    SameElements(was, PassOf(was, w));
  }

  lemma SameElements(s: seq<Element>, t: seq<Element>)
    requires multiset(s) == multiset(t)
    ensures Elements(s) == Elements(t)
  {
    forall e ensures e in s <==> e in t {
      assert e in s <==> e in multiset(s);
      assert e in t <==> e in multiset(t);
    }
  }

  lemma OneRun(s: seq<Element>, w: nat)
    requires w > 0 && RunsSorted(s, 2 * w) && s != [] && Merges(|s|, w) <= 1
    ensures |s| <= 2 * w && Sorted(s)
  {
    hide Sorted;
    assert Merges(|s|, w) == 1 + Merges(|s| - Min(2 * w, |s|), w);
  }

  lemma ManyRuns(n: nat, w: nat)
    requires w > 0 && Merges(n, w) > 1
    ensures n > 2 * w
  {
  }
}
