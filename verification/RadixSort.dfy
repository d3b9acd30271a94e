/** The radix sort of the compression heuristic: two counting passes a round, from the
    array to the buffer and back. */
module RadixSort {
  import opened Entropy
  import opened Words

  /** A bucket is moved as a whole; byte only says which one it is. */
  datatype Bucket = Bucket(count: nat, byte: nat)

  // ----- sorting by a key -----

  /** The elements whose key is v, in their order. */
  function Having(s: seq<Bucket>, key: Bucket -> int, v: int): seq<Bucket> {
    if s == [] then []
    else
      var n := |s| - 1;
      if key(s[n]) == v then Having(s[..n], key, v) + [s[n]] else Having(s[..n], key, v)
  }

  ghost predicate Descending(s: seq<Bucket>, key: Bucket -> int) {
    forall i, j :: 0 <= i < j < |s| ==> key(s[i]) >= key(s[j])
  }

  /** t is s, stably sorted by falling key. */
  ghost predicate StableSort(s: seq<Bucket>, t: seq<Bucket>, key: Bucket -> int) {
    Descending(t, key) && |t| == |s| && forall v :: Having(t, key, v) == Having(s, key, v)
  }

  lemma {:induction false} HavingConcat(a: seq<Bucket>, b: seq<Bucket>, key: Bucket -> int, v: int)
    ensures Having(a + b, key, v) == Having(a, key, v) + Having(b, key, v)
  {
    if b == [] {
      assert a + b == a;
    } else {
      var n := |b| - 1;
      assert (a + b)[..|a| + n] == a + b[..n];
      HavingConcat(a, b[..n], key, v);
    }
  }

  lemma {:induction false} HavingMembers(s: seq<Bucket>, key: Bucket -> int, v: int, x: Bucket)
    ensures x in Having(s, key, v) <==> x in s && key(x) == v
  {
    if s != [] {
      var n := |s| - 1;
      assert s == s[..n] + [s[n]];
      HavingMembers(s[..n], key, v, x);
    }
  }

  /** Two selections commute. */
  lemma {:induction false} HavingCommute(s: seq<Bucket>, k: Bucket -> int, v: int, l: Bucket -> int, w: int)
    ensures Having(Having(s, k, v), l, w) == Having(Having(s, l, w), k, v)
  {
    if s != [] {
      var n := |s| - 1;
      HavingCommute(s[..n], k, v, l, w);
      HavingOne(Having(s[..n], k, v), s[n], l, w);
      HavingOne(Having(s[..n], l, w), s[n], k, v);
    }
  }

  lemma HavingOne(s: seq<Bucket>, x: Bucket, key: Bucket -> int, v: int)
    ensures Having(s + [x], key, v) == if key(x) == v then Having(s, key, v) + [x] else Having(s, key, v)
  {
    assert (s + [x])[..|s|] == s;
  }

  lemma {:induction false} HavingAll(s: seq<Bucket>, key: Bucket -> int, v: int)
    requires forall i :: 0 <= i < |s| ==> key(s[i]) == v
    ensures Having(s, key, v) == s
  {
    if s != [] {
      var n := |s| - 1;
      HavingAll(s[..n], key, v);
      assert s == s[..n] + [s[n]];
    }
  }

  lemma {:induction false} HavingNone(s: seq<Bucket>, key: Bucket -> int, v: int)
    requires forall i :: 0 <= i < |s| ==> key(s[i]) != v
    ensures Having(s, key, v) == []
  {
    if s != [] {
      HavingNone(s[..|s| - 1], key, v);
    }
  }

  /** A selection of a sorted sequence is sorted. */
  lemma {:induction false} SelectionSorted(s: seq<Bucket>, key: Bucket -> int, v: int, rank: Bucket -> int)
    requires Descending(s, rank)
    ensures Descending(Having(s, key, v), rank)
  {
    if s != [] {
      var n := |s| - 1;
      SelectionSorted(s[..n], key, v, rank);
      forall x | x in Having(s[..n], key, v) ensures rank(x) >= rank(s[n]) {
        HavingMembers(s[..n], key, v, x);
      }
    }
  }

  /** And if a selection is sorted, so are its elements in the whole. */
  lemma {:induction false} SortedInSelection(s: seq<Bucket>, key: Bucket -> int, v: int, rank: Bucket -> int, i: nat,
      j: nat)
    requires Descending(Having(s, key, v), rank) && i < j < |s| && key(s[i]) == v && key(s[j]) == v
    ensures rank(s[i]) >= rank(s[j])
  {
    var n := |s| - 1;
    var h := Having(s[..n], key, v);
    if j == n {
      HavingMembers(s[..n], key, v, s[i]);
      assert s[..n][i] == s[i];
      var k :| 0 <= k < |h| && h[k] == s[i];
      assert Having(s, key, v) == h + [s[n]];
      assert Having(s, key, v)[k] == s[i] && Having(s, key, v)[|h|] == s[n];
    } else {
      assert forall k :: 0 <= k < |h| ==> Having(s, key, v)[k] == h[k];
      SortedInSelection(s[..n], key, v, rank, i, j);
    }
  }

  /** Where the x-th element with this key is. */
  lemma {:induction false} NthAt(s: seq<Bucket>, key: Bucket -> int, v: int, x: nat) returns (i: nat)
    requires x < |Having(s, key, v)|
    ensures i < |s| && s[i] == Having(s, key, v)[x] && key(s[i]) == v && |Having(s[..i], key, v)| == x
  {
    var n := |s| - 1;
    if x < |Having(s[..n], key, v)| {
      i := NthAt(s[..n], key, v, x);
      assert s[..n][..i] == s[..i];
    } else {
      i := n;
    }
  }

  lemma {:induction false} HavingGrows(s: seq<Bucket>, key: Bucket -> int, v: int, i: nat, j: nat)
    requires i <= j <= |s|
    ensures |Having(s[..i], key, v)| <= |Having(s[..j], key, v)|
    ensures i < j && key(s[i]) == v ==> |Having(s[..i], key, v)| < |Having(s[..j], key, v)|
  {
    if i < j {
      assert s[..j][..j - 1] == s[..j - 1];
      HavingGrows(s, key, v, i, j - 1);
    }
  }

  /** Where each bucket of a stable sort comes from: no place is used twice, and buckets with
      equal keys come from left to right. */
  lemma Origins(s: seq<Bucket>, t: seq<Bucket>, key: Bucket -> int) returns (from: seq<nat>)
    requires StableSort(s, t, key)
    ensures |t| == |s| == |from|
    ensures forall k :: 0 <= k < |t| ==> from[k] < |s| && t[k] == s[from[k]]
    ensures forall i, j :: 0 <= i < j < |t| ==> from[i] != from[j] && (key(t[i]) == key(t[j]) ==> from[i] < from[j])
    ensures forall i, j :: 0 <= i < j < |t| ==> key(t[i]) >= key(t[j])
  {
    hide Having;
    from := [];
    while |from| < |t|
      invariant |from| <= |t|
      invariant forall k :: 0 <= k < |from| ==> Origin(s, t, key, k, from[k])
    {
      var k := |from|;
      var x := |Having(t[..k], key, key(t[k]))|;
      NextOne(t, k, key, key(t[k]));
      assert Having(t, key, key(t[k])) == Having(s, key, key(t[k]));
      var i := NthAt(s, key, key(t[k]), x);
      assert Origin(s, t, key, k, i);
      from := from + [i];
    }
    forall i, j | 0 <= i < j < |t|
      ensures from[i] != from[j] && (key(t[i]) == key(t[j]) ==> from[i] < from[j])
    {
      assert Origin(s, t, key, i, from[i]) && Origin(s, t, key, j, from[j]);
      if key(t[i]) == key(t[j]) {
        var v := key(t[i]);
        HavingGrows(t, key, v, i, j);
        if from[j] <= from[i] {
          HavingGrows(s, key, v, from[j], from[i]);
        }
      }
    }
    assert forall k :: 0 <= k < |t| ==> Origin(s, t, key, k, from[k]);
  }

  predicate Origin(s: seq<Bucket>, t: seq<Bucket>, key: Bucket -> int, k: nat, i: nat) {
    && k < |t| && i < |s| && t[k] == s[i]
    && |Having(s[..i], key, key(t[k]))| == |Having(t[..k], key, key(t[k]))|
  }

  /** An element's place in its selection is how many of the selection come before it. */
  lemma NextOne(s: seq<Bucket>, i: nat, key: Bucket -> int, v: int)
    requires i < |s| && key(s[i]) == v
    ensures |Having(s[..i], key, v)| < |Having(s, key, v)| && Having(s, key, v)[|Having(s[..i], key, v)|] == s[i]
  {
    hide Having;
    assert s[..i + 1] == s[..i] + [s[i]] && s == s[..i + 1] + s[i + 1..];
    HavingOne(s[..i], s[i], key, v);
    HavingConcat(s[..i + 1], s[i + 1..], key, v);
  }

  // ----- digits -----

  const RADIX_BASE := 4
  const COUNTERS_SIZE := 16

  /** get4bits: four bits of the number, in reverse order. */
  function Get4Bits(num: nat, shift: nat): (r: nat)
    ensures r < COUNTERS_SIZE
  {
    COUNTERS_SIZE - 1 - (num / Pow2(shift)) % COUNTERS_SIZE
  }

  function Addr(shift: nat): Bucket -> int {
    (b: Bucket) => Get4Bits(b.count, shift)
  }

  /** The low shift bits of the count. */
  function Low(shift: nat): Bucket -> int {
    (b: Bucket) => b.count % Pow2(shift)
  }

  function Count(): Bucket -> int {
    (b: Bucket) => b.count
  }

  lemma DivMod(n: nat, m: nat)
    requires m > 0
    ensures n == n / m * m + n % m && 0 <= n % m < m
  {
  }

  lemma Above(m: nat, q: nat, r: nat, a: nat, b: nat)
    requires a < q && b < m
    ensures a * m + b < q * m + r
  {
    Scale(a + 1, q, m);
    assert (a + 1) * m == a * m + m;
  }

  lemma SameQuotient(m: nat, q: nat, r: nat, a: nat, b: nat)
    requires r < m && b < m && q * m + r == a * m + b
    ensures a == q && b == r
  {
    if a < q {
      Above(m, q, r, a, b);
    } else if q < a {
      Above(m, a, b, q, r);
    }
  }

  lemma Recompose(n: nat, m: nat, q: nat, r: nat, a: nat, d: nat)
    requires n == q * m + r && q == a * 16 + d && r < m && d < 16
    ensures n == a * (16 * m) + (d * m + r) && d * m + r < 16 * m
  {
    assert (a * 16 + d) * m == a * (16 * m) + d * m;
    Scale(d, 15, m);
  }

  lemma SplitRemainder(n: nat, m: nat)
    requires m > 0
    ensures n % (16 * m) == n / m % 16 * m + n % m
  {
    var q, r := n / m, n % m;
    var a, d := q / 16, q % 16;
    DivMod(n, m);
    DivMod(q, 16);
    Recompose(n, m, q, r, a, d);
    UniqueRemainder(n, 16 * m, a, d * m + r);
  }

  lemma UniqueRemainder(n: nat, w: nat, a: nat, x: nat)
    requires x < w && n == a * w + x
    ensures n % w == x
  {
    DivMod(n, w);
    SameQuotient(w, n / w, n % w, a, x);
  }

  lemma Sixteen(shift: nat)
    ensures Pow2(shift + 4) == 16 * Pow2(shift)
  {
    var m := Pow2(shift);
    assert Pow2(shift + 1) == 2 * m;
    assert Pow2(shift + 2) == 4 * m;
    assert Pow2(shift + 3) == 8 * m;
  }

  /** Four more low bits are a digit above the lower ones. */
  lemma LowSplits(b: Bucket, shift: nat)
    ensures Low(shift + 4)(b) == (COUNTERS_SIZE - 1 - Addr(shift)(b)) * Pow2(shift) + Low(shift)(b)
    ensures 0 <= Low(shift)(b) < Pow2(shift)
  {
    hide Pow2;
    Sixteen(shift);
    SplitRemainder(b.count, Pow2(shift));
    DivMod(b.count, Pow2(shift));
  }

  // ----- one counting pass -----

  /** The buckets with address 0, then those with address 1, ... below n. */
  function Distribute(s: seq<Bucket>, shift: nat, n: nat): seq<Bucket> {
    if n == 0 then [] else Distribute(s, shift, n - 1) + Having(s, Addr(shift), n - 1)
  }

  function Start(s: seq<Bucket>, shift: nat, n: nat): nat {
    |Distribute(s, shift, n)|
  }

  lemma {:induction false} DistributeMono(s: seq<Bucket>, shift: nat, m: nat, n: nat)
    requires m <= n
    ensures Start(s, shift, m) <= Start(s, shift, n)
    ensures Distribute(s, shift, n)[..Start(s, shift, m)] == Distribute(s, shift, m)
  {
    if m < n {
      DistributeMono(s, shift, m, n - 1);
      var d, k := Distribute(s, shift, n - 1), Start(s, shift, m);
      assert Distribute(s, shift, n)[..k] == d[..k];
    }
  }

  /** Where the k-th bucket with address a goes. */
  lemma DistributeAt(s: seq<Bucket>, shift: nat, a: nat, n: nat, k: nat)
    requires a < n && k < |Having(s, Addr(shift), a)|
    ensures Start(s, shift, a) + k < Start(s, shift, a + 1) <= Start(s, shift, n)
    ensures Distribute(s, shift, n)[Start(s, shift, a) + k] == Having(s, Addr(shift), a)[k]
  {
    DistributeMono(s, shift, a + 1, n);
    var d, e := Distribute(s, shift, n), Distribute(s, shift, a + 1);
    assert d[..|e|][Start(s, shift, a) + k] == e[Start(s, shift, a) + k];
  }

  /** Every place below belongs to one address. */
  lemma {:induction false} PlaceHasAddress(s: seq<Bucket>, shift: nat, n: nat, p: nat) returns (a: nat)
    requires p < Start(s, shift, n)
    ensures a < n && Start(s, shift, a) <= p < Start(s, shift, a + 1)
  {
    if p < Start(s, shift, n - 1) {
      a := PlaceHasAddress(s, shift, n - 1, p);
    } else {
      a := n - 1;
    }
  }

  /** The pass keeps each selection by address. */
  lemma {:induction false} DistributeHaving(s: seq<Bucket>, shift: nat, n: nat, a: int)
    ensures Having(Distribute(s, shift, n), Addr(shift), a) == if 0 <= a < n then Having(s, Addr(shift), a) else []
  {
    hide Having, Addr;
    if n > 0 {
      var d, h := Distribute(s, shift, n - 1), Having(s, Addr(shift), n - 1);
      DistributeHaving(s, shift, n - 1, a);
      HavingConcat(d, h, Addr(shift), a);
      HavingHaving(s, Addr(shift), n - 1, a);
    } else {
      HavingNone([], Addr(shift), a);
    }
  }

  lemma HavingHaving(s: seq<Bucket>, key: Bucket -> int, v: int, w: int)
    ensures Having(Having(s, key, v), key, w) == if w == v then Having(s, key, v) else []
  {
    var h := Having(s, key, v);
    forall i | 0 <= i < |h| ensures key(h[i]) == v {
      HavingMembers(s, key, v, h[i]);
    }
    if w == v {
      HavingAll(h, key, w);
    } else {
      HavingNone(h, key, w);
    }
  }

  lemma {:induction false} DistributeSize(s: seq<Bucket>, shift: nat)
    ensures Start(s, shift, COUNTERS_SIZE) == |s|
  {
    if s == [] {
      DistributeNothing(s, shift, COUNTERS_SIZE);
    } else {
      var n := |s| - 1;
      DistributeSize(s[..n], shift);
      DistributeOneMore(s, shift, COUNTERS_SIZE);
    }
  }

  lemma {:induction false} DistributeNothing(s: seq<Bucket>, shift: nat, n: nat)
    requires s == []
    ensures Start(s, shift, n) == 0
  {
    if n > 0 {
      DistributeNothing(s, shift, n - 1);
    }
  }

  lemma {:induction false} DistributeOneMore(s: seq<Bucket>, shift: nat, n: nat)
    requires s != []
    ensures Start(s, shift, n) == Start(s[..|s| - 1], shift, n) + if Addr(shift)(s[|s| - 1]) < n then 1 else 0
  {
    if n > 0 {
      DistributeOneMore(s, shift, n - 1);
    }
  }

  /** Places rise with addresses. */
  lemma AddressesRise(s: seq<Bucket>, shift: nat, i: nat, j: nat)
    requires i < j < Start(s, shift, COUNTERS_SIZE)
    ensures var t := Distribute(s, shift, COUNTERS_SIZE); Addr(shift)(t[i]) <= Addr(shift)(t[j])
  {
    hide Having, Distribute, Start;
    var t := Distribute(s, shift, COUNTERS_SIZE);
    var a := PlaceHasAddress(s, shift, COUNTERS_SIZE, i);
    var b := PlaceHasAddress(s, shift, COUNTERS_SIZE, j);
    if b < a {
      DistributeMono(s, shift, b + 1, a);
    }
    AddressAtPlace(s, shift, a, i);
    AddressAtPlace(s, shift, b, j);
  }

  lemma AddressAtPlace(s: seq<Bucket>, shift: nat, a: nat, p: nat)
    requires a < COUNTERS_SIZE && Start(s, shift, a) <= p < Start(s, shift, a + 1)
    ensures p < Start(s, shift, COUNTERS_SIZE) && Addr(shift)(Distribute(s, shift, COUNTERS_SIZE)[p]) == a
  {
    var k := p - Start(s, shift, a);
    DistributeAt(s, shift, a, COUNTERS_SIZE, k);
    HavingMembers(s, Addr(shift), a, Having(s, Addr(shift), a)[k]);
  }

  // ----- passes add up -----

  /** A pass over a list that is stably sorted by its low bits sorts it by four more. */
  lemma PassExtends(s: seq<Bucket>, t: seq<Bucket>, shift: nat)
    requires StableSort(s, t, Low(shift))
    ensures StableSort(s, Distribute(t, shift, COUNTERS_SIZE), Low(shift + 4))
  {
    hide Distribute, Having, Addr, Low, Pow2;
    var u, key := Distribute(t, shift, COUNTERS_SIZE), Low(shift + 4);
    DistributeSize(t, shift);
    forall i, j | 0 <= i < j < |u| ensures key(u[i]) >= key(u[j]) {
      PassDescends(t, shift, i, j);
    }
    forall v ensures Having(u, key, v) == Having(s, key, v) {
      PassStable(s, t, shift, v);
    }
  }

  lemma PassDescends(t: seq<Bucket>, shift: nat, i: nat, j: nat)
    requires Descending(t, Low(shift)) && i < j < |t|
    ensures |Distribute(t, shift, COUNTERS_SIZE)| == |t|
    ensures var u := Distribute(t, shift, COUNTERS_SIZE); Low(shift + 4)(u[i]) >= Low(shift + 4)(u[j])
  {
    hide Distribute, Having, Addr, Low, Pow2, Descending;
    var u := Distribute(t, shift, COUNTERS_SIZE);
    DistributeSize(t, shift);
    AddressesRise(t, shift, i, j);
    LowSplits(u[i], shift);
    LowSplits(u[j], shift);
    var a, b := Addr(shift)(u[i]), Addr(shift)(u[j]);
    if a == b {
      DistributeHaving(t, shift, COUNTERS_SIZE, a);
      AddressBounds(u[i], shift);
      SelectionSorted(t, Addr(shift), a, Low(shift));
      SortedInSelection(u, Addr(shift), a, Low(shift), i, j);
    } else {
      Scale(COUNTERS_SIZE - 1 - b + 1, COUNTERS_SIZE - 1 - a, Pow2(shift));
      assert (COUNTERS_SIZE - 1 - b + 1) * Pow2(shift) == (COUNTERS_SIZE - 1 - b) * Pow2(shift) + Pow2(shift);
    }
  }

  lemma AddressBounds(b: Bucket, shift: nat)
    ensures 0 <= Addr(shift)(b) < COUNTERS_SIZE
  {
  }

  lemma PassStable(s: seq<Bucket>, t: seq<Bucket>, shift: nat, v: int)
    requires StableSort(s, t, Low(shift))
    ensures Having(Distribute(t, shift, COUNTERS_SIZE), Low(shift + 4), v) == Having(s, Low(shift + 4), v)
  {
    hide Distribute, Having, Addr, Low, Pow2;
    var u, m := Distribute(t, shift, COUNTERS_SIZE), Pow2(shift);
    if 0 <= v < 16 * m {
      var a, r := COUNTERS_SIZE - 1 - v / m, v % m;
      DivMod(v, m);
      DigitBound(v, m);
      SplitSelection(u, shift, a, r);
      SplitSelection(s, shift, a, r);
      DistributeHaving(t, shift, COUNTERS_SIZE, a);
      HavingCommute(t, Addr(shift), a, Low(shift), r);
      HavingCommute(s, Addr(shift), a, Low(shift), r);
      assert Having(t, Low(shift), r) == Having(s, Low(shift), r);
    } else {
      NoneOutside(u, shift, v);
      NoneOutside(s, shift, v);
    }
  }

  lemma DigitBound(v: nat, m: nat)
    requires m > 0 && v < 16 * m
    ensures 0 <= v / m < 16
  {
  }

  lemma NoneOutside(s: seq<Bucket>, shift: nat, v: int)
    requires v < 0 || 16 * Pow2(shift) <= v
    ensures Having(s, Low(shift + 4), v) == []
  {
    Sixteen(shift);
    HavingNone(s, Low(shift + 4), v);
  }

  /** Selecting by four more bits is selecting by the digit and by the lower bits. */
  lemma {:induction false} SplitSelection(s: seq<Bucket>, shift: nat, a: nat, r: nat)
    requires a < COUNTERS_SIZE && r < Pow2(shift)
    ensures Having(s, Low(shift + 4), (COUNTERS_SIZE - 1 - a) * Pow2(shift) + r)
            == Having(Having(s, Addr(shift), a), Low(shift), r)
  {
    hide Having, Addr, Low, Pow2;
    HavingNothing(s, Low(shift + 4), (COUNTERS_SIZE - 1 - a) * Pow2(shift) + r);
    HavingNothing(s, Addr(shift), a);
    HavingNothing(Having(s, Addr(shift), a), Low(shift), r);
    if s != [] {
      var n := |s| - 1;
      assert s == s[..n] + [s[n]];
      SplitSelection(s[..n], shift, a, r);
      SplitDigits(s[n], shift, a, r);
      HavingOne(s[..n], s[n], Low(shift + 4), (COUNTERS_SIZE - 1 - a) * Pow2(shift) + r);
      HavingOne(s[..n], s[n], Addr(shift), a);
      HavingOne(Having(s[..n], Addr(shift), a), s[n], Low(shift), r);
    }
  }

  lemma HavingNothing(s: seq<Bucket>, key: Bucket -> int, v: int)
    ensures s == [] ==> Having(s, key, v) == []
  {
  }

  /** The longer key has this value exactly when the digit and the shorter key have theirs. */
  lemma SplitDigits(b: Bucket, shift: nat, a: nat, r: nat)
    requires a < COUNTERS_SIZE && r < Pow2(shift)
    ensures Low(shift + 4)(b) == (COUNTERS_SIZE - 1 - a) * Pow2(shift) + r
            <==> Addr(shift)(b) == a && Low(shift)(b) == r
  {
    hide Addr, Low, Pow2;
    LowSplits(b, shift);
    AddressBounds(b, shift);
    if Low(shift + 4)(b) == (COUNTERS_SIZE - 1 - a) * Pow2(shift) + r {
      SameQuotient(Pow2(shift), COUNTERS_SIZE - 1 - a, r, COUNTERS_SIZE - 1 - Addr(shift)(b), Low(shift)(b));
    }
  }

  // ----- the counting pass in place -----

  /** counters[a] counts the buckets of s with address a. */
  ghost predicate Counted(counters: seq<nat>, s: seq<Bucket>, shift: nat) {
    |counters| == COUNTERS_SIZE && forall a :: 0 <= a < COUNTERS_SIZE ==> counters[a] == |Having(s, Addr(shift), a)|
  }

  /** counters[a] is where the next bucket with address a goes, once those behind rest are placed. */
  ghost predicate Pointing(counters: seq<nat>, s: seq<Bucket>, rest: seq<Bucket>, shift: nat) {
    |counters| == COUNTERS_SIZE && forall a :: 0 <= a < COUNTERS_SIZE
                                       ==> counters[a] == Start(s, shift, a) + |Having(rest, Addr(shift), a)|
  }

  /** The buckets behind rest are in their places. */
  ghost predicate Placed(dst: seq<Bucket>, s: seq<Bucket>, rest: seq<Bucket>, shift: nat)
    requires |dst| == |s| == Start(s, shift, COUNTERS_SIZE)
  {
    forall a, p ::
      && 0 <= a < COUNTERS_SIZE && p < |s|
      && Start(s, shift, a) + |Having(rest, Addr(shift), a)| <= p < Start(s, shift, a + 1)
      ==> dst[p] == Distribute(s, shift, COUNTERS_SIZE)[p]
  }

  lemma CountOne(counters: seq<nat>, s: seq<Bucket>, i: nat, shift: nat)
    requires i < |s| && Counted(counters, s[..i], shift)
    ensures var a := Get4Bits(s[i].count, shift); Counted(counters[a := counters[a] + 1], s[..i + 1], shift)
  {
    assert s[..i + 1] == s[..i] + [s[i]];
    forall a | 0 <= a < COUNTERS_SIZE
      ensures |Having(s[..i + 1], Addr(shift), a)| == |Having(s[..i], Addr(shift), a)| + if Addr(shift)(s[i]) == a
              then 1 else 0
    {
      HavingOne(s[..i], s[i], Addr(shift), a);
    }
  }

  /** The next bucket to place, and where. */
  lemma PlaceOne(counters: seq<nat>, s: seq<Bucket>, i: nat, shift: nat)
    requires i < |s| && Pointing(counters, s, s[..i + 1], shift)
    ensures var a := Get4Bits(s[i].count, shift);
            && counters[a] > 0 && counters[a] - 1 < Start(s, shift, COUNTERS_SIZE)
            && Distribute(s, shift, COUNTERS_SIZE)[counters[a] - 1] == s[i]
            && Pointing(counters[a := counters[a] - 1], s, s[..i], shift)
  {
    hide Having, Distribute, Addr;
    var a := Get4Bits(s[i].count, shift);
    AddrIs(s[i], shift);
    assert s[..i + 1] == s[..i] + [s[i]];
    forall b | 0 <= b < COUNTERS_SIZE
      ensures |Having(s[..i + 1], Addr(shift), b)| == |Having(s[..i], Addr(shift), b)| + if a == b then 1 else 0
    {
      HavingOne(s[..i], s[i], Addr(shift), b);
    }
    NextOne(s, i, Addr(shift), a);
    DistributeAt(s, shift, a, COUNTERS_SIZE, |Having(s[..i], Addr(shift), a)|);
  }

  lemma AddrIs(b: Bucket, shift: nat)
    ensures Addr(shift)(b) == Get4Bits(b.count, shift)
  {
  }

  lemma PlacedOne(dst: seq<Bucket>, s: seq<Bucket>, i: nat, shift: nat, p: nat)
    requires i < |s| && |dst| == |s| == Start(s, shift, COUNTERS_SIZE) && p < |s|
    requires Placed(dst, s, s[..i + 1], shift)
    requires p == Start(s, shift, Get4Bits(s[i].count, shift))
             + |Having(s[..i], Addr(shift), Get4Bits(s[i].count, shift))|
    requires Distribute(s, shift, COUNTERS_SIZE)[p] == s[i]
    ensures Placed(dst[p := s[i]], s, s[..i], shift)
  {
    hide Distribute, Having;
    assert s[..i + 1] == s[..i] + [s[i]];
    forall a, q | 0 <= a < COUNTERS_SIZE
        && Start(s, shift, a) + |Having(s[..i], Addr(shift), a)| <= q < Start(s, shift, a + 1) && q < |s|
      ensures dst[p := s[i]][q] == Distribute(s, shift, COUNTERS_SIZE)[q]
    {
      HavingOne(s[..i], s[i], Addr(shift), a);
    }
  }

  lemma AllPlaced(dst: seq<Bucket>, s: seq<Bucket>, shift: nat)
    requires |dst| == |s| == Start(s, shift, COUNTERS_SIZE) && Placed(dst, s, [], shift)
    ensures dst == Distribute(s, shift, COUNTERS_SIZE)
  {
    hide Distribute;
    forall p | 0 <= p < |s| ensures dst[p] == Distribute(s, shift, COUNTERS_SIZE)[p] {
      var a := PlaceHasAddress(s, shift, COUNTERS_SIZE, p);
      assert |Having([], Addr(shift), a)| == 0;
    }
  }

  /** One half of a round of radix_sort: a stable distribution of src into dst. */
  method CountingPass(src: array<Bucket>, dst: array<Bucket>, num: nat, shift: nat)
    requires src != dst && num <= src.Length && num <= dst.Length
    modifies dst
    ensures dst[..num] == Distribute(src[..num], shift, COUNTERS_SIZE)
    ensures dst[num..] == old(dst[num..])
  {
    ghost var s := src[..num];
    DistributeSize(s, shift);
    var counters := CountAddresses(src, num, shift);
    SumUp(counters, s, shift);
    Place(src, dst, num, shift, counters);
  }

  method CountAddresses(src: array<Bucket>, num: nat, shift: nat) returns (counters: array<nat>)
    requires num <= src.Length
    ensures fresh(counters) && counters.Length == COUNTERS_SIZE && Counted(counters[..], src[..num], shift)
  {
    hide Having;
    counters := new nat[COUNTERS_SIZE](_ => 0);
    ghost var s := src[..num];
    NothingCounted(counters[..], shift);
    for i := 0 to num
      invariant Counted(counters[..], s[..i], shift)
    {
      var addr := Get4Bits(src[i].count, shift);
      CountOne(counters[..], s, i, shift);
      counters[addr] := counters[addr] + 1;
    }
    assert s[..num] == s;
  }

  lemma NothingCounted(counters: seq<nat>, shift: nat)
    requires |counters| == COUNTERS_SIZE && forall a :: 0 <= a < COUNTERS_SIZE ==> counters[a] == 0
    ensures forall s :: s == [] ==> Counted(counters, s, shift)
  {
  }

  method SumUp(counters: array<nat>, ghost s: seq<Bucket>, shift: nat)
    requires counters.Length == COUNTERS_SIZE && Counted(counters[..], s, shift)
    modifies counters
    ensures Pointing(counters[..], s, s, shift)
  {
    hide Having, Distribute;
    StartStep(s, shift, 0);
    for i := 1 to COUNTERS_SIZE
      invariant counters.Length == COUNTERS_SIZE
      invariant forall a :: 0 <= a < i ==> counters[a] == Start(s, shift, a + 1)
      invariant forall a :: i <= a < COUNTERS_SIZE ==> counters[a] == |Having(s, Addr(shift), a)|
    {
      StartStep(s, shift, i);
      counters[i] := counters[i] + counters[i - 1];
    }
    forall a | 0 <= a < COUNTERS_SIZE ensures counters[..][a] == Start(s, shift, a) + |Having(s, Addr(shift), a)| {
      StartStep(s, shift, a);
    }
  }

  lemma StartStep(s: seq<Bucket>, shift: nat, a: nat)
    ensures Start(s, shift, a + 1) == Start(s, shift, a) + |Having(s, Addr(shift), a)|
    ensures Start(s, shift, 0) == 0
    ensures Start(s, shift, 1) == |Having(s, Addr(shift), 0)|
  {
  }

  method Place(src: array<Bucket>, dst: array<Bucket>, num: nat, shift: nat, counters: array<nat>)
    requires src != dst && num <= src.Length && num <= dst.Length
    requires counters.Length == COUNTERS_SIZE && Pointing(counters[..], src[..num], src[..num], shift)
    modifies dst, counters
    ensures dst[..num] == Distribute(src[..num], shift, COUNTERS_SIZE)
    ensures dst[num..] == old(dst[num..])
  {
    hide Having, Distribute, Placed, Pointing, Addr;
    ghost var s := src[..num];
    DistributeSize(s, shift);
    NonePlaced(dst[..num], s, shift);
    assert s[..num] == s;
    var i := num;
    while i > 0
      invariant 0 <= i <= num && src[..num] == s && counters.Length == COUNTERS_SIZE
      invariant Pointing(counters[..], s, s[..i], shift)
      invariant Placed(dst[..num], s, s[..i], shift)
      invariant dst[num..] == old(dst[num..])
    {
      i := i - 1;
      var addr := Get4Bits(src[i].count, shift);
      PlaceOne(counters[..], s, i, shift);
      ghost var c, d := counters[..], dst[..num];
      counters[addr] := counters[addr] - 1;
      var newAddr := counters[addr];
      dst[newAddr] := src[i];
      PointingAt(counters[..], s, s[..i], shift, addr);
      PlacedOne(d, s, i, shift, newAddr);
      assert counters[..] == c[addr := c[addr] - 1];
      assert dst[..num] == d[newAddr := s[i]];
    }
    AllPlaced(dst[..num], s, shift);
  }

  lemma PointingAt(counters: seq<nat>, s: seq<Bucket>, rest: seq<Bucket>, shift: nat, a: nat)
    requires Pointing(counters, s, rest, shift) && a < COUNTERS_SIZE
    ensures counters[a] == Start(s, shift, a) + |Having(rest, Addr(shift), a)|
  {
  }

  lemma NonePlaced(dst: seq<Bucket>, s: seq<Bucket>, shift: nat)
    requires |dst| == |s| == Start(s, shift, COUNTERS_SIZE)
    ensures Placed(dst, s, s, shift)
  {
    hide Having, Distribute;
    forall a | 0 <= a < COUNTERS_SIZE ensures Start(s, shift, a) + |Having(s, Addr(shift), a)|
        == Start(s, shift, a + 1) {
      StartStep(s, shift, a);
    }
  }

  // ----- the sort -----

  /** Rounds of two passes until shift reaches bitlen. */
  function Rounds(s: seq<Bucket>, shift: nat, bitlen: nat): seq<Bucket>
    decreases bitlen - shift
  {
    if shift >= bitlen then s
    else Rounds(Distribute(Distribute(s, shift, COUNTERS_SIZE), shift + RADIX_BASE, COUNTERS_SIZE),
      shift + 2 * RADIX_BASE, bitlen)
  }

  function MaxCount(s: seq<Bucket>): nat
    requires s != []
  {
    var n := |s| - 1;
    if n == 0 then s[0].count else if s[n].count > MaxCount(s[..n]) then s[n].count else MaxCount(s[..n])
  }

  /** Bits sorted on: ilog2 of the largest count, rounded up to a multiple of 8. */
  function BitLen(max: nat): nat
    requires max > 0
  {
    (Ilog2(max) + 7) / 8 * 8
  }

  /** radix_sort */
  method RadixSort(items: array<Bucket>, buf: array<Bucket>, num: nat)
    requires items != buf && 0 < num <= items.Length && num <= buf.Length && MaxCount(items[..num]) > 0
    modifies items, buf
    ensures items[..num] == old(Rounds(items[..num], 0, BitLen(MaxCount(items[..num]))))
    ensures items[num..] == old(items[num..]) && buf[num..] == old(buf[num..])
  {
    hide Distribute;
    ghost var s := items[..num];
    var maxNum := items[0].count;
    assert s[..1] == [s[0]];
    for i := 1 to num
      invariant maxNum == MaxCount(s[..i])
    {
      assert s[..i + 1][..i] == s[..i];
      if items[i].count > maxNum {
        maxNum := items[i].count;
      }
    }
    assert s[..num] == s;
    var bitlen := (Ilog2(maxNum) + 7) / 8 * 8;
    var shift := 0;
    while shift < bitlen
      invariant Rounds(items[..num], shift, bitlen) == Rounds(s, 0, bitlen)
      invariant items[num..] == old(items[num..]) && buf[num..] == old(buf[num..])
      decreases bitlen - shift
    {
      CountingPass(items, buf, num, shift);
      shift := shift + RADIX_BASE;
      CountingPass(buf, items, num, shift);
      shift := shift + RADIX_BASE;
    }
  }

  lemma {:induction false} RoundsSort(s: seq<Bucket>, t: seq<Bucket>, shift: nat, bitlen: nat)
    requires StableSort(s, t, Low(shift)) && shift <= bitlen && (bitlen - shift) % 8 == 0
    ensures StableSort(s, Rounds(t, shift, bitlen), Low(bitlen))
    decreases bitlen - shift
  {
    hide Distribute, StableSort;
    if shift < bitlen {
      PassExtends(s, t, shift);
      PassExtends(s, Distribute(t, shift, COUNTERS_SIZE), shift + 4);
      RoundsSort(s, Distribute(Distribute(t, shift, COUNTERS_SIZE), shift + 4, COUNTERS_SIZE), shift + 8, bitlen);
    }
  }

  /** What radix_sort leaves: the same buckets, in falling order of the low bits of
      their counts, equal ones in their old order. */
  lemma RadixResult(s: seq<Bucket>)
    requires s != [] && MaxCount(s) > 0
    ensures var bits := BitLen(MaxCount(s)); StableSort(s, Rounds(s, 0, bits), Low(bits))
  {
    hide StableSort;
    SortedByNothing(s);
    RoundsSort(s, s, 0, BitLen(MaxCount(s)));
  }

  /** What radix_sort leaves, in terms of the buckets: the largest count gives the number of
      bits, its logarithm rounded up to a multiple of 8; the buckets come out by falling low
      bits of their counts, each from one old place, and those with equal low bits in their old
      order. */
  lemma RadixInWords(s: seq<Bucket>) returns (max: nat, log: nat, bits: nat, from: seq<nat>)
    requires s != [] && MaxCount(s) > 0
    ensures (forall k :: 0 <= k < |s| ==> s[k].count <= max) && exists k :: 0 <= k < |s| && s[k].count == max
    ensures Pow2(log) <= max < 2 * Pow2(log) && log <= bits < log + 8 && bits % 8 == 0
    ensures var t := Rounds(s, 0, BitLen(MaxCount(s)));
            && |t| == |s| == |from|
            && (forall k :: 0 <= k < |t| ==> from[k] < |s| && t[k] == s[from[k]])
            && (forall i, j :: 0 <= i < j < |t| ==> t[i].count % Pow2(bits) >= t[j].count % Pow2(bits))
            && (forall i, j :: 0 <= i < j < |t| ==> from[i] != from[j])
            && (forall i, j :: 0 <= i < j < |t| && t[i].count % Pow2(bits) == t[j].count % Pow2(bits)
                               ==> from[i] < from[j])
  {
    hide Rounds, MaxCount, Pow2, Low, StableSort;
    max, log, bits := BitsFor(s);
    RadixResult(s);
    var t := Rounds(s, 0, bits);
    from := Origins(s, t, Low(bits));
    forall i, j | 0 <= i < j < |t|
      ensures t[i].count % Pow2(bits) >= t[j].count % Pow2(bits)
      ensures t[i].count % Pow2(bits) == t[j].count % Pow2(bits) ==> from[i] < from[j]
    {
      LowIs(t[i], bits);
      LowIs(t[j], bits);
    }
  }

  lemma LowIs(b: Bucket, bits: nat)
    ensures Low(bits)(b) == b.count % Pow2(bits)
  {
    hide Pow2;
  }

  lemma BitsFor(s: seq<Bucket>) returns (max: nat, log: nat, bits: nat)
    requires s != [] && MaxCount(s) > 0
    ensures max == MaxCount(s) && bits == BitLen(max)
    ensures (forall k :: 0 <= k < |s| ==> s[k].count <= max) && exists k :: 0 <= k < |s| && s[k].count == max
    ensures Pow2(log) <= max < 2 * Pow2(log) && log <= bits < log + 8 && bits % 8 == 0
  {
    hide MaxCount, Ilog2;
    max := MaxCount(s);
    log, bits := Ilog2(max), BitLen(max);
    Ilog2Bounds(max);
    Double(log);
    MaxOccurs(s);
    forall k | 0 <= k < |s| ensures s[k].count <= max {
      MaxIsMax(s, k);
    }
  }

  lemma {:induction false} MaxOccurs(s: seq<Bucket>)
    requires s != []
    ensures exists k :: 0 <= k < |s| && s[k].count == MaxCount(s)
  {
    var n := |s| - 1;
    if n > 0 && s[n].count <= MaxCount(s[..n]) {
      MaxOccurs(s[..n]);
      var k :| 0 <= k < n && s[..n][k].count == MaxCount(s[..n]);
      assert s[k].count == MaxCount(s);
    } else {
      assert s[n].count == MaxCount(s);
    }
  }

  lemma SortedByNothing(s: seq<Bucket>)
    ensures StableSort(s, s, Low(0))
  {
    forall b: Bucket ensures Low(0)(b) == 0 {
      assert Pow2(0) == 1;
    }
  }

  /** BitLen is enough for the largest count exactly when its ilog2 is not a multiple of 8. */
  lemma EnoughBits(max: nat)
    requires max > 0
    ensures max < Pow2(BitLen(max)) <==> Ilog2(max) % 8 != 0
  {
    hide Pow2, Ilog2;
    Ilog2Bounds(max);
    if Ilog2(max) % 8 != 0 {
      Pow2Mono(Ilog2(max) + 1, BitLen(max));
    }
  }

  lemma {:induction false} MaxIsMax(s: seq<Bucket>, i: nat)
    requires i < |s|
    ensures s[i].count <= MaxCount(s)
  {
    var n := |s| - 1;
    if i < n {
      MaxIsMax(s[..n], i);
    }
  }

  /** With enough bits the result is in falling order of the counts. */
  lemma FullySorted(s: seq<Bucket>)
    requires s != [] && MaxCount(s) > 0 && Ilog2(MaxCount(s)) % 8 != 0
    ensures Descending(Rounds(s, 0, BitLen(MaxCount(s))), Count())
  {
    hide Pow2, Ilog2, Rounds, MaxCount;
    var bits := BitLen(MaxCount(s));
    var t := Rounds(s, 0, bits);
    RadixResult(s);
    EnoughBits(MaxCount(s));
    forall i | 0 <= i < |t| ensures Low(bits)(t[i]) == t[i].count {
      HavingMembers(t, Low(bits), Low(bits)(t[i]), t[i]);
      HavingMembers(s, Low(bits), Low(bits)(t[i]), t[i]);
      var k :| 0 <= k < |s| && s[k] == t[i];
      MaxIsMax(s, k);
      SmallRemainder(t[i].count, Pow2(bits));
    }
  }

  lemma SmallRemainder(n: nat, m: nat)
    requires n < m
    ensures n % m == n
  {
  }

  // ----- when the result is in falling order of the counts -----

  /** No smaller count goes before a larger one: by its key, or by its place among equal keys. */
  ghost predicate Agrees(s: seq<Bucket>, key: Bucket -> int) {
    forall i, j :: 0 <= i < |s| && 0 <= j < |s| && s[i].count < s[j].count ==> Behind(s, key, i, j)
  }

  predicate Behind(s: seq<Bucket>, key: Bucket -> int, i: nat, j: nat)
    requires i < |s| && j < |s|
  {
    key(s[i]) < key(s[j]) || (key(s[i]) == key(s[j]) && j < i)
  }

  /** A stable sort by some key is in falling order of the counts exactly when the array agrees. */
  lemma SortedIffAgrees(s: seq<Bucket>, t: seq<Bucket>, key: Bucket -> int)
    requires StableSort(s, t, key)
    ensures Descending(t, Count()) <==> Agrees(s, key)
  {
    hide Having;
    if Descending(t, Count()) {
      forall i, j | 0 <= i < |s| && 0 <= j < |s| && s[i].count < s[j].count ensures Behind(s, key, i, j) {
        SortedAgrees(s, t, key, i, j);
      }
    }
    if Agrees(s, key) {
      forall p, q | 0 <= p < q < |t| ensures t[p].count >= t[q].count {
        AgreesSorted(s, t, key, p, q);
      }
    }
  }

  lemma SortedAgrees(s: seq<Bucket>, t: seq<Bucket>, key: Bucket -> int, i: nat, j: nat)
    requires StableSort(s, t, key) && Descending(t, Count()) && i < |s| && j < |s| && s[i].count < s[j].count
    ensures Behind(s, key, i, j)
  {
    hide Having;
    var v := key(s[i]);
    if v == key(s[j]) {
      if i < j {
        SelectionSorted(t, key, v, Count());
        SortedInSelection(s, key, v, Count(), i, j);
      }
    } else if v > key(s[j]) {
      var p := PlaceOf(s, t, key, i);
      var q := PlaceOf(s, t, key, j);
      LargerFirst(t, key, p, q);
      LargerFirst(t, Count(), q, p);
    }
  }

  lemma LargerFirst(t: seq<Bucket>, key: Bucket -> int, p: nat, q: nat)
    requires Descending(t, key) && p < |t| && q < |t| && key(t[p]) > key(t[q])
    ensures p < q
  {
  }

  /** Every element of the array is somewhere in the result. */
  lemma PlaceOf(s: seq<Bucket>, t: seq<Bucket>, key: Bucket -> int, i: nat) returns (p: nat)
    requires StableSort(s, t, key) && i < |s|
    ensures p < |t| && t[p] == s[i]
  {
    hide Having;
    HavingMembers(s, key, key(s[i]), s[i]);
    HavingMembers(t, key, key(s[i]), s[i]);
    p :| p < |t| && t[p] == s[i];
  }

  lemma AgreesSorted(s: seq<Bucket>, t: seq<Bucket>, key: Bucket -> int, p: nat, q: nat)
    requires StableSort(s, t, key) && Agrees(s, key) && p < q < |t|
    ensures t[p].count >= t[q].count
  {
    hide Having;
    var v := key(t[p]);
    if v == key(t[q]) {
      SelectionInOrder(s, key, v, Count());
      SortedInSelection(t, key, v, Count(), p, q);
    } else {
      HavingMembers(t, key, v, t[p]);
      HavingMembers(s, key, v, t[p]);
      HavingMembers(t, key, key(t[q]), t[q]);
      HavingMembers(s, key, key(t[q]), t[q]);
      var i :| 0 <= i < |s| && s[i] == t[p];
      var j :| 0 <= j < |s| && s[j] == t[q];
      assert s[i].count < s[j].count ==> Behind(s, key, i, j);
    }
  }

  lemma {:induction false} SelectionInOrder(s: seq<Bucket>, key: Bucket -> int, v: int, rank: Bucket -> int)
    requires forall i, j :: 0 <= i < j < |s| && key(s[i]) == v == key(s[j]) ==> rank(s[i]) >= rank(s[j])
    ensures Descending(Having(s, key, v), rank)
  {
    if s != [] {
      var n := |s| - 1;
      SelectionInOrder(s[..n], key, v, rank);
      forall x | x in Having(s[..n], key, v) ensures key(s[n]) == v ==> rank(x) >= rank(s[n]) {
        HavingMembers(s[..n], key, v, x);
        var i :| 0 <= i < n && s[..n][i] == x;
        assert s[i] == x;
      }
    }
  }

  /** radix_sort sorts an array by its full counts exactly when no smaller count overtakes
      a larger one in its low bits. */
  lemma RadixSortsIff(s: seq<Bucket>)
    requires s != [] && MaxCount(s) > 0
    ensures var bits := BitLen(MaxCount(s)); Descending(Rounds(s, 0, bits), Count()) <==> Agrees(s, Low(bits))
  {
    hide StableSort, Rounds, MaxCount, BitLen, Descending, Agrees;
    RadixResult(s);
    var bits := BitLen(MaxCount(s));
    SortedIffAgrees(s, Rounds(s, 0, bits), Low(bits));
  }

  /** A bucket that hides a larger one behind it, by losing no more of its count. */
  lemma Misplaced(s: seq<Bucket>, i: nat, j: nat)
    requires i < j < |s| && MaxCount(s) > 0 && s[i].count < s[j].count
    requires var bits := BitLen(MaxCount(s)); s[i].count % Pow2(bits) >= s[j].count % Pow2(bits)
    ensures !Descending(Rounds(s, 0, BitLen(MaxCount(s))), Count())
  {
    hide Rounds, MaxCount, BitLen, Descending, Pow2;
    RadixSortsIff(s);
    assert !Behind(s, Low(BitLen(MaxCount(s))), i, j);
  }

  lemma {:induction false} MaxIs(s: seq<Bucket>, i: nat)
    requires i < |s| && forall j :: 0 <= j < |s| ==> s[j].count <= s[i].count
    ensures MaxCount(s) == s[i].count
  {
    var n := |s| - 1;
    if i < n {
      MaxIs(s[..n], i);
    } else if n > 0 {
      MaxBelow(s[..n], s[n].count);
    }
  }

  lemma {:induction false} MaxBelow(s: seq<Bucket>, m: nat)
    requires s != [] && forall j :: 0 <= j < |s| ==> s[j].count <= m
    ensures MaxCount(s) <= m
  {
    var n := |s| - 1;
    if n > 0 {
      MaxBelow(s[..n], m);
    }
  }

  function Same(n: nat, count: nat): seq<Bucket> {
    seq(n, _ => Bucket(count, 0))
  }

  /** n buckets that the sort leaves in the wrong order: the largest count loses its top
      bit, and what stays of it is what the bucket before it has. */
  function Witness(max: nat, n: nat): (s: seq<Bucket>)
    requires max > 0 && Ilog2(max) % 8 == 0 && n >= 2
    ensures |s| == n
  {
    Ilog2Bounds(max);
    [Bucket(max - Pow2(Ilog2(max)), 0), Bucket(max, 1)] + Same(n - 2, 0)
  }

  lemma WitnessFails(max: nat, n: nat)
    requires max > 0 && Ilog2(max) % 8 == 0 && n >= 2
    ensures var s := Witness(max, n); MaxCount(s) == max && !Descending(Rounds(s, 0, BitLen(max)), Count())
  {
    hide Pow2, Ilog2, Rounds, MaxCount, Descending;
    Ilog2Bounds(max);
    var s, m := Witness(max, n), Pow2(Ilog2(max));
    MaxIs(s, 1);
    Double(Ilog2(max));
    assert BitLen(max) == Ilog2(max);
    UniqueRemainder(max, m, 1, max - m);
    SmallRemainder(max - m, m);
    Misplaced(s, 0, 1);
  }

  lemma Double(n: nat)
    ensures Pow2(n + 1) == 2 * Pow2(n)
  {
  }

  /** radix_sort sorts every array of n buckets with this largest count by its full counts
      exactly when ilog2 of that count is not a multiple of 8. */
  lemma SortsIffEnoughBits(max: nat, n: nat)
    requires max > 0 && n >= 2
    ensures (forall s: seq<Bucket> :: |s| == n && MaxCount(s) == max ==> Descending(Rounds(s, 0, BitLen(max)), Count()))
       <==> Ilog2(max) % 8 != 0
  {
    hide Rounds, Ilog2, MaxCount, BitLen, Descending;
    if Ilog2(max) % 8 != 0 {
      forall s: seq<Bucket> | |s| == n && MaxCount(s) == max ensures Descending(Rounds(s, 0, BitLen(max)), Count()) {
        FullySorted(s);
      }
    } else {
      WitnessFails(max, n);
    }
  }

  // ----- the arrays that byte_core_set_size passes -----

  const SAMPLING_READ_SIZE := 16
  const BYTE_SET_THRESHOLD := 64

  function Total(s: seq<Bucket>): nat {
    if s == [] then 0 else Total(s[..|s| - 1]) + s[|s| - 1].count
  }

  /** The byte values that occur. */
  function Used(s: seq<Bucket>): nat {
    if s == [] then 0 else Used(s[..|s| - 1]) + if s[|s| - 1].count > 0 then 1 else 0
  }

  /** Counts of the 256 byte values in a sample of whole reads, of which enough occur for
      the heuristic to come to the core set. */
  predicate Sampled(s: seq<Bucket>) {
    && |s| == BUCKET_SIZE
    && Total(s) <= MAX_SAMPLE_SIZE && Total(s) % SAMPLING_READ_SIZE == 0
    && Used(s) >= BYTE_SET_THRESHOLD
  }

  lemma {:induction false} SampleConcat(a: seq<Bucket>, b: seq<Bucket>)
    ensures Total(a + b) == Total(a) + Total(b) && Used(a + b) == Used(a) + Used(b)
  {
    if b == [] {
      assert a + b == a;
    } else {
      var n := |b| - 1;
      assert (a + b)[..|a| + n] == a + b[..n];
      SampleConcat(a, b[..n]);
    }
  }

  lemma {:induction false} SampleSame(n: nat, count: nat)
    ensures Total(Same(n, count)) == n * count && Used(Same(n, count)) == if count > 0 then n else 0
  {
    if n > 0 {
      assert Same(n, count)[..n - 1] == Same(n - 1, count);
      SampleSame(n - 1, count);
      assert (n - 1) * count + count == n * count;
    }
  }

  lemma {:induction false} CountBelowTotal(s: seq<Bucket>, i: nat)
    requires i < |s|
    ensures s[i].count <= Total(s)
  {
    var n := |s| - 1;
    if i < n {
      CountBelowTotal(s[..n], i);
    }
  }

  lemma {:induction false} MaxBelowTotal(s: seq<Bucket>)
    requires s != []
    ensures MaxCount(s) <= Total(s)
  {
    forall i | 0 <= i < |s| ensures s[i].count <= Total(s) {
      CountBelowTotal(s, i);
    }
    MaxBelow(s, Total(s));
  }

  /** So many buckets of count 1 round the total up to a multiple of 16. */
  function Ones(max: nat): (ones: nat)
    ensures 62 <= ones < 78 && (255 + max + ones) % SAMPLING_READ_SIZE == 0
  {
    62 + 15 - (max + 12) % 16
  }

  /** A sample for which the sort fails: one value occurs max times, one 255 times, and
      enough others once; or 64 values once, behind one that does not occur. */
  function BadSample(max: nat): seq<Bucket> {
    if max == 1 then [Bucket(0, 0)] + Same(64, 1) + Same(191, 0)
    else
      [Bucket(255, 0), Bucket(max, 1)] + Same(Ones(max), 1) + Same(254 - Ones(max), 0)
  }

  lemma BadSampleFails(max: nat)
    requires max == 1 || 256 <= max < 512
    ensures var s := BadSample(max);
            Sampled(s) && MaxCount(s) == max && !Descending(Rounds(s, 0, BitLen(max)), Count())
  {
    hide Rounds, MaxCount, Descending, Ilog2, Pow2, Total, Used;
    BadSampleIsSample(max);
    var s := BadSample(max);
    MaxIs(s, 1);
    SmallLogs(max);
    Misplaced(s, 0, 1);
  }

  lemma BadSampleIsSample(max: nat)
    requires max == 1 || 256 <= max < 512
    ensures Sampled(BadSample(max))
  {
    hide Total, Used, Same, Ones;
    if max == 1 {
      SampleOne(Bucket(0, 0));
      SampleOf([Bucket(0, 0)], 64, 191);
    } else {
      SampleTwo(max);
      SampleOf([Bucket(255, 0), Bucket(max, 1)], Ones(max), 254 - Ones(max));
    }
  }

  lemma SampleTwo(max: nat)
    requires max > 0
    ensures Total([Bucket(255, 0), Bucket(max, 1)]) == 255 + max && Used([Bucket(255, 0), Bucket(max, 1)]) == 2
  {
    hide Total, Used;
    SampleConcat([Bucket(255, 0)], [Bucket(max, 1)]);
    assert [Bucket(255, 0)] + [Bucket(max, 1)] == [Bucket(255, 0), Bucket(max, 1)];
    SampleOne(Bucket(255, 0));
    SampleOne(Bucket(max, 1));
  }

  lemma SampleOne(b: Bucket)
    ensures Total([b]) == b.count && Used([b]) == if b.count > 0 then 1 else 0
  {
    assert [b][..0] == [];
  }

  lemma SampleOf(head: seq<Bucket>, ones: nat, zeros: nat)
    ensures var s := head + Same(ones, 1) + Same(zeros, 0);
            |s| == |head| + ones + zeros && Total(s) == Total(head) + ones && Used(s) == Used(head) + ones
  {
    hide Total, Used;
    SampleConcat(head + Same(ones, 1), Same(zeros, 0));
    SampleConcat(head, Same(ones, 1));
    SampleSame(ones, 1);
    SampleSame(zeros, 0);
  }

  /** Up to 8192, the logarithms that are multiples of 8 are those of 1 and of 256 to 511. */
  lemma SmallLogs(max: nat)
    requires 0 < max <= MAX_SAMPLE_SIZE
    ensures Ilog2(max) % 8 == 0 <==> max == 1 || 256 <= max < 512
    ensures max == 1 ==> Pow2(BitLen(max)) == 1
    ensures 256 <= max < 512 ==> Pow2(BitLen(max)) == 256
  {
    hide Ilog2;
    Ilog2Bounds(max);
    assert Pow2(1) == 2 && Pow2(4) == 16 && Pow2(8) == 256 && Pow2(9) == 512 && Pow2(12) == 4096 && Pow2(14) == 0x4000;
    var k := Ilog2(max);
    if k >= 14 {
      Pow2Mono(14, k);
    } else if k >= 9 {
      Pow2Mono(9, k);
    } else if 0 < k < 8 {
      Pow2Mono(k + 1, 8);
      Pow2Mono(1, k);
    }
  }

  /** On what the heuristic passes, radix_sort sorts all samples with this largest count
      exactly when it is neither 1 nor from 256 to 511. */
  lemma SamplesSortedIff(max: nat)
    requires max > 0
    ensures (forall s: seq<Bucket> :: Sampled(s) && MaxCount(s) == max
                 ==> Descending(Rounds(s, 0, BitLen(max)), Count()))
       <==> !(max == 1 || 256 <= max < 512)
  {
    hide Rounds, Ilog2, MaxCount, BitLen, Descending, Total, Used, BadSample;
    if max == 1 || 256 <= max < 512 {
      BadSampleFails(max);
    } else {
      forall s: seq<Bucket> | Sampled(s) && MaxCount(s) == max ensures Descending(Rounds(s, 0, BitLen(max)), Count()) {
        MaxBelowTotal(s);
        SmallLogs(max);
        FullySorted(s);
      }
    }
  }
}
