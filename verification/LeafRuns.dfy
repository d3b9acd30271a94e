/** Runs of items on their way from one leaf to another: headers and data travel
    separately, and offsets are rewritten at the end. */
module LeafRuns {
  import opened Keys
  import opened Tree
  import opened LittleEndian
  import opened Words
  import opened LeafFormat

  // ----- data -----

  /** The data of these items lies densely below end. */
  ghost predicate DataRun(s: seq<Byte>, its: seq<Item>, end: int) {
    forall i :: 0 <= i < |its| ==> At(s, Offset(its, i, end), its[i].data)
  }

  lemma RunBounds(its: seq<Item>, i: nat, end: int)
    requires i < |its|
    ensures end - DataLen(its, |its|) <= Offset(its, i, end) && Offset(its, i, end) + |its[i].data| <= end
  {
    hide DataLen;
    DataLenMono(its, i + 1, |its|);
    DataLenMono(its, 0, i);
    DataLenNone(its);
    OffsetChain(its, i, end);
  }

  lemma DataRunKept(x: seq<Byte>, from: int, s: seq<Byte>, t: seq<Byte>, to: int, len: int, its: seq<Item>, end: int)
    requires Copied(x, from, s, t, to, len) && DataRun(s, its, end)
    requires end <= to || to + len <= end - DataLen(its, |its|)
    ensures DataRun(t, its, end)
  {
    hide At, Copied, DataLen, Offset;
    forall i | 0 <= i < |its| ensures At(t, Offset(its, i, end), its[i].data) {
      RunBounds(its, i, end);
      Kept(x, from, s, t, to, len, Offset(its, i, end), its[i].data);
    }
  }

  lemma DataRunLanded(x: seq<Byte>, from: int, s: seq<Byte>, t: seq<Byte>, to: int, len: int, its: seq<Item>, end: int)
    requires Copied(x, from, s, t, to, len) && DataRun(x, its, end)
    requires from <= end - DataLen(its, |its|) && end <= from + len
    ensures DataRun(t, its, to + (end - from))
  {
    hide At, Copied, DataLen;
    forall i | 0 <= i < |its| ensures At(t, Offset(its, i, to + (end - from)), its[i].data) {
      RunBounds(its, i, end);
      Landed(x, from, s, t, to, len, Offset(its, i, end), its[i].data);
      assert Offset(its, i, to + (end - from)) == to + (Offset(its, i, end) - from);
    }
  }

  lemma SliceLens(items: seq<Item>, lo: nat, hi: nat, i: nat)
    requires lo <= hi <= |items| && i <= hi - lo
    ensures DataLen(items[lo..hi], i) == DataLen(items, lo + i) - DataLen(items, lo)
  {
    hide DataLen;
    var its := items[lo..hi];
    assert its[0..0 + i] == items[lo..lo + i];
    DataLenRun(its, 0, items, lo, i);
    DataLenNone(its);
  }

  lemma ConcatLens(a: seq<Item>, b: seq<Item>, i: nat)
    requires i <= |a| + |b|
    ensures DataLen(a + b, i) == if i <= |a| then DataLen(a, i) else DataLen(a, |a|) + DataLen(b, i - |a|)
  {
    hide DataLen;
    var ab, k := a + b, if i <= |a| then i else |a|;
    DataLenNone(ab);
    DataLenNone(a);
    DataLenNone(b);
    assert ab[0..k] == a[0..k];
    DataLenRun(ab, 0, a, 0, k);
    if i > |a| {
      assert ab[|a|..i] == b[0..i - |a|];
      DataLenRun(ab, |a|, b, 0, i - |a|);
    }
  }

  lemma DataRunOfLayout(s: seq<Byte>, items: seq<Item>, lo: nat, hi: nat)
    requires Layout(s, items) && lo <= hi <= |items|
    ensures DataRun(s, items[lo..hi], |s| - DataLen(items, lo))
  {
    hide At, DataLen, HeaderAt, Layout;
    var its := items[lo..hi];
    forall i | 0 <= i < |its| ensures At(s, Offset(its, i, |s| - DataLen(items, lo)), its[i].data) {
      SliceLens(items, lo, hi, i + 1);
      ItemPlace(s, items, lo + i);
      assert Offset(its, i, |s| - DataLen(items, lo)) == Offset(items, lo + i, |s|);
    }
  }

  lemma DataRunsJoin(s: seq<Byte>, a: seq<Item>, b: seq<Item>, end: int)
    requires DataRun(s, a, end) && DataRun(s, b, end - DataLen(a, |a|))
    ensures DataRun(s, a + b, end)
  {
    hide At, DataLen;
    var ab := a + b;
    forall i | 0 <= i < |ab| ensures At(s, Offset(ab, i, end), ab[i].data) {
      ConcatLens(a, b, i + 1);
      if i < |a| {
        assert Offset(ab, i, end) == Offset(a, i, end);
      } else {
        assert Offset(ab, i, end) == Offset(b, i - |a|, end - DataLen(a, |a|));
      }
    }
  }

  // ----- headers -----

  /** A header with the right key and size, whatever its offset. */
  predicate Sized(s: seq<Byte>, i: nat, it: Item) {
    && ITEM_HEADER * (i + 1) <= |s|
    && At(s, ITEM_HEADER * i, EncodeKey(it.key))
    && At(s, ITEM_HEADER * i + 21, ToLE(|it.data|, 4))
  }

  ghost predicate SizedRun(s: seq<Byte>, at: nat, its: seq<Item>) {
    forall i :: 0 <= i < |its| ==> Sized(s, at + i, its[i])
  }

  predicate Head(s: seq<Byte>, i: nat, it: Item, offset: int) {
    HeaderAt(s, i, it.key, offset, |it.data|)
  }

  ghost predicate HeaderRun(s: seq<Byte>, at: nat, its: seq<Item>, end: int) {
    forall i :: 0 <= i < |its| ==> Head(s, at + i, its[i], Offset(its, i, end))
  }

  lemma SizedKept(x: seq<Byte>, from: int, s: seq<Byte>, t: seq<Byte>, to: int, len: int, i: nat, it: Item)
    requires Copied(x, from, s, t, to, len) && Sized(s, i, it)
    requires ITEM_HEADER * (i + 1) <= to || to + len <= ITEM_HEADER * i
    ensures Sized(t, i, it)
  {
    hide Copied, At, EncodeKey, ToLE;
    CopiedLength(x, from, s, t, to, len);
    Kept(x, from, s, t, to, len, ITEM_HEADER * i, EncodeKey(it.key));
    Kept(x, from, s, t, to, len, ITEM_HEADER * i + 21, ToLE(|it.data|, 4));
  }

  lemma SizedLanded(x: seq<Byte>, a: nat, s: seq<Byte>, t: seq<Byte>, b: nat, n: nat, i: nat, it: Item)
    requires Copied(x, ITEM_HEADER * a, s, t, ITEM_HEADER * b, ITEM_HEADER * n) && Sized(x, i, it)
    requires a <= i < a + n
    ensures Sized(t, b + (i - a), it)
  {
    hide At, EncodeKey, ToLE, Copied;
    CopyFits(x, ITEM_HEADER * a, s, t, ITEM_HEADER * b, ITEM_HEADER * n);
    Landed(x, ITEM_HEADER * a, s, t, ITEM_HEADER * b, ITEM_HEADER * n, ITEM_HEADER * i, EncodeKey(it.key));
    Landed(x, ITEM_HEADER * a, s, t, ITEM_HEADER * b, ITEM_HEADER * n, ITEM_HEADER * i + 21, ToLE(|it.data|, 4));
  }

  lemma CopyFits(x: seq<Byte>, from: int, s: seq<Byte>, t: seq<Byte>, to: int, len: int)
    requires Copied(x, from, s, t, to, len)
    ensures |t| == |s| && from + len <= |x| && 0 <= len && to + len <= |s|
  {
  }

  lemma SizedRunKept(x: seq<Byte>, from: int, s: seq<Byte>, t: seq<Byte>, to: int, len: int, at: nat, its: seq<Item>)
    requires Copied(x, from, s, t, to, len) && SizedRun(s, at, its)
    requires ITEM_HEADER * (at + |its|) <= to || to + len <= ITEM_HEADER * at
    ensures SizedRun(t, at, its)
  {
    hide Copied, Sized;
    forall i | 0 <= i < |its| ensures Sized(t, at + i, its[i]) {
      SizedKept(x, from, s, t, to, len, at + i, its[i]);
    }
  }

  lemma SizedRunLanded(x: seq<Byte>, a: nat, s: seq<Byte>, t: seq<Byte>, b: nat, its: seq<Item>)
    requires Copied(x, ITEM_HEADER * a, s, t, ITEM_HEADER * b, ITEM_HEADER * |its|) && SizedRun(x, a, its)
    ensures SizedRun(t, b, its)
  {
    hide Copied, Sized;
    forall i | 0 <= i < |its| ensures Sized(t, b + i, its[i]) {
      SizedLanded(x, a, s, t, b, |its|, a + i, its[i]);
      assert b + (a + i - a) == b + i;
    }
  }

  lemma HeaderRunLanded(x: seq<Byte>, a: nat, s: seq<Byte>, t: seq<Byte>, b: nat, its: seq<Item>, end: int)
    requires Copied(x, ITEM_HEADER * a, s, t, ITEM_HEADER * b, ITEM_HEADER * |its|) && HeaderRun(x, a, its, end)
    ensures HeaderRun(t, b, its, end)
  {
    hide Copied, HeaderAt, Offset;
    forall i | 0 <= i < |its| ensures Head(t, b + i, its[i], Offset(its, i, end)) {
      HeaderLanded(x, a, s, t, b, |its|, a + i, its[i].key, Offset(its, i, end), |its[i].data|);
      assert b + (a + i) - a == b + i;
    }
  }

  lemma HeaderRunKept(x: seq<Byte>, from: int, s: seq<Byte>, t: seq<Byte>, to: int, len: int, at: nat, its: seq<Item>,
      end: int)
    requires Copied(x, from, s, t, to, len) && HeaderRun(s, at, its, end)
    requires ITEM_HEADER * (at + |its|) <= to || to + len <= ITEM_HEADER * at
    ensures HeaderRun(t, at, its, end)
  {
    hide Copied, HeaderAt, Offset;
    forall i | 0 <= i < |its| ensures Head(t, at + i, its[i], Offset(its, i, end)) {
      HeaderKept(x, from, s, t, to, len, at + i, its[i].key, Offset(its, i, end), |its[i].data|);
    }
  }

  lemma HeaderRunOfLayout(s: seq<Byte>, items: seq<Item>, lo: nat, hi: nat)
    requires Layout(s, items) && lo <= hi <= |items|
    ensures HeaderRun(s, lo, items[lo..hi], |s| - DataLen(items, lo))
    ensures SizedRun(s, lo, items[lo..hi])
  {
    hide Layout, Head, Sized, Offset, DataLen;
    var its := items[lo..hi];
    forall i | 0 <= i < |its|
      ensures Head(s, lo + i, its[i], Offset(its, i, |s| - DataLen(items, lo))) && Sized(s, lo + i, its[i])
    {
      HeadOfLayout(s, items, lo, hi, i);
    }
  }

  lemma HeadOfLayout(s: seq<Byte>, items: seq<Item>, lo: nat, hi: nat, i: nat)
    requires Layout(s, items) && lo <= hi <= |items| && i < hi - lo
    ensures var its := items[lo..hi];
            Head(s, lo + i, its[i], Offset(its, i, |s| - DataLen(items, lo))) && Sized(s, lo + i, its[i])
  {
    hide DataLen, Layout, HeaderAt, Sized;
    SliceLens(items, lo, hi, i + 1);
    ItemPlace(s, items, lo + i);
    SizedOf(s, lo + i, items[lo + i], Offset(items, lo + i, |s|));
    assert Offset(items[lo..hi], i, |s| - DataLen(items, lo)) == Offset(items, lo + i, |s|);
  }

  lemma SizedOf(s: seq<Byte>, i: nat, it: Item, offset: int)
    requires HeaderAt(s, i, it.key, offset, |it.data|)
    ensures Sized(s, i, it)
  {
    hide EncodeKey, ToLE;
  }

  lemma SizedRunsJoin(s: seq<Byte>, at: nat, a: seq<Item>, b: seq<Item>)
    requires SizedRun(s, at, a) && SizedRun(s, at + |a|, b)
    ensures SizedRun(s, at, a + b)
  {
    hide Sized;
    var ab := a + b;
    forall i | 0 <= i < |ab| ensures Sized(s, at + i, ab[i]) {
      if i >= |a| {
        assert Sized(s, at + |a| + (i - |a|), b[i - |a|]);
      }
    }
  }

  lemma HeaderRunsJoin(s: seq<Byte>, a: seq<Item>, b: seq<Item>, end: int)
    requires HeaderRun(s, 0, a, end) && HeaderRun(s, |a|, b, end - DataLen(a, |a|))
    ensures HeaderRun(s, 0, a + b, end)
  {
    hide Head, Offset, DataLen;
    var ab := a + b;
    forall i | 0 <= i < |ab| ensures Head(s, 0 + i, ab[i], Offset(ab, i, end)) {
      OffsetInJoin(a, b, i, end);
      if i < |a| {
        assert Head(s, 0 + i, a[i], Offset(a, i, end));
      } else {
        var k := i - |a|;
        assert Head(s, |a| + k, b[k], Offset(b, k, end - DataLen(a, |a|)));
      }
    }
  }

  lemma OffsetInJoin(a: seq<Item>, b: seq<Item>, i: nat, end: int)
    requires i < |a| + |b|
    ensures Offset(a + b, i, end) == if i < |a| then Offset(a, i, end) else Offset(b, i - |a|, end - DataLen(a, |a|))
  {
    hide DataLen;
    ConcatLens(a, b, i + 1);
  }

  /** Headers and data of the same run make a leaf. */
  lemma LayoutOfRuns(s: seq<Byte>, its: seq<Item>)
    requires HeaderRun(s, 0, its, |s|) && DataRun(s, its, |s|)
    requires ITEM_HEADER * |its| + DataLen(its, |its|) <= |s|
    ensures Layout(s, its)
  {
    hide HeaderRun, DataRun, ItemAt, DataLen, Offset, Layout;
    forall i | 0 <= i < |its| ensures ItemAt(s, i, its[i], Offset(its, i, |s|)) {
      ItemOfRuns(s, its, i);
    }
    MakeLayout(s, its, |s|);
  }

  lemma ItemOfRuns(s: seq<Byte>, its: seq<Item>, i: nat)
    requires HeaderRun(s, 0, its, |s|) && DataRun(s, its, |s|) && i < |its|
    ensures ItemAt(s, i, its[i], Offset(its, i, |s|))
  {
    hide HeaderAt, At, DataLen, Offset;
    assert Head(s, 0 + i, its[i], Offset(its, i, |s|));
  }

  /** Rewriting an offset makes a sized header a full one. */
  lemma OffsetFilled(s: seq<Byte>, t: seq<Byte>, i: nat, it: Item, v: nat)
    requires Sized(s, i, it) && Copied(ToLE(v, 4), 0, s, t, ITEM_HEADER * i + 17, 4)
    ensures HeaderAt(t, i, it.key, v, |it.data|)
  {
    hide Copied, EncodeKey, ToLE, At;
    Kept(ToLE(v, 4), 0, s, t, ITEM_HEADER * i + 17, 4, ITEM_HEADER * i, EncodeKey(it.key));
    Kept(ToLE(v, 4), 0, s, t, ITEM_HEADER * i + 17, 4, ITEM_HEADER * i + 21, ToLE(|it.data|, 4));
    AtWhole(ToLE(v, 4));
    Landed(ToLE(v, 4), 0, s, t, ITEM_HEADER * i + 17, 4, 0, ToLE(v, 4));
  }

  lemma SizeOf(s: seq<Byte>, i: nat, it: Item)
    requires Sized(s, i, it) && |it.data| < U32
    ensures SizeField(s, i) == |it.data|
  {
    hide At, EncodeKey, ToLE, FromLE;
    Widths();
    RoundTrip(|it.data|, 4);
    AtIsSlice(s, ITEM_HEADER * i + 21, ToLE(|it.data|, 4));
  }

  /** One round of the loop that recomputes all offsets. */
  lemma OffsetStep(s: seq<Byte>, t: seq<Byte>, its: seq<Item>, i: nat, end: int, v: nat)
    requires i < |its| && v == Offset(its, i, end)
    requires HeaderRun(s, 0, its[..i], end) && SizedRun(s, i, its[i..])
    requires Copied(ToLE(v, 4), 0, s, t, ITEM_HEADER * i + 17, 4)
    ensures HeaderRun(t, 0, its[..i + 1], end) && SizedRun(t, i + 1, its[i + 1..])
  {
    hide Head, Sized, Copied, ToLE, Offset;
    var x, p := ToLE(v, 4), ITEM_HEADER * i + 17;
    var done, rest := its[..i + 1], its[i + 1..];
    forall j | 0 <= j < |rest| ensures Sized(t, i + 1 + j, rest[j]) {
      assert Sized(s, i + (j + 1), its[i..][j + 1]);
      SizedKept(x, 0, s, t, p, 4, i + 1 + j, rest[j]);
    }
    assert Sized(s, i + 0, its[i..][0]);
    forall j | 0 <= j < |done| ensures Head(t, 0 + j, done[j], Offset(done, j, end)) {
      OffsetInTake(its, i + 1, j, end);
      if j < i {
        OffsetInTake(its, i, j, end);
        assert Head(s, 0 + j, its[..i][j], Offset(its[..i], j, end));
        HeadKept(x, 0, s, t, p, 4, j, its[j], Offset(its, j, end));
      } else {
        HeadFilled(s, t, i, its[i], v);
      }
    }
  }

  lemma OffsetInTake(its: seq<Item>, n: nat, j: nat, end: int)
    requires j < n <= |its|
    ensures Offset(its[..n], j, end) == Offset(its, j, end)
  {
    hide DataLen;
    assert its[..n] == its[0..n];
    SliceLens(its, 0, n, j + 1);
    DataLenNone(its);
  }

  lemma HeadKept(x: seq<Byte>, from: int, s: seq<Byte>, t: seq<Byte>, to: int, len: int, i: nat, it: Item, offset: int)
    requires Copied(x, from, s, t, to, len) && Head(s, i, it, offset)
    requires ITEM_HEADER * (i + 1) <= to || to + len <= ITEM_HEADER * i
    ensures Head(t, i, it, offset)
  {
    hide HeaderAt, Copied;
    HeaderKept(x, from, s, t, to, len, i, it.key, offset, |it.data|);
  }

  lemma HeadFilled(s: seq<Byte>, t: seq<Byte>, i: nat, it: Item, v: nat)
    requires Sized(s, i, it) && Copied(ToLE(v, 4), 0, s, t, ITEM_HEADER * i + 17, 4)
    ensures Head(t, i, it, v)
  {
    hide HeaderAt, Copied, Sized, ToLE;
    OffsetFilled(s, t, i, it, v);
  }

  // ----- pushing items to the right -----

  /** Before the offsets: the data of the right leaf moves down, the pushed data is
      copied above it, and headers likewise. */
  lemma PushedRight(l: seq<Byte>, r0: seq<Byte>, r1: seq<Byte>, r2: seq<Byte>, r3: seq<Byte>, r4: seq<Byte>,
      items: seq<Item>, k: nat, right: seq<Item>, size: nat, leftEnd: int, rightEnd: int, ps: int)
    requires Layout(l, items) && Layout(r0, right) && |l| == |r0| == size && k <= |items|
    requires leftEnd == size - DataLen(items, |items|) && rightEnd == size - DataLen(right, |right|)
    requires ps == DataLen(items, |items|) - DataLen(items, k)
    requires ITEM_HEADER * (|items| - k + |right|) <= rightEnd - ps
    requires Copied(r0, rightEnd, r0, r1, rightEnd - ps, size - rightEnd)
    requires Copied(l, leftEnd, r1, r2, size - ps, ps)
    requires Copied(r2, 0, r2, r3, ITEM_HEADER * (|items| - k), ITEM_HEADER * |right|)
    requires Copied(l, ITEM_HEADER * k, r3, r4, 0, ITEM_HEADER * (|items| - k))
    ensures SizedRun(r4, 0, items[k..] + right)
    ensures DataRun(r4, items[k..] + right, size)
    ensures DataLen(items[k..] + right, |items[k..] + right|) == ps + DataLen(right, |right|)
  {
    hide Layout, Copied, DataLen, SizedRun, DataRun;
    var p := items[k..];
    assert p == items[k..|items|] && right == right[0..|right|];
    SliceLens(items, k, |items|, |p|);
    DataLenNone(right);
    ConcatLens(p, right, |p| + |right|);
    HeaderRunOfLayout(l, items, k, |items|);
    HeaderRunOfLayout(r0, right, 0, |right|);
    DataRunOfLayout(l, items, k, |items|);
    DataRunOfLayout(r0, right, 0, |right|);
    // headers
    SizedRunKept(r0, rightEnd, r0, r1, rightEnd - ps, size - rightEnd, 0, right);
    SizedRunKept(l, leftEnd, r1, r2, size - ps, ps, 0, right);
    SizedRunLanded(r2, 0, r2, r3, |p|, right);
    SizedRunKept(l, ITEM_HEADER * k, r3, r4, 0, ITEM_HEADER * (|items| - k), |p|, right);
    SizedRunLanded(l, k, r3, r4, 0, p);
    SizedRunsJoin(r4, 0, p, right);
    // data
    DataRunLanded(r0, rightEnd, r0, r1, rightEnd - ps, size - rightEnd, right, size);
    DataRunKept(l, leftEnd, r1, r2, size - ps, ps, right, size - ps);
    DataRunLanded(l, leftEnd, r1, r2, size - ps, ps, p, size - DataLen(items, k));
    DataRunKept(r2, 0, r2, r3, ITEM_HEADER * (|items| - k), ITEM_HEADER * |right|, right, size - ps);
    DataRunKept(r2, 0, r2, r3, ITEM_HEADER * (|items| - k), ITEM_HEADER * |right|, p, size);
    DataRunKept(l, ITEM_HEADER * k, r3, r4, 0, ITEM_HEADER * (|items| - k), right, size - ps);
    DataRunKept(l, ITEM_HEADER * k, r3, r4, 0, ITEM_HEADER * (|items| - k), p, size);
    DataRunsJoin(r4, p, right, size);
  }

  /** After the offsets. */
  lemma OffsetsDone(s: seq<Byte>, t: seq<Byte>, its: seq<Item>, size: nat)
    requires DataRun(s, its, size) && HeaderRun(t, 0, its, size) && |s| == size
    requires Copied(t, 0, s, t, 0, ITEM_HEADER * |its|) && ITEM_HEADER * |its| + DataLen(its, |its|) <= size
    ensures Layout(t, its)
  {
    hide Layout, Copied, DataLen, DataRun, HeaderRun;
    CopiedLength(t, 0, s, t, 0, ITEM_HEADER * |its|);
    DataRunKept(t, 0, s, t, 0, ITEM_HEADER * |its|, its, size);
    LayoutOfRuns(t, its);
  }

  // ----- pushing items to the left -----

  /** A run behind another one, seen as a range of the whole. */
  lemma RunToRange(s: seq<Byte>, a: seq<Item>, b: seq<Item>, end: int)
    requires HeaderRun(s, |a|, b, end)
    ensures HeadersIn(s, a + b, |a|, |a| + |b|, end + DataLen(a, |a|))
  {
    hide Head, Offset, DataLen, HeadersIn;
    var ab := a + b;
    forall i | |a| <= i < |ab| ensures Head(s, i, ab[i], Offset(ab, i, end + DataLen(a, |a|))) {
      var k := i - |a|;
      assert Head(s, |a| + k, b[k], Offset(b, k, end));
      OffsetInJoin(a, b, i, end + DataLen(a, |a|));
    }
    HeadsToRange(s, ab, |a|, |ab|, end + DataLen(a, |a|));
  }

  lemma RangeToRun(s: seq<Byte>, a: seq<Item>, b: seq<Item>, end: int)
    requires HeadersIn(s, a + b, |a|, |a| + |b|, end + DataLen(a, |a|))
    ensures HeaderRun(s, |a|, b, end)
  {
    hide Head, Offset, DataLen, HeadersIn;
    var ab := a + b;
    HeadsOfRange(s, ab, |a|, |ab|, end + DataLen(a, |a|));
    forall k | 0 <= k < |b| ensures Head(s, |a| + k, b[k], Offset(b, k, end)) {
      OffsetInJoin(a, b, |a| + k, end + DataLen(a, |a|));
      assert Head(s, |a| + k, ab[|a| + k], Offset(ab, |a| + k, end + DataLen(a, |a|)));
    }
  }

  lemma HeadsToRange(s: seq<Byte>, its: seq<Item>, lo: nat, hi: nat, end: int)
    requires hi <= |its| && forall i :: lo <= i < hi ==> Head(s, i, its[i], Offset(its, i, end))
    ensures HeadersIn(s, its, lo, hi, end)
  {
    hide HeaderAt, Offset;
  }

  lemma HeadsOfRange(s: seq<Byte>, its: seq<Item>, lo: nat, hi: nat, end: int)
    requires hi <= |its| && HeadersIn(s, its, lo, hi, end)
    ensures forall i :: lo <= i < hi ==> Head(s, i, its[i], Offset(its, i, end))
  {
    hide HeaderAt, Offset;
  }

  /** The left leaf once headers and data have been copied behind its own. */
  lemma PushedLeft(r: seq<Byte>, l0: seq<Byte>, l1: seq<Byte>, l2: seq<Byte>, items: seq<Item>, k: nat, left: seq<Item>,
      size: int, n: nat, leftEnd: int, from: int, ps: int)
    requires Layout(r, items) && Layout(l0, left) && |r| == |l0| == size && k <= |items| && n == |left|
    requires leftEnd == size - DataLen(left, n) && from == size - DataLen(items, k) && ps == DataLen(items, k)
    requires ITEM_HEADER * (n + k) <= leftEnd - ps
    requires Copied(r, 0, l0, l1, ITEM_HEADER * n, ITEM_HEADER * k)
    requires Copied(r, from, l1, l2, leftEnd - ps, ps)
    ensures HeaderRun(l2, 0, left, size) && HeaderRun(l2, n, items[..k], size)
    ensures DataRun(l2, left, size) && DataRun(l2, items[..k], leftEnd)
    ensures DataLen(items[..k], k) == ps
  {
    hide Layout, Copied, DataLen, HeaderRun, DataRun;
    var p := items[..k];
    assert p == items[0..k] && left == left[0..n];
    DataLenNone(items);
    DataLenNone(left);
    SliceLens(items, 0, k, k);
    HeaderRunOfLayout(r, items, 0, k);
    HeaderRunOfLayout(l0, left, 0, n);
    DataRunOfLayout(r, items, 0, k);
    DataRunOfLayout(l0, left, 0, n);
    HeaderRunKept(r, 0, l0, l1, ITEM_HEADER * n, ITEM_HEADER * k, 0, left, size);
    HeaderRunKept(r, from, l1, l2, leftEnd - ps, ps, 0, left, size);
    HeaderRunLanded(r, 0, l0, l1, n, p, size);
    HeaderRunKept(r, from, l1, l2, leftEnd - ps, ps, n, p, size);
    DataRunKept(r, 0, l0, l1, ITEM_HEADER * n, ITEM_HEADER * k, left, size);
    DataRunKept(r, from, l1, l2, leftEnd - ps, ps, left, size);
    DataRunLanded(r, from, l1, l2, leftEnd - ps, ps, p, size);
  }

  /** And once the offsets of the new headers are shifted. */
  lemma LeftJoined(l2: seq<Byte>, l3: seq<Byte>, left: seq<Item>, p: seq<Item>, size: int)
    requires HeaderRun(l2, 0, left, size) && DataRun(l2, left, size) && DataRun(l2, p, size - DataLen(left, |left|))
    requires Copied(l3, ITEM_HEADER * |left|, l2, l3, ITEM_HEADER * |left|, ITEM_HEADER * |p|) && |l2| == size
    requires HeadersIn(l3, left + p, |left|, |left| + |p|, size)
    requires ITEM_HEADER * (|left| + |p|) + DataLen(left, |left|) + DataLen(p, |p|) <= size
    ensures Layout(l3, left + p)
  {
    hide Layout, Copied, DataLen, HeaderRun, DataRun, HeadersIn;
    var from, len := ITEM_HEADER * |left|, ITEM_HEADER * |p|;
    CopiedLength(l3, from, l2, l3, from, len);
    ConcatLens(left, p, |left| + |p|);
    HeaderRunKept(l3, from, l2, l3, from, len, 0, left, size);
    RangeToRun(l3, left, p, size - DataLen(left, |left|));
    HeaderRunsJoin(l3, left, p, size);
    DataRunKept(l3, from, l2, l3, from, len, left, size);
    DataRunKept(l3, from, l2, l3, from, len, p, size - DataLen(left, |left|));
    DataRunsJoin(l3, left, p, size);
    LayoutOfRuns(l3, left + p);
  }

  /** The right leaf before its offsets are recomputed. */
  lemma FrontDropped(r0: seq<Byte>, r1: seq<Byte>, r2: seq<Byte>, items: seq<Item>, k: nat, size: int, end: int,
      ps: int)
    requires Layout(r0, items) && |r0| == size && k <= |items|
    requires end == size - DataLen(items, |items|) && ps == DataLen(items, |items|) - DataLen(items, k)
    requires Copied(r0, end, r0, r1, size - ps, ps)
    requires Copied(r1, ITEM_HEADER * k, r1, r2, 0, ITEM_HEADER * (|items| - k))
    ensures SizedRun(r2, 0, items[k..]) && DataRun(r2, items[k..], size)
    ensures ITEM_HEADER * |items[k..]| + DataLen(items[k..], |items| - k) <= size
  {
    hide Layout, Copied, DataLen, SizedRun, DataRun;
    var q := items[k..];
    assert q == items[k..|items|];
    SliceLens(items, k, |items|, |q|);
    DataLenMono(items, k, |items|);
    LayoutFits(r0, items);
    HeaderRunOfLayout(r0, items, k, |items|);
    DataRunOfLayout(r0, items, k, |items|);
    SizedRunKept(r0, end, r0, r1, size - ps, ps, k, q);
    SizedRunLanded(r1, k, r1, r2, 0, q);
    DataRunLanded(r0, end, r0, r1, size - ps, ps, q, size - DataLen(items, k));
    DataRunKept(r1, ITEM_HEADER * k, r1, r2, 0, ITEM_HEADER * (|items| - k), q, size);
  }

  lemma LayoutFits(s: seq<Byte>, items: seq<Item>)
    requires Layout(s, items)
    ensures ITEM_HEADER * |items| + DataLen(items, |items|) <= |s|
  {
  }

  // ----- splitting a leaf -----

  /** The new right leaf of copy_for_split before its offsets are shifted. */
  lemma SplitCopied(l: seq<Byte>, r0: seq<Byte>, r1: seq<Byte>, r2: seq<Byte>, items: seq<Item>, mid: nat, size: int,
      end: int, ps: int)
    requires Layout(l, items) && |l| == |r0| == size && mid <= |items|
    requires end == size - DataLen(items, |items|) && ps == DataLen(items, |items|) - DataLen(items, mid)
    requires Copied(l, ITEM_HEADER * mid, r0, r1, 0, ITEM_HEADER * (|items| - mid))
    requires Copied(l, end, r1, r2, size - ps, ps)
    ensures HeaderRun(r2, 0, items[mid..], size - DataLen(items, mid)) && DataRun(r2, items[mid..], size)
    ensures DataLen(items[mid..], |items| - mid) == ps && ITEM_HEADER * (|items| - mid) + ps <= size
  {
    hide Layout, Copied, DataLen, HeaderRun, DataRun;
    var q := items[mid..];
    assert q == items[mid..|items|];
    SliceLens(items, mid, |items|, |q|);
    DataLenMono(items, mid, |items|);
    LayoutFits(l, items);
    HeaderRunOfLayout(l, items, mid, |items|);
    DataRunOfLayout(l, items, mid, |items|);
    HeaderRunLanded(l, mid, r0, r1, 0, q, size - DataLen(items, mid));
    HeaderRunKept(l, end, r1, r2, size - ps, ps, 0, q, size - DataLen(items, mid));
    DataRunLanded(l, end, r1, r2, size - ps, ps, q, size - DataLen(items, mid));
  }
}
