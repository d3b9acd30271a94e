/** What the byte-level edits of a leaf do to its items: one item at a time, from
    where it lies before the memmoves to where it lies after them. */
module LeafEdits {
  import opened Keys
  import opened Tree
  import opened LittleEndian
  import opened Words
  import opened LeafFormat

  ghost predicate SmallItems(items: seq<Item>) {
    forall i :: 0 <= i < |items| ==> |items[i].data| < U32
  }

  lemma SizesFit(s: seq<Byte>, items: seq<Item>)
    requires Layout(s, items) && |s| < U32
    ensures SmallItems(items)
  {
    hide Layout, ItemAt, DataLen;
    forall i | 0 <= i < |items| ensures |items[i].data| < U32 {
      ItemPlace(s, items, i);
      assert |items[i].data| <= |s| - Offset(items, i, |s|);
    }
  }

  // ----- deleting -----

  function Without(items: seq<Item>, slot: nat, nr: nat): (r: seq<Item>)
    requires slot + nr <= |items|
    ensures |r| == |items| - nr
  {
    items[..slot] + items[slot + nr..]
  }

  lemma WithoutIs(items: seq<Item>, slot: nat, nr: nat)
    requires slot + nr <= |items|
    ensures Without(items, slot, nr) == items[..slot] + items[slot + nr..]
  {
  }

  lemma KeysWithout(items: seq<Item>, slot: nat, nr: nat)
    requires slot + nr <= |items| && KeysFit(items)
    ensures KeysFit(Without(items, slot, nr))
  {
    hide KeyFits;
  }

  function RunLen(items: seq<Item>, slot: nat, nr: nat): int
    requires slot + nr <= |items|
  {
    DataLen(items, slot + nr) - DataLen(items, slot)
  }

  lemma DelHead(items: seq<Item>, slot: nat, nr: nat, k: nat)
    requires slot + nr <= |items| && k <= slot
    ensures Without(items, slot, nr)[0..k] == items[0..k]
  {
    forall p | 0 <= p < k ensures Without(items, slot, nr)[p] == items[p] {
    }
  }

  lemma DelTail(items: seq<Item>, slot: nat, nr: nat, j: nat)
    requires slot <= j <= |items| - nr
    ensures Without(items, slot, nr)[slot..j] == items[slot + nr..j + nr]
  {
    forall p | slot <= p < j ensures Without(items, slot, nr)[p] == items[p + nr] {
    }
  }

  lemma DelLens(items: seq<Item>, slot: nat, nr: nat, j: nat)
    requires slot + nr <= |items| && j <= |items| - nr
    ensures DataLen(Without(items, slot, nr), j)
         == if j <= slot then DataLen(items, j) else DataLen(items, j + nr) - RunLen(items, slot, nr)
  {
    hide DataLen, Without;
    DataLenNone(items);
    DataLenNone(Without(items, slot, nr));
    var w, k := Without(items, slot, nr), if j <= slot then j else slot;
    DelHead(items, slot, nr, k);
    DataLenRun(w, 0, items, 0, k);
    if j > slot {
      DelTail(items, slot, nr, j);
      DataLenRun(w, slot, items, slot + nr, j - slot);
    }
  }

  /** s0 to s1: the data behind the gap moves over it; s1 to s2: the offsets are
      shifted; s2 to s3: the headers move down. */
  lemma ItemAfterDelete(s0: seq<Byte>, s1: seq<Byte>, s2: seq<Byte>, s3: seq<Byte>, items: seq<Item>, slot: nat,
      nr: nat, size: int, n: nat, end: int, last: int, gap: int, j: nat)
    requires Layout(s0, items) && slot + nr <= |items| && j < |items| - nr
    requires size == |s0| && n == |items| && end == size - DataLen(items, n) && last == size - DataLen(items, slot + nr)
    requires gap == RunLen(items, slot, nr)
    requires Copied(s0, end, s0, s1, end + gap, last - end)
    requires Copied(s2, ITEM_HEADER * (slot + nr), s1, s2, ITEM_HEADER * (slot + nr), ITEM_HEADER * (n - (slot + nr)))
    requires Copied(s2, ITEM_HEADER * (slot + nr), s2, s3, ITEM_HEADER * slot, ITEM_HEADER * (n - (slot + nr)))
    requires HeadersIn(s2, items, slot + nr, n, size + gap)
    ensures var its := Without(items, slot, nr); ItemAt(s3, j, its[j], Offset(its, j, |s0|))
  {
    hide Layout, HeaderAt, At, Copied, DataLen;
    var its, p, len := Without(items, slot, nr), ITEM_HEADER * (slot + nr), ITEM_HEADER * (n - (slot + nr));
    DelLens(items, slot, nr, j + 1);
    DataLenMono(items, slot, slot + nr);
    if j < slot {
      var it, o := items[j], Offset(items, j, |s0|);
      ItemPlace(s0, items, j);
      DataLenMono(items, j + 1, slot);
      ItemKept(s0, end, s0, s1, end + gap, last - end, j, it, o);
      ItemKept(s2, p, s1, s2, p, len, j, it, o);
      ItemKept(s2, p, s2, s3, ITEM_HEADER * slot, len, j, it, o);
    } else {
      var i := j + nr;
      var it, o := items[i], Offset(items, i, |s0|);
      ItemPlace(s0, items, i);
      DataLenMono(items, slot + nr, i);
      OffsetChain(items, i, |s0|);
      assert At(s0, o, it.data);
      Landed(s0, end, s0, s1, end + gap, last - end, o, it.data);
      Kept(s2, p, s1, s2, p, len, o + gap, it.data);
      Kept(s2, p, s2, s3, ITEM_HEADER * slot, len, o + gap, it.data);
      assert HeaderAt(s2, i, it.key, o + gap, |it.data|);
      HeaderLanded(s2, slot + nr, s2, s3, slot, n - (slot + nr), i, it.key, o + gap, |it.data|);
    }
  }

  lemma LayoutAfterDelete(s0: seq<Byte>, s1: seq<Byte>, s2: seq<Byte>, s3: seq<Byte>, items: seq<Item>, slot: nat,
      nr: nat, size: int, n: nat, end: int, last: int, gap: int)
    requires Layout(s0, items) && slot + nr <= |items|
    requires size == |s0| && n == |items| && end == size - DataLen(items, n) && last == size - DataLen(items, slot + nr)
    requires gap == RunLen(items, slot, nr)
    requires Copied(s0, end, s0, s1, end + gap, last - end)
    requires Copied(s2, ITEM_HEADER * (slot + nr), s1, s2, ITEM_HEADER * (slot + nr), ITEM_HEADER * (n - (slot + nr)))
    requires Copied(s2, ITEM_HEADER * (slot + nr), s2, s3, ITEM_HEADER * slot, ITEM_HEADER * (n - (slot + nr)))
    requires HeadersIn(s2, items, slot + nr, n, size + gap)
    ensures Layout(s3, Without(items, slot, nr))
  {
    hide HeadersIn, ItemAt, DataLen;
    var its := Without(items, slot, nr);
    DelLens(items, slot, nr, |its|);
    DataLenMono(items, slot, slot + nr);
    forall j | 0 <= j < |its| ensures ItemAt(s3, j, its[j], Offset(its, j, |s0|)) {
      ItemAfterDelete(s0, s1, s2, s3, items, slot, nr, size, n, end, last, gap, j);
    }
  }

  /** Dropping the last items needs no move. */
  lemma LayoutOfPrefix(s: seq<Byte>, items: seq<Item>, slot: nat)
    requires Layout(s, items) && slot <= |items|
    ensures Layout(s, Without(items, slot, |items| - slot))
  {
    hide ItemAt, DataLen;
    var its := Without(items, slot, |items| - slot);
    DelLens(items, slot, |items| - slot, slot);
    DataLenMono(items, slot, |items|);
    forall j | 0 <= j < slot ensures ItemAt(s, j, its[j], Offset(its, j, |s|)) {
      DelLens(items, slot, |items| - slot, j + 1);
      assert ItemAt(s, j, items[j], Offset(items, j, |s|));
    }
  }

  // ----- inserting -----

  function With(items: seq<Item>, slot: nat, mid: seq<Item>): (r: seq<Item>)
    requires slot <= |items|
    ensures |r| == |items| + |mid|
  {
    items[..slot] + mid + items[slot..]
  }

  lemma WithIs(items: seq<Item>, slot: nat, mid: seq<Item>)
    requires slot <= |items|
    ensures With(items, slot, mid) == items[..slot] + mid + items[slot..]
  {
  }

  lemma KeysWith(items: seq<Item>, slot: nat, mid: seq<Item>)
    requires slot <= |items| && KeysFit(items) && KeysFit(mid)
    ensures KeysFit(With(items, slot, mid))
  {
    hide KeyFits;
  }

  lemma InsHead(items: seq<Item>, slot: nat, mid: seq<Item>, k: nat)
    requires k <= slot <= |items|
    ensures With(items, slot, mid)[0..k] == items[0..k]
  {
    forall p | 0 <= p < k ensures With(items, slot, mid)[p] == items[p] {
    }
  }

  lemma InsMiddle(items: seq<Item>, slot: nat, mid: seq<Item>, m: nat)
    requires slot <= |items| && m <= |mid|
    ensures With(items, slot, mid)[slot..slot + m] == mid[0..m]
  {
    forall p | 0 <= p < m ensures With(items, slot, mid)[slot + p] == mid[p] {
    }
  }

  lemma InsTail(items: seq<Item>, slot: nat, mid: seq<Item>, j: nat)
    requires slot <= |items| && slot + |mid| <= j <= |items| + |mid|
    ensures With(items, slot, mid)[slot + |mid|..j] == items[slot..j - |mid|]
  {
    forall q | slot + |mid| <= q < j ensures With(items, slot, mid)[q] == items[q - |mid|] {
    }
  }

  lemma InsLens(items: seq<Item>, slot: nat, mid: seq<Item>, j: nat)
    requires slot <= |items| && j <= |items| + |mid|
    ensures j <= slot ==> DataLen(With(items, slot, mid), j) == DataLen(items, j)
    ensures slot <= j <= slot + |mid|
            ==> DataLen(With(items, slot, mid), j) == DataLen(items, slot) + DataLen(mid, j - slot)
    ensures slot + |mid| <= j ==> DataLen(With(items, slot, mid), j) == DataLen(items, j - |mid|) + DataLen(mid, |mid|)
  {
    hide DataLen, With;
    var w, k := With(items, slot, mid), if j <= slot then j else slot;
    DataLenNone(items);
    DataLenNone(mid);
    DataLenNone(w);
    InsHead(items, slot, mid, k);
    DataLenRun(w, 0, items, 0, k);
    if slot < j {
      var m := if j <= slot + |mid| then j - slot else |mid|;
      InsMiddle(items, slot, mid, m);
      DataLenRun(w, slot, mid, 0, m);
      if slot + |mid| < j {
        InsTail(items, slot, mid, j);
        DataLenRun(w, slot + |mid|, items, slot, j - |mid| - slot);
      }
    }
  }

  /** Sum of the first i sizes. */
  function SizeSum(sizes: seq<nat>, i: nat): nat
    requires i <= |sizes|
  {
    if i == 0 then 0 else SizeSum(sizes, i - 1) + sizes[i - 1]
  }

  lemma {:induction false} SizeSumMono(sizes: seq<nat>, i: nat, j: nat)
    requires i <= j <= |sizes|
    ensures SizeSum(sizes, i) <= SizeSum(sizes, j)
  {
    if i < j {
      SizeSumMono(sizes, i, j - 1);
    }
  }

  ghost predicate Shaped(mid: seq<Item>, keys: seq<Key>, sizes: seq<nat>) {
    && |mid| == |keys| == |sizes|
    && forall k :: 0 <= k < |mid| ==> mid[k].key == keys[k] && |mid[k].data| == sizes[k]
  }

  lemma {:induction false} ShapedLens(mid: seq<Item>, keys: seq<Key>, sizes: seq<nat>, i: nat)
    requires Shaped(mid, keys, sizes) && i <= |mid|
    ensures DataLen(mid, i) == SizeSum(sizes, i)
  {
    if i > 0 {
      ShapedLens(mid, keys, sizes, i - 1);
    }
  }

  /** Headers for keys and sizes from slot on, their data ending at end. */
  ghost predicate NewHeaders(s: seq<Byte>, slot: nat, keys: seq<Key>, sizes: seq<nat>, end: int, nr: nat)
    requires nr <= |keys| == |sizes|
  {
    forall k :: 0 <= k < nr ==> NewHeader(s, slot, keys, sizes, end, k)
  }

  ghost predicate NewHeader(s: seq<Byte>, slot: nat, keys: seq<Key>, sizes: seq<nat>, end: int, k: nat)
    requires k < |keys| == |sizes|
  {
    HeaderAt(s, slot + k, keys[k], end - SizeSum(sizes, k + 1), sizes[k])
  }

  lemma NewHeaderKept(s: seq<Byte>, t: seq<Byte>, slot: nat, keys: seq<Key>, sizes: seq<nat>, end: int, k: nat, i: nat)
    requires k < i && k < |keys| == |sizes| && NewHeader(s, slot, keys, sizes, end, k)
    requires Copied(t, ITEM_HEADER * (slot + i), s, t, ITEM_HEADER * (slot + i), ITEM_HEADER)
    ensures NewHeader(t, slot, keys, sizes, end, k)
  {
    hide HeaderAt, Copied, SizeSum;
    var p := ITEM_HEADER * (slot + i);
    HeaderKept(t, p, s, t, p, ITEM_HEADER, slot + k, keys[k], end - SizeSum(sizes, k + 1), sizes[k]);
  }

  lemma NoHeaders(s: seq<Byte>, slot: nat, keys: seq<Key>, sizes: seq<nat>, end: int)
    requires |keys| == |sizes|
    ensures NewHeaders(s, slot, keys, sizes, end, 0) && SizeSum(sizes, 0) == 0
  {
  }

  lemma NoHeadersIn(s: seq<Byte>, its: seq<Item>, slot: nat, end: int)
    requires slot <= |its|
    ensures HeadersIn(s, its, slot, slot, end)
  {
  }

  lemma SizeSumStep(sizes: seq<nat>, i: nat)
    requires i < |sizes|
    ensures SizeSum(sizes, i + 1) == SizeSum(sizes, i) + sizes[i] <= SizeSum(sizes, |sizes|)
  {
    SizeSumMono(sizes, i + 1, |sizes|);
  }

  lemma OneMoreHeader(s: seq<Byte>, t: seq<Byte>, slot: nat, keys: seq<Key>, sizes: seq<nat>, end: int, i: nat)
    requires i < |keys| == |sizes| && NewHeaders(s, slot, keys, sizes, end, i)
    requires HeaderAt(t, slot + i, keys[i], end - SizeSum(sizes, i + 1), sizes[i])
    requires Copied(t, ITEM_HEADER * (slot + i), s, t, ITEM_HEADER * (slot + i), ITEM_HEADER)
    ensures NewHeaders(t, slot, keys, sizes, end, i + 1)
  {
    hide HeaderAt, Copied, SizeSum;
    forall k | 0 <= k < i + 1 ensures NewHeader(t, slot, keys, sizes, end, k) {
      if k < i {
        NewHeaderKept(s, t, slot, keys, sizes, end, k, i);
      }
    }
  }

  /** The data that the new items have: whatever the gap holds. */
  function Carved(s: seq<Byte>, keys: seq<Key>, sizes: seq<nat>, end: nat, i: nat): (mid: seq<Item>)
    requires i <= |keys| == |sizes| && SizeSum(sizes, |sizes|) <= end <= |s|
    ensures |mid| == i
  {
    if i == 0 then [] else
      SizeSumMono(sizes, i, |sizes|);
      var o := end - SizeSum(sizes, i);
      Carved(s, keys, sizes, end, i - 1) + [Item(keys[i - 1], s[o..o + sizes[i - 1]])]
  }

  lemma {:induction false} CarvedAt(s: seq<Byte>, keys: seq<Key>, sizes: seq<nat>, end: nat, i: nat, k: nat)
    requires k < i <= |keys| == |sizes| && SizeSum(sizes, |sizes|) <= end <= |s|
    ensures var it := Carved(s, keys, sizes, end, i)[k];
            it.key == keys[k] && |it.data| == sizes[k] && At(s, end - SizeSum(sizes, k + 1), it.data)
  {
    SizeSumMono(sizes, i, |sizes|);
    if k < i - 1 {
      CarvedAt(s, keys, sizes, end, i - 1, k);
    }
  }

  lemma CarvedShape(s: seq<Byte>, keys: seq<Key>, sizes: seq<nat>, end: nat)
    requires |keys| == |sizes| && SizeSum(sizes, |sizes|) <= end <= |s|
    ensures Shaped(Carved(s, keys, sizes, end, |keys|), keys, sizes)
    ensures (forall k :: 0 <= k < |keys| ==> KeyFits(keys[k])) ==> KeysFit(Carved(s, keys, sizes, end, |keys|))
  {
    hide At, KeyFits;
    var mid := Carved(s, keys, sizes, end, |keys|);
    forall k | 0 <= k < |mid| ensures mid[k].key == keys[k] && |mid[k].data| == sizes[k] {
      CarvedAt(s, keys, sizes, end, |keys|, k);
    }
  }

  /** Items mid lie at slots slot, slot + 1, ..., their data ending at end. */
  ghost predicate RunAt(s: seq<Byte>, slot: nat, mid: seq<Item>, end: int) {
    forall k :: 0 <= k < |mid| ==> ItemAt(s, slot + k, mid[k], Offset(mid, k, end))
  }

  lemma CarvedRun(s: seq<Byte>, slot: nat, keys: seq<Key>, sizes: seq<nat>, end: nat)
    requires |keys| == |sizes| && SizeSum(sizes, |sizes|) <= end <= |s| && NewHeaders(s, slot, keys, sizes, end, |keys|)
    ensures var mid := Carved(s, keys, sizes, end, |keys|);
            RunAt(s, slot, mid, end) && Shaped(mid, keys, sizes) && DataLen(mid, |mid|) == SizeSum(sizes, |sizes|)
  {
    hide HeaderAt, At, DataLen, SizeSum, Carved, Shaped;
    var mid := Carved(s, keys, sizes, end, |keys|);
    CarvedShape(s, keys, sizes, end);
    ShapedLens(mid, keys, sizes, |mid|);
    forall k | 0 <= k < |mid| ensures ItemAt(s, slot + k, mid[k], Offset(mid, k, end)) {
      ShapedLens(mid, keys, sizes, k + 1);
      CarvedAt(s, keys, sizes, end, |keys|, k);
      assert NewHeader(s, slot, keys, sizes, end, k);
    }
  }

  lemma WithAt(items: seq<Item>, slot: nat, mid: seq<Item>, j: nat)
    requires slot <= |items| && j < |items| + |mid|
    ensures With(items, slot, mid)[j] ==
            if j < slot then items[j] else if j < slot + |mid| then mid[j - slot] else items[j - |mid|]
  {
  }

  /** s0 to s1: offsets from slot on go down by total; s1 to s2: their headers move up;
      s2 to s3: their data moves down; s3 to s4: the new headers. */
  lemma OldItemAfterInsert(s0: seq<Byte>, s1: seq<Byte>, s2: seq<Byte>, s3: seq<Byte>, s4: seq<Byte>, items: seq<Item>,
      slot: nat, size: int, n: nat, nr: nat, end: int, last: nat, total: int, i: nat)
    requires Layout(s0, items) && slot <= i < n == |items| && 0 <= total
    requires size == |s0| && end == size - DataLen(items, n) && last == size - DataLen(items, slot)
    requires ITEM_HEADER * (n + nr) <= end - total
    requires Copied(s1, ITEM_HEADER * slot, s0, s1, ITEM_HEADER * slot, ITEM_HEADER * (n - slot))
    requires HeadersIn(s1, items, slot, n, size - total)
    requires Copied(s1, ITEM_HEADER * slot, s1, s2, ITEM_HEADER * (slot + nr), ITEM_HEADER * (n - slot))
    requires Copied(s2, end, s2, s3, end - total, last - end)
    requires Copied(s4, ITEM_HEADER * slot, s3, s4, ITEM_HEADER * slot, ITEM_HEADER * nr)
    ensures ItemAt(s4, i + nr, items[i], Offset(items, i, size - total))
  {
    hide Layout, HeaderAt, At, Copied, DataLen;
    var it, o, h, g := items[i], Offset(items, i, size), ITEM_HEADER * slot, ITEM_HEADER * (n - slot);
    ItemPlace(s0, items, i);
    DataLenMono(items, slot, i);
    OffsetChain(items, i, size);
    Kept(s1, h, s0, s1, h, g, o, it.data);
    Kept(s1, h, s1, s2, ITEM_HEADER * (slot + nr), g, o, it.data);
    Landed(s2, end, s2, s3, end - total, last - end, o, it.data);
    Kept(s4, h, s3, s4, h, ITEM_HEADER * nr, o - total, it.data);
    assert HeaderAt(s1, i, it.key, o - total, |it.data|);
    HeaderLanded(s1, slot, s1, s2, slot + nr, n - slot, i, it.key, o - total, |it.data|);
    HeaderKept(s2, end, s2, s3, end - total, last - end, i + nr, it.key, o - total, |it.data|);
    HeaderKept(s4, h, s3, s4, h, ITEM_HEADER * nr, i + nr, it.key, o - total, |it.data|);
  }

  lemma EarlyItemAfterInsert(s0: seq<Byte>, s1: seq<Byte>, s2: seq<Byte>, s3: seq<Byte>, s4: seq<Byte>,
      items: seq<Item>, slot: nat, size: int, n: nat, nr: nat, end: int, last: nat, total: int, i: nat)
    requires Layout(s0, items) && i < slot <= n == |items| && 0 <= total
    requires size == |s0| && end == size - DataLen(items, n) && last == size - DataLen(items, slot)
    requires ITEM_HEADER * (n + nr) <= end - total
    requires Copied(s1, ITEM_HEADER * slot, s0, s1, ITEM_HEADER * slot, ITEM_HEADER * (n - slot))
    requires Copied(s1, ITEM_HEADER * slot, s1, s2, ITEM_HEADER * (slot + nr), ITEM_HEADER * (n - slot))
    requires Copied(s2, end, s2, s3, end - total, last - end)
    requires Copied(s4, ITEM_HEADER * slot, s3, s4, ITEM_HEADER * slot, ITEM_HEADER * nr)
    ensures ItemAt(s4, i, items[i], Offset(items, i, size))
  {
    hide Layout, HeaderAt, At, Copied, DataLen;
    var it, o, h, g := items[i], Offset(items, i, size), ITEM_HEADER * slot, ITEM_HEADER * (n - slot);
    ItemPlace(s0, items, i);
    DataLenMono(items, i + 1, slot);
    DataLenMono(items, slot, n);
    ItemKept(s1, h, s0, s1, h, g, i, it, o);
    ItemKept(s1, h, s1, s2, ITEM_HEADER * (slot + nr), g, i, it, o);
    ItemKept(s2, end, s2, s3, end - total, last - end, i, it, o);
    ItemKept(s4, h, s3, s4, h, ITEM_HEADER * nr, i, it, o);
  }

  lemma ItemAfterInsert(s0: seq<Byte>, s1: seq<Byte>, s2: seq<Byte>, s3: seq<Byte>, s4: seq<Byte>, items: seq<Item>,
      slot: nat, mid: seq<Item>, size: int, n: nat, nr: nat, end: int, last: nat, total: int, j: nat)
    requires Layout(s0, items) && slot <= n == |items| && nr == |mid| && total == DataLen(mid, nr)
    requires size == |s0| && end == size - DataLen(items, n) && last == size - DataLen(items, slot)
    requires ITEM_HEADER * (n + nr) <= end - total
    requires Copied(s1, ITEM_HEADER * slot, s0, s1, ITEM_HEADER * slot, ITEM_HEADER * (n - slot))
    requires HeadersIn(s1, items, slot, n, size - total)
    requires Copied(s1, ITEM_HEADER * slot, s1, s2, ITEM_HEADER * (slot + nr), ITEM_HEADER * (n - slot))
    requires Copied(s2, end, s2, s3, end - total, last - end)
    requires Copied(s4, ITEM_HEADER * slot, s3, s4, ITEM_HEADER * slot, ITEM_HEADER * nr)
    requires RunAt(s4, slot, mid, last)
    requires j < n + nr
    ensures ItemAt(s4, j, With(items, slot, mid)[j], Offset(With(items, slot, mid), j, size))
  {
    hide HeadersIn, ItemAt, DataLen, With, Copied, Layout;
    InsLens(items, slot, mid, j + 1);
    WithAt(items, slot, mid, j);
    if j < slot {
      EarlyItemAfterInsert(s0, s1, s2, s3, s4, items, slot, size, n, nr, end, last, total, j);
    } else if j < slot + nr {
      assert ItemAt(s4, slot + (j - slot), mid[j - slot], Offset(mid, j - slot, last));
    } else {
      OldItemAfterInsert(s0, s1, s2, s3, s4, items, slot, size, n, nr, end, last, total, j - nr);
    }
  }

  lemma LayoutAfterInsert(s0: seq<Byte>, s1: seq<Byte>, s2: seq<Byte>, s3: seq<Byte>, s4: seq<Byte>, items: seq<Item>,
      slot: nat, mid: seq<Item>, size: int, n: nat, nr: nat, end: int, last: nat, total: int)
    requires Layout(s0, items) && slot <= n == |items| && nr == |mid| && total == DataLen(mid, nr)
    requires size == |s0| && end == size - DataLen(items, n) && last == size - DataLen(items, slot)
    requires ITEM_HEADER * (n + nr) <= end - total
    requires Copied(s1, ITEM_HEADER * slot, s0, s1, ITEM_HEADER * slot, ITEM_HEADER * (n - slot))
    requires HeadersIn(s1, items, slot, n, size - total)
    requires Copied(s1, ITEM_HEADER * slot, s1, s2, ITEM_HEADER * (slot + nr), ITEM_HEADER * (n - slot))
    requires Copied(s2, end, s2, s3, end - total, last - end)
    requires Copied(s4, ITEM_HEADER * slot, s3, s4, ITEM_HEADER * slot, ITEM_HEADER * nr)
    requires RunAt(s4, slot, mid, last)
    ensures Layout(s4, With(items, slot, mid))
  {
    hide HeadersIn, ItemAt, DataLen, With, RunAt, Offset, Copied, Layout;
    CopiedLength(s1, ITEM_HEADER * slot, s0, s1, ITEM_HEADER * slot, ITEM_HEADER * (n - slot));
    CopiedLength(s1, ITEM_HEADER * slot, s1, s2, ITEM_HEADER * (slot + nr), ITEM_HEADER * (n - slot));
    CopiedLength(s2, end, s2, s3, end - total, last - end);
    CopiedLength(s4, ITEM_HEADER * slot, s3, s4, ITEM_HEADER * slot, ITEM_HEADER * nr);
    var its := With(items, slot, mid);
    InsLens(items, slot, mid, n + nr);
    forall j | 0 <= j < n + nr ensures ItemAt(s4, j, its[j], Offset(its, j, size)) {
      ItemAfterInsert(s0, s1, s2, s3, s4, items, slot, mid, size, n, nr, end, last, total, j);
    }
    MakeLayout(s4, its, size);
  }

  // ----- one item changes its size -----

  lemma KeysUpdate(items: seq<Item>, slot: nat, it: Item)
    requires slot < |items| && KeysFit(items) && KeyFits(it.key)
    ensures KeysFit(items[slot := it])
  {
    hide KeyFits;
  }

  /** s0 to s1: offsets from slot on change by delta; s1 to m: a change inside the data
      of the item; m to s2: the data from there on moves by delta; s2 to s3: the header
      of the item. */
  lemma ItemAfterResize(s0: seq<Byte>, s1: seq<Byte>, m: seq<Byte>, s2: seq<Byte>, s3: seq<Byte>, items: seq<Item>,
      slot: nat, it: Item, size: int, n: nat, end: int, start: int, last: int, delta: int, len: int, j: nat)
    requires Layout(s0, items) && slot < n == |items| && j < n && j != slot
    requires size == |s0| && end == size - DataLen(items, n) && start == Offset(items, slot, size)
             && last == size - DataLen(items, slot)
    requires ITEM_HEADER * n <= end + delta && start - end <= len <= last - end && end + delta + len <= last
    requires Copied(s1, ITEM_HEADER * slot, s0, s1, ITEM_HEADER * slot, ITEM_HEADER * (n - slot))
    requires HeadersIn(s1, items, slot, n, size + delta)
    requires Copied(m, start, s1, m, start, last - start)
    requires Copied(m, end, m, s2, end + delta, len)
    requires Copied(s3, ITEM_HEADER * slot, s2, s3, ITEM_HEADER * slot, ITEM_HEADER)
    ensures ItemAt(s3, j, items[j], Offset(items, j, if j < slot then size else size + delta))
  {
    hide Layout, HeaderAt, At, Copied, DataLen;
    var was, o, h, g := items[j], Offset(items, j, size), ITEM_HEADER * slot, ITEM_HEADER * (n - slot);
    ItemPlace(s0, items, j);
    ItemPlace(s0, items, slot);
    OffsetChain(items, j, size);
    DataLenMono(items, slot, n);
    if j < slot {
      DataLenMono(items, j + 1, slot);
      ItemKept(s1, h, s0, s1, h, g, j, was, o);
      ItemKept(m, start, s1, m, start, last - start, j, was, o);
      ItemKept(m, end, m, s2, end + delta, len, j, was, o);
      ItemKept(s3, h, s2, s3, h, ITEM_HEADER, j, was, o);
    } else {
      DataLenMono(items, slot + 1, j);
      assert o + |was.data| <= start;
      Kept(s1, h, s0, s1, h, g, o, was.data);
      Kept(m, start, s1, m, start, last - start, o, was.data);
      Landed(m, end, m, s2, end + delta, len, o, was.data);
      Kept(s3, h, s2, s3, h, ITEM_HEADER, o + delta, was.data);
      assert HeaderAt(s1, j, was.key, o + delta, |was.data|);
      HeaderKept(m, start, s1, m, start, last - start, j, was.key, o + delta, |was.data|);
      HeaderKept(m, end, m, s2, end + delta, len, j, was.key, o + delta, |was.data|);
      HeaderKept(s3, h, s2, s3, h, ITEM_HEADER, j, was.key, o + delta, |was.data|);
    }
  }

  lemma LayoutAfterResize(s0: seq<Byte>, s1: seq<Byte>, m: seq<Byte>, s2: seq<Byte>, s3: seq<Byte>, items: seq<Item>,
      slot: nat, it: Item, size: int, n: nat, end: int, start: int, last: int, delta: int, len: int)
    requires Layout(s0, items) && slot < n == |items|
    requires size == |s0| && end == size - DataLen(items, n) && start == Offset(items, slot, size)
             && last == size - DataLen(items, slot)
    requires ITEM_HEADER * n <= end + delta && start - end <= len <= last - end && end + delta + len <= last
    requires Copied(s1, ITEM_HEADER * slot, s0, s1, ITEM_HEADER * slot, ITEM_HEADER * (n - slot))
    requires HeadersIn(s1, items, slot, n, size + delta)
    requires Copied(m, start, s1, m, start, last - start)
    requires Copied(m, end, m, s2, end + delta, len)
    requires Copied(s3, ITEM_HEADER * slot, s2, s3, ITEM_HEADER * slot, ITEM_HEADER)
    requires |it.data| == |items[slot].data| - delta
    requires HeaderAt(s3, slot, it.key, start + delta, |it.data|) && At(s2, start + delta, it.data)
    ensures Layout(s3, items[slot := it])
  {
    hide HeadersIn, HeaderAt, At, DataLen, Copied, Layout;
    var its := items[slot := it];
    CopiedLength(s1, ITEM_HEADER * slot, s0, s1, ITEM_HEADER * slot, ITEM_HEADER * (n - slot));
    CopiedLength(m, start, s1, m, start, last - start);
    CopiedLength(m, end, m, s2, end + delta, len);
    CopiedLength(s3, ITEM_HEADER * slot, s2, s3, ITEM_HEADER * slot, ITEM_HEADER);
    DataLenUpdate(items, slot, it, n);
    DataLenMono(items, slot + 1, n);
    Kept(s3, ITEM_HEADER * slot, s2, s3, ITEM_HEADER * slot, ITEM_HEADER, start + delta, it.data);
    forall j | 0 <= j < n ensures ItemAt(s3, j, its[j], Offset(its, j, size)) {
      DataLenUpdate(items, slot, it, j + 1);
      if j != slot {
        ItemAfterResize(s0, s1, m, s2, s3, items, slot, it, size, n, end, start, last, delta, len, j);
      }
    }
    MakeLayout(s3, its, size);
  }

  /** The header of an inline file extent stays in front when the front of its data goes. */
  predicate IsInline(it: Item) {
    it.key.kind == EXTENT_DATA_KEY && |it.data| > TYPE_AT && it.data[TYPE_AT] == INLINE
  }

  /** What btrfs_truncate_item leaves of an item. */
  function Truncated(it: Item, newSize: nat, fromEnd: bool): (r: Item)
    requires newSize <= |it.data|
    requires IsInline(it) && !fromEnd && newSize < |it.data| ==> INLINE_HEADER <= newSize
    ensures |r.data| == newSize
  {
    var diff := |it.data| - newSize;
    if diff == 0 then it
    else if fromEnd then it.(data := it.data[..newSize])
    else Item(it.key.(offset := (it.key.offset + diff) % U64),
              if IsInline(it) then it.data[..INLINE_HEADER] + it.data[INLINE_HEADER + diff..] else it.data[diff..])
  }

  /** The item that a cut leaves, byte by byte: a cut at the front moves the key on by as many
      bytes, and an inline extent keeps its first 21. */
  lemma TruncatedIs(it: Item, newSize: nat, fromEnd: bool)
    requires newSize <= |it.data|
    requires IsInline(it) && !fromEnd && newSize < |it.data| ==> INLINE_HEADER <= newSize
    ensures var r, cut := Truncated(it, newSize, fromEnd), |it.data| - newSize;
            && |r.data| == newSize && r.key.objectid == it.key.objectid && r.key.kind == it.key.kind
            && (fromEnd || cut == 0 ==> r.key == it.key && forall j :: 0 <= j < newSize ==> r.data[j] == it.data[j])
            && (!fromEnd && cut > 0 ==>
                  && r.key.offset == (it.key.offset + cut) % 0x1_0000_0000_0000_0000
                  && (forall j :: 0 <= j < 21 && j < newSize && it.key.kind == 108 && |it.data| > 20 && it.data[20] == 0
                       ==> r.data[j] == it.data[j])
                  && forall j :: 0 <= j < newSize
                       && !(j < 21 && it.key.kind == 108 && |it.data| > 20 && it.data[20] == 0)
                       ==> r.data[j] == it.data[j + cut])
  {
  }

  /** Moving an inline header over the bytes that go. */
  lemma InlineMoved(s: seq<Byte>, m: seq<Byte>, start: int, it: Item, newSize: nat)
    requires At(s, start, it.data) && newSize < |it.data| && IsInline(it) && INLINE_HEADER <= newSize
    requires Copied(s, start, s, m, start + (|it.data| - newSize), INLINE_HEADER)
    ensures At(m, start + (|it.data| - newSize), Truncated(it, newSize, false).data)
  {
    hide At, Copied;
    var diff, d := |it.data| - newSize, it.data;
    AtPart(s, start, d, 0, INLINE_HEADER);
    assert d[0..INLINE_HEADER] == d[..INLINE_HEADER];
    Landed(s, start, s, m, start + diff, INLINE_HEADER, start, d[..INLINE_HEADER]);
    AtPart(s, start, d, INLINE_HEADER + diff, |d|);
    assert d[INLINE_HEADER + diff..|d|] == d[INLINE_HEADER + diff..];
    Kept(s, start, s, m, start + diff, INLINE_HEADER, start + (INLINE_HEADER + diff), d[INLINE_HEADER + diff..]);
    AtJoin(m, start + diff, d[..INLINE_HEADER], d[INLINE_HEADER + diff..]);
  }

  lemma FrontGone(s: seq<Byte>, start: int, it: Item, newSize: nat)
    requires At(s, start, it.data) && newSize < |it.data| && !IsInline(it)
    ensures At(s, start + (|it.data| - newSize), Truncated(it, newSize, false).data)
  {
    hide At;
    var diff, d := |it.data| - newSize, it.data;
    AtPart(s, start, d, diff, |d|);
    assert d[diff..|d|] == d[diff..];
  }

  lemma EndGone(s: seq<Byte>, start: int, it: Item, newSize: nat)
    requires At(s, start, it.data) && newSize < |it.data|
    ensures At(s, start, Truncated(it, newSize, true).data)
  {
    hide At;
    AtPart(s, start, it.data, 0, newSize);
    assert it.data[0..newSize] == it.data[..newSize];
  }

  /** New data in place. */
  lemma LayoutAfterWrite(s: seq<Byte>, t: seq<Byte>, items: seq<Item>, slot: nat, data: seq<Byte>)
    requires Layout(s, items) && slot < |items| && |data| == |items[slot].data|
    requires Copied(data, 0, s, t, Offset(items, slot, |s|), |data|)
    ensures Layout(t, items[slot := items[slot].(data := data)])
  {
    hide HeaderAt, At, DataLen, Copied, Layout;
    var it, o := items[slot].(data := data), Offset(items, slot, |s|);
    var its := items[slot := it];
    CopiedLength(data, 0, s, t, o, |data|);
    DataLenUpdate(items, slot, it, |items|);
    AtWhole(data);
    ItemPlace(s, items, slot);
    Landed(data, 0, s, t, o, |data|, 0, data);
    HeaderKept(data, 0, s, t, o, |data|, slot, it.key, o, |data|);
    forall j | 0 <= j < |its| ensures ItemAt(t, j, its[j], Offset(its, j, |s|)) {
      DataLenUpdate(items, slot, it, j + 1);
      ItemPlace(s, items, j);
      OffsetChain(items, j, |s|);
      OffsetChain(items, slot, |s|);
      if j != slot {
        DataLenMono(items, if j < slot then j + 1 else slot + 1, if j < slot then slot else j);
        ItemKept(data, 0, s, t, o, |data|, j, items[j], Offset(items, j, |s|));
      }
    }
    MakeLayout(t, its, |s|);
  }

  // ----- one item becomes two -----

  function SplitAt(items: seq<Item>, slot: nat, newKey: Key, cut: nat): (r: seq<Item>)
    requires slot < |items| && cut <= |items[slot].data|
    ensures |r| == |items| + 1
  {
    var it := items[slot];
    items[..slot] + [it.(data := it.data[..cut]), Item(newKey, it.data[cut..])] + items[slot + 1..]
  }

  /** The two items of a split, byte by byte. */
  lemma SplitIs(items: seq<Item>, slot: nat, newKey: Key, cut: nat)
    requires slot < |items| && cut <= |items[slot].data|
    ensures var r, it := SplitAt(items, slot, newKey, cut), items[slot];
            && |r| == |items| + 1 && r[..slot] == items[..slot] && r[slot + 2..] == items[slot + 1..]
            && r[slot].key == it.key && r[slot].data == it.data[..cut]
            && r[slot + 1].key == newKey && r[slot + 1].data == it.data[cut..]
  {
  }

  lemma SplitItems(items: seq<Item>, slot: nat, newKey: Key, cut: nat, j: nat)
    requires slot < |items| && cut <= |items[slot].data| && j <= |items|
    ensures SplitAt(items, slot, newKey, cut)[j]
         == if j < slot then items[j]
            else if j == slot then items[slot].(data := items[slot].data[..cut])
            else if j == slot + 1 then Item(newKey, items[slot].data[cut..])
            else items[j - 1]
  {
  }

  lemma SplitKeys(items: seq<Item>, slot: nat, newKey: Key, cut: nat)
    requires slot < |items| && cut <= |items[slot].data| && KeysFit(items) && KeyFits(newKey)
    ensures KeysFit(SplitAt(items, slot, newKey, cut))
  {
    hide KeyFits, SplitAt;
    var r := SplitAt(items, slot, newKey, cut);
    forall j | 0 <= j < |r| ensures KeyFits(r[j].key) {
      SplitItems(items, slot, newKey, cut, j);
    }
  }

  lemma SplitLens(items: seq<Item>, slot: nat, newKey: Key, cut: nat, j: nat)
    requires slot < |items| && cut <= |items[slot].data| && j <= |items| + 1
    ensures DataLen(SplitAt(items, slot, newKey, cut), j)
         == if j <= slot then DataLen(items, j) else if j == slot + 1 then DataLen(items, slot) + cut
             else DataLen(items, j - 1)
  {
    hide DataLen;
    var r, k := SplitAt(items, slot, newKey, cut), if j <= slot then j else slot;
    DataLenNone(items);
    DataLenNone(r);
    assert r[..slot] == items[..slot] && r[slot + 2..] == items[slot + 1..];
    assert r[0..k] == r[..slot][..k] == items[0..k];
    DataLenRun(r, 0, items, 0, k);
    if j > slot {
      DataLenStep(r, slot);
      DataLenStep(items, slot);
    }
    if j > slot + 1 {
      DataLenStep(r, slot + 1);
      assert r[slot + 2..j] == r[slot + 2..][..j - slot - 2] == items[slot + 1..j - 1];
      DataLenRun(r, slot + 2, items, slot + 1, j - slot - 2);
    }
  }

  lemma DataLenStep(items: seq<Item>, i: nat)
    requires i < |items|
    ensures DataLen(items, i + 1) == DataLen(items, i) + |items[i].data|
  {
  }

  /** s0 to s1: the headers behind the item move up; s1 to s3: the two headers;
      s3 to s5: the two parts of the data. */
  lemma ItemAfterSplit(s0: seq<Byte>, s1: seq<Byte>, s3: seq<Byte>, s5: seq<Byte>, items: seq<Item>, slot: nat,
      n: nat, start: int, size: nat, i: nat)
    requires Layout(s0, items) && slot < n == |items| && i < n && i != slot
    requires start == Offset(items, slot, |s0|) && size == |items[slot].data|
    requires ITEM_HEADER * (n + 1) <= |s0| - DataLen(items, n)
    requires Copied(s0, ITEM_HEADER * (slot + 1), s0, s1, ITEM_HEADER * (slot + 2), ITEM_HEADER * (n - (slot + 1)))
    requires Copied(s3, ITEM_HEADER * slot, s1, s3, ITEM_HEADER * slot, ITEM_HEADER * 2)
    requires Copied(s5, start, s3, s5, start, size)
    ensures ItemAt(s5, if i < slot then i else i + 1, items[i], Offset(items, i, |s0|))
  {
    hide Layout, HeaderAt, At, Copied, DataLen;
    var it, o, h, g := items[i], Offset(items, i, |s0|), ITEM_HEADER * slot, ITEM_HEADER * (n - (slot + 1));
    ItemPlace(s0, items, i);
    ItemPlace(s0, items, slot);
    OffsetChain(items, i, |s0|);
    OffsetChain(items, slot, |s0|);
    if i < slot {
      DataLenMono(items, i + 1, slot);
      ItemKept(s0, ITEM_HEADER * (slot + 1), s0, s1, ITEM_HEADER * (slot + 2), g, i, it, o);
      ItemKept(s3, h, s1, s3, h, ITEM_HEADER * 2, i, it, o);
      ItemKept(s5, start, s3, s5, start, size, i, it, o);
    } else {
      DataLenMono(items, slot + 1, i);
      Kept(s0, ITEM_HEADER * (slot + 1), s0, s1, ITEM_HEADER * (slot + 2), g, o, it.data);
      HeaderLanded(s0, slot + 1, s0, s1, slot + 2, n - (slot + 1), i, it.key, o, |it.data|);
      ItemKept(s3, h, s1, s3, h, ITEM_HEADER * 2, i + 1, it, o);
      ItemKept(s5, start, s3, s5, start, size, i + 1, it, o);
    }
  }

  lemma LayoutAfterSplit(s0: seq<Byte>, s1: seq<Byte>, s3: seq<Byte>, s5: seq<Byte>, items: seq<Item>, slot: nat,
      newKey: Key, cut: nat, n: nat, start: int, size: nat)
    requires Layout(s0, items) && slot < n == |items|
    requires start == Offset(items, slot, |s0|) && cut <= size == |items[slot].data|
    requires ITEM_HEADER * (n + 1) <= |s0| - DataLen(items, n)
    requires Copied(s0, ITEM_HEADER * (slot + 1), s0, s1, ITEM_HEADER * (slot + 2), ITEM_HEADER * (n - (slot + 1)))
    requires Copied(s3, ITEM_HEADER * slot, s1, s3, ITEM_HEADER * slot, ITEM_HEADER * 2)
    requires Copied(s5, start, s3, s5, start, size)
    requires HeaderAt(s3, slot, items[slot].key, start + (size - cut), cut)
             && HeaderAt(s3, slot + 1, newKey, start, size - cut)
    requires At(s5, start + (size - cut), items[slot].data[..cut]) && At(s5, start, items[slot].data[cut..])
    ensures Layout(s5, SplitAt(items, slot, newKey, cut))
  {
    hide Layout, HeaderAt, At, Copied, DataLen, SplitAt;
    var its := SplitAt(items, slot, newKey, cut);
    CopiedLength(s0, ITEM_HEADER * (slot + 1), s0, s1, ITEM_HEADER * (slot + 2), ITEM_HEADER * (n - (slot + 1)));
    CopiedLength(s3, ITEM_HEADER * slot, s1, s3, ITEM_HEADER * slot, ITEM_HEADER * 2);
    CopiedLength(s5, start, s3, s5, start, size);
    SplitLens(items, slot, newKey, cut, n + 1);
    ItemPlace(s0, items, slot);
    OffsetChain(items, slot, |s0|);
    HeaderKept(s5, start, s3, s5, start, size, slot, items[slot].key, start + (size - cut), cut);
    HeaderKept(s5, start, s3, s5, start, size, slot + 1, newKey, start, size - cut);
    forall j | 0 <= j < n + 1 ensures ItemAt(s5, j, its[j], Offset(its, j, |s0|)) {
      SplitLens(items, slot, newKey, cut, j + 1);
      SplitItems(items, slot, newKey, cut, j);
      if j < slot {
        ItemAfterSplit(s0, s1, s3, s5, items, slot, n, start, size, j);
      } else if j > slot + 1 {
        ItemAfterSplit(s0, s1, s3, s5, items, slot, n, start, size, j - 1);
      }
    }
    MakeLayout(s5, its, |s0|);
  }
}
