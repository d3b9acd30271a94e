/** The format of a leaf: item headers packed at the front, item data packed at the
    back in reverse order, both determined by the sequence of items. */
module LeafFormat {
  import opened Keys
  import opened Tree
  import opened LittleEndian
  import opened Words

  const KEY_BYTES := 17     // sizeof(struct btrfs_disk_key)
  const EXTENT_DATA_KEY := 108
  const INLINE_HEADER := 21   // bytes of struct btrfs_file_extent_item before disk_bytenr
  const TYPE_AT := 20         // its type field
  const INLINE: Byte := 0     // BTRFS_FILE_EXTENT_INLINE

  // ----- keys -----

  predicate KeyFits(k: Key) {
    k.objectid < U64 && k.kind < 0x100 && k.offset < U64
  }

  ghost predicate KeysFit(items: seq<Item>) {
    forall i :: 0 <= i < |items| ==> KeyFits(items[i].key)
  }

  /** struct btrfs_disk_key */
  function EncodeKey(k: Key): (s: seq<Byte>)
    ensures |s| == KEY_BYTES
  {
    ToLE(k.objectid, 8) + ToLE(k.kind, 1) + ToLE(k.offset, 8)
  }

  function DecodeKey(s: seq<Byte>): Key
    requires |s| == KEY_BYTES
  {
    Key(FromLE(s[..8]), FromLE(s[8..9]), FromLE(s[9..]))
  }

  lemma KeyRoundTrip(k: Key)
    requires KeyFits(k)
    ensures DecodeKey(EncodeKey(k)) == k
  {
    Widths();
    RoundTrip(k.objectid, 8);
    RoundTrip(k.kind, 1);
    RoundTrip(k.offset, 8);
    var s := EncodeKey(k);
    assert s[..8] == ToLE(k.objectid, 8) && s[8..9] == ToLE(k.kind, 1) && s[9..] == ToLE(k.offset, 8);
  }

  // ----- sizes -----

  /** Data bytes of the first i items. */
  function DataLen(items: seq<Item>, i: nat): nat
    requires i <= |items|
  {
    if i == 0 then 0 else DataLen(items, i - 1) + |items[i - 1].data|
  }

  lemma DataLenNone(items: seq<Item>)
    ensures DataLen(items, 0) == 0
  {
  }

  lemma {:induction false} DataLenMono(items: seq<Item>, i: nat, j: nat)
    requires i <= j <= |items|
    ensures DataLen(items, i) <= DataLen(items, j)
  {
    if i < j {
      DataLenMono(items, i, j - 1);
    }
  }

  /** Equal runs of items take equally many bytes. */
  lemma {:induction false} DataLenRun(x: seq<Item>, a: nat, y: seq<Item>, b: nat, n: nat)
    requires a + n <= |x| && b + n <= |y| && x[a..a + n] == y[b..b + n]
    ensures DataLen(x, a + n) - DataLen(x, a) == DataLen(y, b + n) - DataLen(y, b)
  {
    if n > 0 {
      var u, v := x[a..a + n], y[b..b + n];
      assert u[n - 1] == x[a + n - 1] && v[n - 1] == y[b + n - 1];
      assert u[..n - 1] == x[a..a + n - 1];
      assert v[..n - 1] == y[b..b + n - 1];
      DataLenRun(x, a, y, b, n - 1);
    }
  }

  /** Replacing one item shifts the counts behind it. */
  lemma {:induction false} DataLenUpdate(items: seq<Item>, slot: nat, it: Item, j: nat)
    requires slot < |items| && j <= |items|
    ensures DataLen(items[slot := it], j) == DataLen(items, j) + if j <= slot then 0 else |it.data| - |items[slot].data|
  {
    if j > 0 {
      DataLenUpdate(items, slot, it, j - 1);
    }
  }

  /** The tree layer's count of the space in a leaf is the count of its bytes. */
  lemma {:induction false} SpaceIsBytes(items: seq<Item>)
    ensures Space(items) == ITEM_HEADER * |items| + DataLen(items, |items|)
  {
    var n := |items|;
    if n > 0 {
      SpaceIsBytes(items[..n - 1]);
      SpaceOne(items, n - 1);
      assert items[..n - 1 + 1] == items;
      assert items[0..n - 1] == items[..n - 1][0..n - 1];
      DataLenRun(items, 0, items[..n - 1], 0, n - 1);
    }
  }

  // ----- one item -----

  /** struct btrfs_item number i: key, offset and size of the data. */
  predicate HeaderAt(s: seq<Byte>, i: nat, k: Key, offset: int, size: nat) {
    && 0 <= offset
    && At(s, ITEM_HEADER * i, EncodeKey(k))
    && At(s, ITEM_HEADER * i + 17, ToLE(offset, 4))
    && At(s, ITEM_HEADER * i + 21, ToLE(size, 4))
  }

  predicate ItemAt(s: seq<Byte>, i: nat, it: Item, offset: int) {
    HeaderAt(s, i, it.key, offset, |it.data|) && At(s, offset, it.data)
  }

  lemma HeaderKept(x: seq<Byte>, from: int, s: seq<Byte>, t: seq<Byte>, to: int, len: int, i: nat, k: Key, offset: int,
      size: nat)
    requires Copied(x, from, s, t, to, len) && HeaderAt(s, i, k, offset, size)
    requires ITEM_HEADER * (i + 1) <= to || to + len <= ITEM_HEADER * i
    ensures HeaderAt(t, i, k, offset, size)
  {
    hide Copied, At, EncodeKey, ToLE;
    Kept(x, from, s, t, to, len, ITEM_HEADER * i, EncodeKey(k));
    Kept(x, from, s, t, to, len, ITEM_HEADER * i + 17, ToLE(offset, 4));
    Kept(x, from, s, t, to, len, ITEM_HEADER * i + 21, ToLE(size, 4));
  }

  /** memmove_leaf_items and copy_leaf_items move whole headers. */
  lemma HeaderLanded(x: seq<Byte>, a: nat, s: seq<Byte>, t: seq<Byte>, b: nat, n: nat, i: nat, k: Key, offset: int,
      size: nat)
    requires Copied(x, ITEM_HEADER * a, s, t, ITEM_HEADER * b, ITEM_HEADER * n) && HeaderAt(x, i, k, offset, size)
    requires a <= i < a + n
    ensures HeaderAt(t, b + i - a, k, offset, size)
  {
    hide Copied, At, EncodeKey, ToLE;
    var from, to, len := ITEM_HEADER * a, ITEM_HEADER * b, ITEM_HEADER * n;
    Landed(x, from, s, t, to, len, ITEM_HEADER * i, EncodeKey(k));
    Landed(x, from, s, t, to, len, ITEM_HEADER * i + 17, ToLE(offset, 4));
    Landed(x, from, s, t, to, len, ITEM_HEADER * i + 21, ToLE(size, 4));
  }

  lemma OffsetSet(s: seq<Byte>, t: seq<Byte>, i: nat, k: Key, offset: int, size: nat, v: nat)
    requires HeaderAt(s, i, k, offset, size) && Copied(ToLE(v, 4), 0, s, t, ITEM_HEADER * i + 17, 4)
    ensures HeaderAt(t, i, k, v, size)
  {
    hide Copied, EncodeKey, ToLE;
    Kept(ToLE(v, 4), 0, s, t, ITEM_HEADER * i + 17, 4, ITEM_HEADER * i, EncodeKey(k));
    Kept(ToLE(v, 4), 0, s, t, ITEM_HEADER * i + 17, 4, ITEM_HEADER * i + 21, ToLE(size, 4));
    Landed(ToLE(v, 4), 0, s, t, ITEM_HEADER * i + 17, 4, 0, ToLE(v, 4));
  }

  lemma SizeSet(s: seq<Byte>, t: seq<Byte>, i: nat, k: Key, offset: int, size: nat, v: nat)
    requires HeaderAt(s, i, k, offset, size) && Copied(ToLE(v, 4), 0, s, t, ITEM_HEADER * i + 21, 4)
    ensures HeaderAt(t, i, k, offset, v)
  {
    hide Copied, EncodeKey, ToLE;
    Kept(ToLE(v, 4), 0, s, t, ITEM_HEADER * i + 21, 4, ITEM_HEADER * i, EncodeKey(k));
    Kept(ToLE(v, 4), 0, s, t, ITEM_HEADER * i + 21, 4, ITEM_HEADER * i + 17, ToLE(offset, 4));
    Landed(ToLE(v, 4), 0, s, t, ITEM_HEADER * i + 21, 4, 0, ToLE(v, 4));
  }

  lemma KeySet(s: seq<Byte>, t: seq<Byte>, i: nat, k: Key, offset: int, size: nat, v: Key)
    requires HeaderAt(s, i, k, offset, size) && Copied(EncodeKey(v), 0, s, t, ITEM_HEADER * i, KEY_BYTES)
    ensures HeaderAt(t, i, v, offset, size)
  {
    hide Copied, EncodeKey, ToLE;
    Kept(EncodeKey(v), 0, s, t, ITEM_HEADER * i, KEY_BYTES, ITEM_HEADER * i + 17, ToLE(offset, 4));
    Kept(EncodeKey(v), 0, s, t, ITEM_HEADER * i, KEY_BYTES, ITEM_HEADER * i + 21, ToLE(size, 4));
    Landed(EncodeKey(v), 0, s, t, ITEM_HEADER * i, KEY_BYTES, 0, EncodeKey(v));
  }

  /** The three fields written one after the other. */
  lemma HeaderWritten(s0: seq<Byte>, s1: seq<Byte>, s2: seq<Byte>, s3: seq<Byte>, i: nat, k: Key, offset: nat,
      size: nat)
    requires Copied(EncodeKey(k), 0, s0, s1, ITEM_HEADER * i, KEY_BYTES)
    requires Copied(ToLE(offset, 4), 0, s1, s2, ITEM_HEADER * i + 17, 4)
    requires Copied(ToLE(size, 4), 0, s2, s3, ITEM_HEADER * i + 21, 4)
    ensures HeaderAt(s3, i, k, offset, size)
    ensures Copied(s3, ITEM_HEADER * i, s0, s3, ITEM_HEADER * i, ITEM_HEADER)
  {
    hide EncodeKey, ToLE, Copied, At;
    var p := ITEM_HEADER * i;
    AtWhole(EncodeKey(k));
    AtWhole(ToLE(offset, 4));
    AtWhole(ToLE(size, 4));
    WriteIsChange(EncodeKey(k), 0, s0, s1, p, KEY_BYTES);
    WriteIsChange(ToLE(offset, 4), 0, s1, s2, p + 17, 4);
    WriteIsChange(ToLE(size, 4), 0, s2, s3, p + 21, 4);
    ChangesJoin(s0, s1, s2, p, p + 17, p + 21);
    ChangesJoin(s0, s2, s3, p, p + 21, p + ITEM_HEADER);
    Landed(EncodeKey(k), 0, s0, s1, p, KEY_BYTES, 0, EncodeKey(k));
    Kept(ToLE(offset, 4), 0, s1, s2, p + 17, 4, p, EncodeKey(k));
    Kept(ToLE(size, 4), 0, s2, s3, p + 21, 4, p, EncodeKey(k));
    Landed(ToLE(offset, 4), 0, s1, s2, p + 17, 4, 0, ToLE(offset, 4));
    Kept(ToLE(size, 4), 0, s2, s3, p + 21, 4, p + 17, ToLE(offset, 4));
    Landed(ToLE(size, 4), 0, s2, s3, p + 21, 4, 0, ToLE(size, 4));
  }

  lemma HeaderFits(s: seq<Byte>, i: nat, k: Key, offset: int, size: nat)
    requires HeaderAt(s, i, k, offset, size)
    ensures ITEM_HEADER * (i + 1) <= |s|
  {
  }

  // ----- reading fields back -----

  function KeyField(s: seq<Byte>, i: nat): Key
    requires ITEM_HEADER * (i + 1) <= |s|
  {
    DecodeKey(s[ITEM_HEADER * i..ITEM_HEADER * i + 17])
  }

  function OffsetField(s: seq<Byte>, i: nat): nat
    requires ITEM_HEADER * (i + 1) <= |s|
  {
    FromLE(s[ITEM_HEADER * i + 17..ITEM_HEADER * i + 21])
  }

  function SizeField(s: seq<Byte>, i: nat): nat
    requires ITEM_HEADER * (i + 1) <= |s|
  {
    FromLE(s[ITEM_HEADER * i + 21..ITEM_HEADER * (i + 1)])
  }

  lemma FieldsOf(s: seq<Byte>, i: nat, k: Key, offset: int, size: nat)
    requires HeaderAt(s, i, k, offset, size) && offset < U32 && size < U32
    ensures ITEM_HEADER * (i + 1) <= |s|
    ensures OffsetField(s, i) == offset && SizeField(s, i) == size
    ensures KeyFits(k) ==> KeyField(s, i) == k
  {
    hide At, EncodeKey, ToLE, FromLE, DecodeKey;
    Widths();
    RoundTrip(offset, 4);
    RoundTrip(size, 4);
    AtIsSlice(s, ITEM_HEADER * i, EncodeKey(k));
    AtIsSlice(s, ITEM_HEADER * i + 17, ToLE(offset, 4));
    AtIsSlice(s, ITEM_HEADER * i + 21, ToLE(size, 4));
    if KeyFits(k) {
      KeyRoundTrip(k);
    }
  }

  // ----- the whole leaf -----

  /** Offset of item i: offset[i] + size[i] == offset[i - 1], and item 0 ends at leafData. */
  function Offset(items: seq<Item>, i: nat, leafData: int): int
    requires i < |items|
  {
    leafData - DataLen(items, i + 1)
  }

  lemma OffsetChain(items: seq<Item>, i: nat, leafData: int)
    requires i < |items|
    ensures Offset(items, i, leafData) + |items[i].data| == if i == 0 then leafData else Offset(items, i - 1, leafData)
    ensures Offset(items, i, leafData) + |items[i].data| == leafData - DataLen(items, i)
  {
    assert DataLen(items, i + 1) == DataLen(items, i) + |items[i].data|;
  }

  lemma OffsetIs(items: seq<Item>, i: nat, j: nat, leafData: int)
    requires j == i + 1 <= |items|
    ensures Offset(items, i, leafData) == leafData - DataLen(items, j)
  {
  }

  /** s is the leaf that holds exactly these items, densely packed. */
  ghost predicate Layout(s: seq<Byte>, items: seq<Item>) {
    && ITEM_HEADER * |items| + DataLen(items, |items|) <= |s|
    && forall i :: 0 <= i < |items| ==> ItemAt(s, i, items[i], Offset(items, i, |s|))
  }

  lemma MakeLayout(s: seq<Byte>, items: seq<Item>, size: int)
    requires |s| == size && ITEM_HEADER * |items| + DataLen(items, |items|) <= size
    requires forall i :: 0 <= i < |items| ==> ItemAt(s, i, items[i], Offset(items, i, size))
    ensures Layout(s, items)
  {
    hide ItemAt, Offset, DataLen;
  }

  /** Where item i lies. */
  lemma ItemPlace(s: seq<Byte>, items: seq<Item>, i: nat)
    requires Layout(s, items) && i < |items|
    ensures ItemAt(s, i, items[i], Offset(items, i, |s|))
    ensures ITEM_HEADER * |items| <= |s| - DataLen(items, |items|) <= Offset(items, i, |s|)
    ensures Offset(items, i, |s|) + |items[i].data| <= |s|
  {
    hide ItemAt;
    DataLenMono(items, i + 1, |items|);
  }

  /** A leaf holds only one sequence of items of a given length. */
  lemma {:induction false} LayoutUnique(s: seq<Byte>, x: seq<Item>, y: seq<Item>, n: nat)
    requires Layout(s, x) && Layout(s, y) && n <= |x| == |y| && |s| < U32
    requires KeysFit(x) && KeysFit(y)
    ensures x[..n] == y[..n]
  {
    hide ItemAt, Layout, DataLen, Offset, KeyFits;
    if n > 0 {
      LayoutUnique(s, x, y, n - 1);
      SameItem(s, x, y, n - 1);
      assert x[..n] == x[..n - 1] + [x[n - 1]] && y[..n] == y[..n - 1] + [y[n - 1]];
    }
  }

  lemma SameItem(s: seq<Byte>, x: seq<Item>, y: seq<Item>, i: nat)
    requires Layout(s, x) && Layout(s, y) && i < |x| && i < |y| && |s| < U32
    requires KeyFits(x[i].key) && KeyFits(y[i].key)
    ensures x[i] == y[i]
  {
    hide HeaderAt, Layout, DataLen, Offset, At;
    ItemPlace(s, x, i);
    ItemPlace(s, y, i);
    var o, p := Offset(x, i, |s|), Offset(y, i, |s|);
    FieldsOf(s, i, x[i].key, o, |x[i].data|);
    FieldsOf(s, i, y[i].key, p, |y[i].data|);
    AtIsSlice(s, o, x[i].data);
    AtIsSlice(s, p, y[i].data);
  }

  /** Every byte of a leaf that means something: item i has its header of 25 bytes at 25 * i
      (objectid, type, offset of the key, then offset and size of the data), its data at that
      offset, and the data of the item before it, or the end of the leaf, comes next. */
  lemma LeafBytes(s: seq<Byte>, items: seq<Item>, i: nat) returns (p: nat, o: nat)
    requires Layout(s, items) && KeysFit(items) && |s| < U32 && i < |items|
    ensures p == 25 * i && p + 25 <= 25 * |items| <= o && o + |items[i].data| <= |s|
    ensures FromLE(s[p..p + 8]) == items[i].key.objectid && s[p + 8] as nat == items[i].key.kind
    ensures FromLE(s[p + 9..p + 17]) == items[i].key.offset
    ensures FromLE(s[p + 17..p + 21]) == o && FromLE(s[p + 21..p + 25]) == |items[i].data|
    ensures o + |items[i].data| == if i == 0 then |s| else FromLE(s[p - 8..p - 4])
    ensures forall j :: 0 <= j < |items[i].data| ==> s[o + j] == items[i].data[j]
  {
    hide HeaderAt, Layout, DataLen, Offset, FromLE;
    ItemPlace(s, items, i);
    p, o := 25 * i, Offset(items, i, |s|);
    HeaderFields(s, i, items[i].key, Offset(items, i, |s|), |items[i].data|);
    OffsetChain(items, i, |s|);
    if i > 0 {
      ItemPlace(s, items, i - 1);
      HeaderFields(s, i - 1, items[i - 1].key, Offset(items, i - 1, |s|), |items[i - 1].data|);
    }
  }

  lemma HeaderFields(s: seq<Byte>, i: nat, k: Key, offset: int, size: nat)
    requires HeaderAt(s, i, k, offset, size) && offset < U32 && size < U32 && KeyFits(k)
    ensures var p := 25 * i;
            && p + 25 <= |s|
            && FromLE(s[p..p + 8]) == k.objectid && s[p + 8] as nat == k.kind
            && FromLE(s[p + 9..p + 17]) == k.offset
            && FromLE(s[p + 17..p + 21]) == offset && FromLE(s[p + 21..p + 25]) == size
  {
    hide EncodeKey, FromLE, HeaderAt;
    FieldsOf(s, i, k, offset, size);
    var p := 25 * i;
    var key := s[p..p + 17];
    assert key[..8] == s[p..p + 8] && key[8..9] == [s[p + 8]] && key[9..] == s[p + 9..p + 17];
    OneByte([s[p + 8]]);
  }

  // ----- runs of headers -----

  /** Headers lo..hi describe its[lo..hi], with the data ending at end. */
  ghost predicate HeadersIn(s: seq<Byte>, its: seq<Item>, lo: nat, hi: nat, end: int)
    requires hi <= |its|
  {
    forall i :: lo <= i < hi ==> HeaderAt(s, i, its[i].key, Offset(its, i, end), |its[i].data|)
  }

  lemma HeadersKept(x: seq<Byte>, from: int, s: seq<Byte>, t: seq<Byte>, to: int, len: int, its: seq<Item>, lo: nat,
      hi: nat, end: int)
    requires hi <= |its| && Copied(x, from, s, t, to, len) && HeadersIn(s, its, lo, hi, end)
    requires ITEM_HEADER * hi <= to || to + len <= ITEM_HEADER * lo
    ensures HeadersIn(t, its, lo, hi, end)
  {
    hide HeaderAt, Copied, Offset;
    forall i | lo <= i < hi ensures HeaderAt(t, i, its[i].key, Offset(its, i, end), |its[i].data|) {
      HeaderKept(x, from, s, t, to, len, i, its[i].key, Offset(its, i, end), |its[i].data|);
    }
  }

  lemma HeadersOfLayout(s: seq<Byte>, items: seq<Item>, lo: nat, hi: nat)
    requires Layout(s, items) && hi <= |items|
    ensures HeadersIn(s, items, lo, hi, |s|)
  {
    hide HeaderAt, At, Offset;
  }

  lemma ItemKept(x: seq<Byte>, from: int, s: seq<Byte>, t: seq<Byte>, to: int, len: int, i: nat, it: Item, offset: int)
    requires Copied(x, from, s, t, to, len) && ItemAt(s, i, it, offset)
    requires ITEM_HEADER * (i + 1) <= to || to + len <= ITEM_HEADER * i
    requires offset + |it.data| <= to || to + len <= offset
    ensures ItemAt(t, i, it, offset)
  {
    hide HeaderAt, Copied, At;
    HeaderKept(x, from, s, t, to, len, i, it.key, offset, |it.data|);
    Kept(x, from, s, t, to, len, offset, it.data);
  }
}
