/** A leaf as one flat byte array, edited with memmoves and offset-rewriting loops.
    Positions count from the first item header, as item offsets do. */
module LeafBuffer {
  import opened Keys
  import opened Tree
  import opened LittleEndian
  import opened Words
  import opened LeafFormat
  import opened LeafEdits
  import opened LeafRuns
  import LeafOps

  const ENOSPC := 28

  class ExtentBuffer {
    const bytes: array<Byte>
    var nritems: nat
    ghost var items: seq<Item>

    ghost predicate Valid()
      reads this, bytes
    {
      && bytes.Length < U32
      && nritems == |items|
      && Layout(bytes[..], items)
      && KeysFit(items)
    }

    constructor (leafData: nat)
      requires leafData < U32
      ensures Valid() && fresh(bytes) && bytes.Length == leafData && items == []
    {
      bytes := new Byte[leafData](_ => 0);
      nritems, items := 0, [];
    }

    // ----- reading -----

    function ItemOffset(i: nat): nat
      requires ITEM_HEADER * (i + 1) <= bytes.Length
      reads bytes
    {
      OffsetField(bytes[..], i)
    }

    function ItemSize(i: nat): nat
      requires ITEM_HEADER * (i + 1) <= bytes.Length
      reads bytes
    {
      SizeField(bytes[..], i)
    }

    function ItemKey(i: nat): Key
      requires ITEM_HEADER * (i + 1) <= bytes.Length
      reads bytes
    {
      KeyField(bytes[..], i)
    }

    /** btrfs_item_data_end */
    function ItemDataEnd(i: nat): nat
      requires ITEM_HEADER * (i + 1) <= bytes.Length
      reads bytes
    {
      ItemOffset(i) + ItemSize(i)
    }

    lemma ReadsBack(i: nat)
      requires Valid() && i < nritems
      ensures ITEM_HEADER * nritems <= bytes.Length - DataLen(items, |items|) <= Offset(items, i, bytes.Length)
      ensures ItemOffset(i) == Offset(items, i, bytes.Length) && ItemSize(i) == |items[i].data|
      ensures ItemDataEnd(i) == bytes.Length - DataLen(items, i)
      ensures ItemKey(i) == items[i].key
    {
      hide HeaderAt, At, Layout, KeyFits;
      ItemPlace(bytes[..], items, i);
      FieldsOf(bytes[..], i, items[i].key, Offset(items, i, bytes.Length), |items[i].data|);
      OffsetChain(items, i, bytes.Length);
    }

    /** leaf_data_end */
    method DataEnd() returns (end: nat)
      requires Valid()
      ensures end == bytes.Length - DataLen(items, |items|)
    {
      if nritems == 0 {
        return bytes.Length;
      }
      ReadsBack(nritems - 1);
      end := ItemOffset(nritems - 1);
    }

    /** btrfs_leaf_free_space, through leaf_space_used: what the tree layer calls Free. */
    method FreeSpace() returns (free: int)
      requires Valid()
      ensures free == bytes.Length - Space(items) >= 0
      ensures free == bytes.Length - DataLen(items, |items|) - ITEM_HEADER * nritems
    {
      SpaceIsBytes(items);
      if nritems == 0 {
        return bytes.Length;
      }
      ReadsBack(0);
      ReadsBack(nritems - 1);
      var dataLen := ItemOffset(0) + ItemSize(0);
      dataLen := dataLen - ItemOffset(nritems - 1);
      free := bytes.Length - (dataLen + ITEM_HEADER * nritems);
    }

    // ----- primitives -----

    /** memmove_extent_buffer */
    method MemMove(dst: nat, src: nat, len: nat)
      requires dst + len <= bytes.Length && src + len <= bytes.Length
      modifies bytes
      ensures Copied(old(bytes[..]), src, old(bytes[..]), bytes[..], dst, len)
    {
      forall i | 0 <= i < len {
        bytes[dst + i] := bytes[src + i];
      }
    }

    /** write_extent_buffer */
    method Write(dst: nat, u: seq<Byte>)
      requires dst + |u| <= bytes.Length
      modifies bytes
      ensures Copied(u, 0, old(bytes[..]), bytes[..], dst, |u|)
    {
      forall i | 0 <= i < |u| {
        bytes[dst + i] := u[i];
      }
    }

    /** copy_extent_buffer */
    method CopyFrom(other: ExtentBuffer, dst: nat, src: nat, len: nat)
      requires other.bytes != bytes
      requires dst + len <= bytes.Length && src + len <= other.bytes.Length
      modifies bytes
      ensures Copied(other.bytes[..], src, old(bytes[..]), bytes[..], dst, len)
    {
      forall i | 0 <= i < len {
        bytes[dst + i] := other.bytes[src + i];
      }
    }

    /** Add delta to the offsets of headers lo..hi. */
    method ShiftOffsets(lo: nat, hi: nat, delta: int, ghost its: seq<Item>, ghost end: int)
      requires lo <= hi <= |its| && HeadersIn(bytes[..], its, lo, hi, end)
      requires end - DataLen(its, lo) < U32 && 0 <= end - DataLen(its, hi) && 0 <= end + delta - DataLen(its, hi)
      requires ITEM_HEADER * hi <= bytes.Length
      requires SmallItems(its)
      modifies bytes
      ensures HeadersIn(bytes[..], its, lo, hi, end + delta)
      ensures Copied(bytes[..], ITEM_HEADER * lo, old(bytes[..]), bytes[..], ITEM_HEADER * lo, ITEM_HEADER * (hi - lo))
    {
      hide HeaderAt, DataLen, OffsetField, ToLE;
      for i := lo to hi
        invariant HeadersIn(bytes[..], its, lo, i, end + delta)
        invariant HeadersIn(bytes[..], its, i, hi, end)
        invariant forall p :: 0 <= p < bytes.Length && !(ITEM_HEADER * lo <= p < ITEM_HEADER * i)
                      ==> bytes[p] == old(bytes[p])
      {
        ghost var s := bytes[..];
        DataLenMono(its, i + 1, hi);
        DataLenMono(its, lo, i + 1);
        FieldsOf(s, i, its[i].key, Offset(its, i, end), |its[i].data|);
        var ioff := ItemOffset(i);
        Write(ITEM_HEADER * i + 17, ToLE(ioff + delta, 4));
        OneOffset(s, i, ioff + delta, its, lo, hi, end, end + delta);
      }
    }

    /** One round of an offset-rewriting loop. */
    lemma OneOffset(s: seq<Byte>, i: nat, v: nat, its: seq<Item>, lo: nat, hi: nat, end: int, end': int)
      requires lo <= i < hi <= |its| && v == Offset(its, i, end')
      requires Copied(ToLE(v, 4), 0, s, bytes[..], ITEM_HEADER * i + 17, 4)
      requires forall j :: lo <= j < i ==> HeaderAt(s, j, its[j].key, Offset(its, j, end'), |its[j].data|)
      requires forall j :: i <= j < hi ==> HeaderAt(s, j, its[j].key, Offset(its, j, end), |its[j].data|)
      ensures HeadersIn(bytes[..], its, lo, i + 1, end') && HeadersIn(bytes[..], its, i + 1, hi, end)
    {
      hide HeaderAt, DataLen, ToLE, Copied, Offset;
      OffsetSet(s, bytes[..], i, its[i].key, Offset(its, i, end), |its[i].data|, v);
      forall j | lo <= j < hi && j != i
        ensures HeaderAt(bytes[..], j, its[j].key, Offset(its, j, if j < i then end' else end), |its[j].data|)
      {
        HeaderKept(ToLE(v, 4), 0, s, bytes[..], ITEM_HEADER * i + 17, 4, j, its[j].key,
          Offset(its, j, if j < i then end' else end), |its[j].data|);
      }
    }

    // ----- deleting -----

    /** Sum of the sizes of nr items from slot on. */
    method SumSizes(slot: nat, nr: nat) returns (dsize: nat)
      requires Valid() && slot + nr <= nritems
      ensures dsize == DataLen(items, slot + nr) - DataLen(items, slot)
    {
      hide Layout, KeysFit, SizeField;
      dsize := 0;
      for i := 0 to nr
        invariant dsize == DataLen(items, slot + i) - DataLen(items, slot)
      {
        ReadsBack(slot + i);
        assert DataLen(items, slot + i + 1) == DataLen(items, slot + i) + |items[slot + i].data|;
        dsize := dsize + ItemSize(slot + i);
      }
    }

    /** btrfs_del_items, the edit of the leaf: nr items from slot on disappear. */
    method DelItems(slot: nat, nr: nat)
      requires Valid() && 1 <= nr && slot + nr <= nritems
      modifies this`nritems, this`items, bytes
      ensures Valid() && items == Without(old(items), slot, nr)
      ensures items == old(items)[..slot] + old(items)[slot + nr..]
    {
      hide Layout, KeysFit, OffsetField, SizeField, KeyField, ItemOffset, ItemSize, ItemKey, ItemDataEnd, Offset,
        Copied, HeadersIn, ItemAt, DataLen, SmallItems, Without;
      ghost var s0, its := bytes[..], items;
      var n := nritems;
      DataLenMono(its, slot, slot + nr);
      DataLenMono(its, slot + nr, n);
      if slot + nr != n {
        ReadsBack(slot + nr - 1);
        OffsetIs(its, slot + nr - 1, slot + nr, bytes.Length);
        var lastOff := ItemOffset(slot + nr - 1);
        var dataEnd := DataEnd();
        var dsize := SumSizes(slot, nr);
        MemMove(dataEnd + dsize, dataEnd, lastOff - dataEnd);
        ghost var s1 := bytes[..];
        HeadersOfLayout(s0, its, slot + nr, n);
        HeadersKept(s0, dataEnd, s0, s1, dataEnd + dsize, lastOff - dataEnd, its, slot + nr, n, bytes.Length);
        SizesFit(s0, its);
        ShiftOffsets(slot + nr, n, dsize, its, bytes.Length);
        ghost var s2 := bytes[..];
        MemMove(ITEM_HEADER * slot, ITEM_HEADER * (slot + nr), ITEM_HEADER * (n - (slot + nr)));
        ghost var s3 := bytes[..];
        LayoutAfterDelete(s0, s1, s2, s3, its, slot, nr, bytes.Length, n, dataEnd, lastOff, dsize);
      } else {
        LayoutOfPrefix(s0, its, slot);
      }
      KeysWithout(its, slot, nr);
      nritems := n - nr;
      items := Without(its, slot, nr);
      WithoutIs(its, slot, nr);
    }

    // ----- inserting -----

    /** btrfs_set_item_key, _offset and _size. */
    method SetHeader(i: nat, key: Key, offset: nat, size: nat)
      requires ITEM_HEADER * (i + 1) <= bytes.Length
      modifies bytes
      ensures HeaderAt(bytes[..], i, key, offset, size)
      ensures Copied(bytes[..], ITEM_HEADER * i, old(bytes[..]), bytes[..], ITEM_HEADER * i, ITEM_HEADER)
    {
      hide Copied, HeaderAt, EncodeKey, ToLE;
      ghost var s0 := bytes[..];
      Write(ITEM_HEADER * i, EncodeKey(key));
      ghost var s1 := bytes[..];
      Write(ITEM_HEADER * i + 17, ToLE(offset, 4));
      ghost var s2 := bytes[..];
      Write(ITEM_HEADER * i + 21, ToLE(size, 4));
      HeaderWritten(s0, s1, s2, bytes[..], i, key, offset, size);
    }

    /** The headers of the new items, their data below dataEnd. */
    method WriteHeaders(slot: nat, keys: seq<Key>, sizes: seq<nat>, dataEnd: nat)
      requires |keys| == |sizes| && SizeSum(sizes, |sizes|) <= dataEnd && ITEM_HEADER * (slot + |keys|) <= bytes.Length
      modifies bytes
      ensures NewHeaders(bytes[..], slot, keys, sizes, dataEnd, |keys|)
      ensures Copied(bytes[..], ITEM_HEADER * slot, old(bytes[..]), bytes[..], ITEM_HEADER * slot, ITEM_HEADER * |keys|)
    {
      hide Copied, HeaderAt, SizeSum, NewHeaders;
      ghost var s0 := bytes[..];
      var end := dataEnd;
      CopiedNothing(s0, ITEM_HEADER * slot, ITEM_HEADER * slot);
      NoHeaders(s0, slot, keys, sizes, dataEnd);
      for i := 0 to |keys|
        invariant end == dataEnd - SizeSum(sizes, i)
        invariant NewHeaders(bytes[..], slot, keys, sizes, dataEnd, i)
        invariant Copied(bytes[..], ITEM_HEADER * slot, s0, bytes[..], ITEM_HEADER * slot, ITEM_HEADER * i)
      {
        ghost var s := bytes[..];
        SizeSumStep(sizes, i);
        end := end - sizes[i];
        SetHeader(slot + i, keys[i], end, sizes[i]);
        OneMoreHeader(s, bytes[..], slot, keys, sizes, dataEnd, i);
        ChangesJoin(s0, s, bytes[..], ITEM_HEADER * slot, ITEM_HEADER * (slot + i), ITEM_HEADER * (slot + i + 1));
      }
    }

    /** setup_items_for_insert: room for new items with these keys and sizes; their
        data is what the gap happens to hold. */
    method SetupItems(slot: nat, keys: seq<Key>, sizes: seq<nat>, total: nat) returns (ghost mid: seq<Item>)
      requires Valid() && slot <= nritems && |keys| == |sizes| && total == SizeSum(sizes, |sizes|)
      requires forall k :: 0 <= k < |keys| ==> KeyFits(keys[k])
      requires Space(items) + total + ITEM_HEADER * |keys| <= bytes.Length
      modifies this`nritems, this`items, bytes
      ensures Valid() && Shaped(mid, keys, sizes) && items == With(old(items), slot, mid)
      ensures |mid| == |keys| && forall i :: 0 <= i < |keys| ==> mid[i].key == keys[i] && |mid[i].data| == sizes[i]
      ensures items == old(items)[..slot] + mid + old(items)[slot..]
    {
      hide Layout, KeysFit, KeyFits, OffsetField, SizeField, KeyField, ItemOffset, ItemSize, ItemKey, ItemDataEnd,
        Offset, Copied, HeadersIn, ItemAt, DataLen, SmallItems, With, Space, SizeSum, NewHeaders, RunAt, Carved;
      ghost var s0, its := bytes[..], items;
      var n, nr := nritems, |keys|;
      SpaceIsBytes(its);
      DataLenMono(its, slot, n);
      var dataEnd := DataEnd();
      var oldData := dataEnd;
      ghost var s1, s2 := s0, s0;
      if slot != n {
        ReadsBack(slot);
        oldData := ItemDataEnd(slot);
        HeadersOfLayout(s0, its, slot, n);
        SizesFit(s0, its);
        ShiftOffsets(slot, n, 0 - total, its, bytes.Length);
        s1 := bytes[..];
        MemMove(ITEM_HEADER * (slot + nr), ITEM_HEADER * slot, ITEM_HEADER * (n - slot));
        s2 := bytes[..];
        MemMove(dataEnd - total, dataEnd, oldData - dataEnd);
      } else {
        NoHeadersIn(s0, its, slot, bytes.Length - total);
        CopiedNothing(s0, ITEM_HEADER * slot, ITEM_HEADER * slot);
        CopiedNothing(s0, ITEM_HEADER * slot, ITEM_HEADER * (slot + nr));
        CopiedNothing(s0, dataEnd, dataEnd - total);
      }
      ghost var s3 := bytes[..];
      WriteHeaders(slot, keys, sizes, oldData);
      ghost var s4 := bytes[..];
      mid := Carved(s4, keys, sizes, oldData, nr);
      CarvedRun(s4, slot, keys, sizes, oldData);
      CarvedShape(s4, keys, sizes, oldData);
      LayoutAfterInsert(s0, s1, s2, s3, s4, its, slot, mid, bytes.Length, n, nr, dataEnd, oldData, total);
      KeysWith(its, slot, mid);
      nritems := n + nr;
      items := With(its, slot, mid);
      WithIs(its, slot, mid);
    }

    /** write_extent_buffer at btrfs_item_ptr_offset: fill in the data of an item. */
    method SetData(slot: nat, data: seq<Byte>)
      requires Valid() && slot < nritems && |data| == |items[slot].data|
      modifies this`items, bytes
      ensures Valid() && items == old(items)[slot := old(items)[slot].(data := data)]
    {
      hide Layout, KeysFit, KeyFits, OffsetField, SizeField, KeyField, ItemSize, ItemKey, ItemDataEnd, Offset, Copied,
        ItemAt, DataLen;
      ghost var s, its := bytes[..], items;
      ReadsBack(slot);
      ItemPlace(s, its, slot);
      Write(ItemOffset(slot), data);
      LayoutAfterWrite(s, bytes[..], its, slot, data);
      KeyOf(its, slot);
      KeysUpdate(its, slot, its[slot].(data := data));
      items := its[slot := its[slot].(data := data)];
    }

    /** btrfs_insert_item, on the leaf where the item belongs. */
    method InsertItem(slot: nat, key: Key, data: seq<Byte>)
      requires Valid() && slot <= nritems && KeyFits(key)
      requires Space(items) + ITEM_HEADER + |data| <= bytes.Length
      modifies this`nritems, this`items, bytes
      ensures Valid() && items == With(old(items), slot, [Item(key, data)])
      ensures items == old(items)[..slot] + [Item(key, data)] + old(items)[slot..]
    {
      hide Valid, KeyFits, With, Space;
      ghost var its := items;
      CountsItems();
      OneSize(|data|);
      ghost var mid := SetupItems(slot, [key], [|data|], |data|);
      CountsItems();
      OneItem(its, slot, mid, key, data);
      SetData(slot, data);
    }

    lemma CountsItems()
      requires Valid()
      ensures nritems == |items|
    {
    }

    // ----- changing the size of an item -----

    method SetItemSize(i: nat, size: nat, ghost k: Key, ghost o: int, ghost z: nat)
      requires HeaderAt(bytes[..], i, k, o, z)
      modifies bytes
      ensures HeaderAt(bytes[..], i, k, o, size)
      ensures Copied(bytes[..], ITEM_HEADER * i, old(bytes[..]), bytes[..], ITEM_HEADER * i, ITEM_HEADER)
    {
      hide HeaderAt, Copied, ToLE;
      ghost var s := bytes[..];
      HeaderFits(s, i, k, o, z);
      Write(ITEM_HEADER * i + 21, ToLE(size, 4));
      SizeSet(s, bytes[..], i, k, o, z, size);
      ChangeWithin(ToLE(size, 4), 0, s, bytes[..], ITEM_HEADER * i + 21, 4, ITEM_HEADER * i, ITEM_HEADER * (i + 1));
    }

    method SetItemKey(i: nat, key: Key, ghost k: Key, ghost o: int, ghost z: nat)
      requires HeaderAt(bytes[..], i, k, o, z)
      modifies bytes
      ensures HeaderAt(bytes[..], i, key, o, z)
      ensures Copied(bytes[..], ITEM_HEADER * i, old(bytes[..]), bytes[..], ITEM_HEADER * i, ITEM_HEADER)
    {
      hide HeaderAt, Copied, EncodeKey;
      ghost var s := bytes[..];
      HeaderFits(s, i, k, o, z);
      Write(ITEM_HEADER * i, EncodeKey(key));
      KeySet(s, bytes[..], i, k, o, z, key);
      ChangeWithin(EncodeKey(key), 0, s, bytes[..], ITEM_HEADER * i, KEY_BYTES, ITEM_HEADER * i, ITEM_HEADER * (i + 1));
    }

    /** The data from the item on moves down, and the item takes what it leaves. */
    method MoveForExtend(slot: nat, dataSize: nat, dataEnd: nat, oldData: nat, ghost start: int, ghost was: Item)
      returns (ghost s2: seq<Byte>, ghost extra: seq<Byte>)
      requires ITEM_HEADER * (slot + 1) <= dataEnd - dataSize && dataEnd <= start && oldData == start + |was.data|
               && bytes.Length < U32
      requires HeaderAt(bytes[..], slot, was.key, start - dataSize, |was.data|) && At(bytes[..], start, was.data)
      modifies bytes
      ensures Copied(old(bytes[..]), dataEnd, old(bytes[..]), s2, dataEnd - dataSize, oldData - dataEnd)
      ensures Copied(bytes[..], ITEM_HEADER * slot, s2, bytes[..], ITEM_HEADER * slot, ITEM_HEADER)
      ensures |extra| == dataSize && At(s2, start - dataSize, was.data + extra)
      ensures HeaderAt(bytes[..], slot, was.key, start - dataSize, |was.data| + dataSize)
    {
      hide HeaderAt, Copied, At, SizeField, KeyField, OffsetField, KeyFits;
      ghost var s1, len := bytes[..], oldData - dataEnd;
      AtFits(s1, start, was.data);
      MemMove(dataEnd - dataSize, dataEnd, oldData - dataEnd);
      s2 := bytes[..];
      Landed(s1, dataEnd, s1, s2, dataEnd - dataSize, len, start, was.data);
      HeaderKept(s1, dataEnd, s1, s2, dataEnd - dataSize, len, slot, was.key, start - dataSize, |was.data|);
      FieldsOf(s2, slot, was.key, start - dataSize, |was.data|);
      extra := s2[oldData - dataSize..oldData];
      AtRest(s2, oldData - dataSize, extra, oldData);
      AtJoin(s2, start - dataSize, was.data, extra);
      var oldSize := ItemSize(slot);
      SetItemSize(slot, oldSize + dataSize, was.key, start - dataSize, |was.data|);
    }

    /** btrfs_extend_item: dataSize more bytes, of any value, at the end of the item. */
    method ExtendItem(slot: nat, dataSize: nat) returns (ghost extra: seq<Byte>)
      requires Valid() && slot < nritems && Space(items) + dataSize <= bytes.Length
      modifies this`items, bytes
      ensures Valid() && |extra| == dataSize
      ensures items == old(items)[slot := old(items)[slot].(data := old(items)[slot].data + extra)]
    {
      hide Layout, KeysFit, KeyFits, OffsetField, SizeField, KeyField, ItemOffset, ItemSize, ItemKey, ItemDataEnd,
           Copied, HeadersIn, HeaderAt, At, DataLen, SmallItems, Space;
      ghost var s0, its := bytes[..], items;
      var n := nritems;
      ghost var was := its[slot];
      ghost var start := Offset(its, slot, bytes.Length);
      SpaceIsBytes(its);
      DataLenMono(its, slot, n);
      ItemPlace(s0, its, slot);
      OffsetChain(its, slot, bytes.Length);
      var dataEnd := DataEnd();
      ReadsBack(slot);
      var oldData := ItemDataEnd(slot);
      HeadersOfLayout(s0, its, slot, n);
      SizesFit(s0, its);
      ShiftOffsets(slot, n, 0 - dataSize, its, bytes.Length);
      ghost var s1 := bytes[..];
      Kept(s1, ITEM_HEADER * slot, s0, s1, ITEM_HEADER * slot, ITEM_HEADER * (n - slot), start, was.data);
      HeaderInRun(s1, its, slot, n, bytes.Length + (0 - dataSize), slot);
      ghost var s2;
      s2, extra := MoveForExtend(slot, dataSize, dataEnd, oldData, start, was);
      ghost var it := was.(data := was.data + extra);
      NoChange(s1, start, oldData);
      LayoutAfterResize(s0, s1, s1, s2, bytes[..], its, slot, it, bytes.Length, n, dataEnd, start, oldData,
        0 - dataSize, oldData - dataEnd);
      KeyOf(its, slot);
      KeysUpdate(its, slot, it);
      items := its[slot := it];
    }

    /** The data behind the cut moves up; the key stays. */
    method MoveForEnd(slot: nat, newSize: nat, dataEnd: nat, start: nat, diff: nat, ghost was: Item)
        returns (ghost m: seq<Byte>, ghost s2: seq<Byte>)
      requires newSize < |was.data| && diff == |was.data| - newSize
      requires HeaderAt(bytes[..], slot, was.key, start + diff, |was.data|) && At(bytes[..], start, was.data)
      requires ITEM_HEADER * (slot + 1) <= dataEnd <= start
      modifies bytes
      ensures Copied(m, start, old(bytes[..]), m, start, |was.data|)
      ensures Copied(m, dataEnd, m, s2, dataEnd + diff, start + newSize - dataEnd)
      ensures Copied(bytes[..], ITEM_HEADER * slot, s2, bytes[..], ITEM_HEADER * slot, ITEM_HEADER)
      ensures HeaderAt(bytes[..], slot, Truncated(was, newSize, true).key, start + diff, |was.data|)
      ensures At(s2, start + diff, Truncated(was, newSize, true).data)
    {
      hide Copied, HeaderAt, At;
      m := bytes[..];
      AtFits(m, start, was.data);
      EndGone(m, start, was, newSize);
      NoChange(m, start, start + |was.data|);
      MemMove(dataEnd + diff, dataEnd, start + newSize - dataEnd);
      s2 := bytes[..];
      Landed(m, dataEnd, m, s2, dataEnd + diff, start + newSize - dataEnd, start, Truncated(was, newSize, true).data);
      HeaderKept(m, dataEnd, m, s2, dataEnd + diff, start + newSize - dataEnd, slot, was.key, start + diff, |was.data|);
      NoChange(s2, ITEM_HEADER * slot, ITEM_HEADER * (slot + 1));
    }

    /** An inline header moves over the bytes that go. */
    method MoveInlineHeader(slot: nat, newSize: nat, start: nat, diff: nat, ghost was: Item)
      requires newSize < |was.data| && diff == |was.data| - newSize && KeyFits(was.key) && bytes.Length < U32
      requires was.key.kind == EXTENT_DATA_KEY ==> INLINE_HEADER <= |was.data|
      requires IsInline(was) ==> INLINE_HEADER <= newSize
      requires HeaderAt(bytes[..], slot, was.key, start + diff, |was.data|) && At(bytes[..], start, was.data)
      requires ITEM_HEADER * (slot + 1) <= start
      modifies bytes
      ensures Copied(bytes[..], start, old(bytes[..]), bytes[..], start, |was.data|)
      ensures HeaderAt(bytes[..], slot, was.key, start + diff, |was.data|)
      ensures At(bytes[..], start + diff, Truncated(was, newSize, false).data)
    {
      hide Copied, HeaderAt, KeyFits, KeyField, OffsetField, SizeField, Truncated, At;
      ghost var s := bytes[..];
      AtFits(s, start, was.data);
      FieldsOf(s, slot, was.key, start + diff, |was.data|);
      if ItemKey(slot).kind == EXTENT_DATA_KEY {
        ByteAt(s, start, was.data, TYPE_AT);
      }
      if ItemKey(slot).kind == EXTENT_DATA_KEY && bytes[start + TYPE_AT] == INLINE {
        MemMove(start + diff, start, INLINE_HEADER);
        ghost var m := bytes[..];
        InlineMoved(s, m, start, was, newSize);
        ChangeWithin(s, start, s, m, start + diff, INLINE_HEADER, start, start + |was.data|);
        HeaderKept(s, start, s, m, start + diff, INLINE_HEADER, slot, was.key, start + diff, |was.data|);
      } else {
        FrontGone(s, start, was, newSize);
        NoChange(s, start, start + |was.data|);
      }
    }

    /** The data behind the item moves up, and the offset in the key grows by what was cut. */
    method MoveForFront(slot: nat, newSize: nat, dataEnd: nat, start: nat, diff: nat, ghost was: Item)
        returns (ghost m: seq<Byte>, ghost s2: seq<Byte>)
      requires newSize < |was.data| && diff == |was.data| - newSize && KeyFits(was.key) && bytes.Length < U32
      requires was.key.kind == EXTENT_DATA_KEY ==> INLINE_HEADER <= |was.data|
      requires IsInline(was) ==> INLINE_HEADER <= newSize
      requires HeaderAt(bytes[..], slot, was.key, start + diff, |was.data|) && At(bytes[..], start, was.data)
      requires ITEM_HEADER * (slot + 1) <= dataEnd <= start
      modifies bytes
      ensures Copied(m, start, old(bytes[..]), m, start, |was.data|)
      ensures Copied(m, dataEnd, m, s2, dataEnd + diff, start - dataEnd)
      ensures Copied(bytes[..], ITEM_HEADER * slot, s2, bytes[..], ITEM_HEADER * slot, ITEM_HEADER)
      ensures HeaderAt(bytes[..], slot, Truncated(was, newSize, false).key, start + diff, |was.data|)
      ensures At(s2, start + diff, Truncated(was, newSize, false).data)
    {
      hide Copied, HeaderAt, KeyFits, KeyField, OffsetField, SizeField, At, IsInline;
      ghost var data := Truncated(was, newSize, false).data;
      AtFits(bytes[..], start, was.data);
      FieldsOf(bytes[..], slot, was.key, start + diff, |was.data|);
      var key := ItemKey(slot);
      MoveInlineHeader(slot, newSize, start, diff, was);
      m := bytes[..];
      MemMove(dataEnd + diff, dataEnd, start - dataEnd);
      s2 := bytes[..];
      Kept(m, dataEnd, m, s2, dataEnd + diff, start - dataEnd, start + diff, data);
      HeaderKept(m, dataEnd, m, s2, dataEnd + diff, start - dataEnd, slot, was.key, start + diff, |was.data|);
      SetItemKey(slot, key.(offset := (key.offset + diff) % U64), was.key, start + diff, |was.data|);
    }

    /** The memmoves and field writes of btrfs_truncate_item. */
    method CutItem(slot: nat, newSize: nat, fromEnd: bool)
      requires Valid() && slot < nritems && newSize <= |items[slot].data|
      requires items[slot].key.kind == EXTENT_DATA_KEY ==> INLINE_HEADER <= |items[slot].data|
      requires IsInline(items[slot]) && !fromEnd && newSize < |items[slot].data| ==> INLINE_HEADER <= newSize
      modifies this`items, bytes
      ensures Valid() && items == old(items)[slot := Truncated(old(items)[slot], newSize, fromEnd)]
    {
      hide Layout, KeysFit, KeyFits, OffsetField, SizeField, KeyField, ItemOffset, ItemKey, ItemDataEnd,
           Copied, HeadersIn, HeaderAt, At, DataLen, SmallItems, Truncated;
      ghost var s0, its := bytes[..], items;
      var n := nritems;
      ghost var was := its[slot];
      KeyOf(its, slot);
      ReadsBack(slot);
      var oldSize := ItemSize(slot);
      if oldSize == newSize {
        SameSize(its, slot, fromEnd);
        return;
      }
      ghost var start, last := Offset(its, slot, bytes.Length), bytes.Length - DataLen(its, slot);
      DataLenMono(its, slot, n);
      ItemPlace(s0, its, slot);
      OffsetChain(its, slot, bytes.Length);
      var dataEnd := DataEnd();
      var oldDataStart := ItemOffset(slot);
      var diff := oldSize - newSize;
      HeadersOfLayout(s0, its, slot, n);
      SizesFit(s0, its);
      ShiftOffsets(slot, n, diff, its, bytes.Length);
      ghost var s1 := bytes[..];
      Kept(s1, ITEM_HEADER * slot, s0, s1, ITEM_HEADER * slot, ITEM_HEADER * (n - slot), start, was.data);
      HeaderInRun(s1, its, slot, n, bytes.Length + diff, slot);
      ghost var it := Truncated(was, newSize, fromEnd);
      ghost var m, s2, len;
      if fromEnd {
        len := oldDataStart + newSize - dataEnd;
        m, s2 := MoveForEnd(slot, newSize, dataEnd, oldDataStart, diff, was);
      } else {
        len := oldDataStart - dataEnd;
        m, s2 := MoveForFront(slot, newSize, dataEnd, oldDataStart, diff, was);
      }
      ghost var s := bytes[..];
      SetItemSize(slot, newSize, it.key, start + diff, |was.data|);
      ghost var s3 := bytes[..];
      ChangedTwice(s2, s, s3, ITEM_HEADER * slot, ITEM_HEADER);
      LayoutAfterResize(s0, s1, m, s2, s3, its, slot, it, bytes.Length, n, dataEnd, start, last, diff, len);
      TruncatedKeyFits(was, newSize, fromEnd);
      KeysUpdate(its, slot, it);
      items := its[slot := it];
    }

    /** btrfs_truncate_item: cut the item to newSize bytes, at its end or at its front. */
    method TruncateItem(slot: nat, newSize: nat, fromEnd: bool)
      requires Valid() && slot < nritems && newSize <= |items[slot].data|
      requires items[slot].key.kind == EXTENT_DATA_KEY ==> INLINE_HEADER <= |items[slot].data|
      requires IsInline(items[slot]) && !fromEnd && newSize < |items[slot].data| ==> INLINE_HEADER <= newSize
      modifies this`items, bytes
      ensures Valid() && items == old(items)[slot := Truncated(old(items)[slot], newSize, fromEnd)]
      ensures var was, r, cut := old(items)[slot], items[slot], |old(items)[slot].data| - newSize;
              && |r.data| == newSize && r.key.objectid == was.key.objectid && r.key.kind == was.key.kind
              && (fromEnd || cut == 0
                  ==> r.key == was.key && forall j :: 0 <= j < newSize ==> r.data[j] == was.data[j])
              && (!fromEnd && cut > 0 ==>
                    && r.key.offset == (was.key.offset + cut) % 0x1_0000_0000_0000_0000
                    && (was.key.kind == 108 && |was.data| > 20 && was.data[20] == 0
                        ==> forall j :: 0 <= j < 21 && j < newSize ==> r.data[j] == was.data[j])
                    && forall j :: 0 <= j < newSize
                         && !(j < 21 && was.key.kind == 108 && |was.data| > 20 && was.data[20] == 0)
                         ==> r.data[j] == was.data[j + cut])
    {
      hide Valid, Truncated;
      CountsItems();
      ghost var was := items[slot];
      CutItem(slot, newSize, fromEnd);
      TruncatedIs(was, newSize, fromEnd);
      assert items[slot] == Truncated(was, newSize, fromEnd);
    }

    /** Extending an item and cutting it back restores the leaf. */
    method ExtendAndTruncate(slot: nat, dataSize: nat)
      requires Valid() && slot < nritems && Space(items) + dataSize <= bytes.Length
      requires items[slot].key.kind == EXTENT_DATA_KEY ==> INLINE_HEADER <= |items[slot].data|
      modifies this`items, bytes
      ensures Valid() && items == old(items)
    {
      hide Layout, KeysFit, Space, ItemSize;
      ghost var its := items;
      ReadsBack(slot);
      var oldSize := ItemSize(slot);
      ghost var extra := ExtendItem(slot, dataSize);
      assert its[slot].data + extra == its[slot].data <==> dataSize == 0;
      assert (its[slot].data + extra)[..oldSize] == its[slot].data;
      TruncateItem(slot, oldSize, true);
      assert items[slot] == its[slot];
    }

    // ----- splitting an item -----

    method SetItemOffset(i: nat, offset: nat, ghost k: Key, ghost o: int, ghost z: nat)
      requires HeaderAt(bytes[..], i, k, o, z)
      modifies bytes
      ensures HeaderAt(bytes[..], i, k, offset, z)
      ensures Copied(bytes[..], ITEM_HEADER * i, old(bytes[..]), bytes[..], ITEM_HEADER * i, ITEM_HEADER)
    {
      hide HeaderAt, Copied, ToLE;
      ghost var s := bytes[..];
      HeaderFits(s, i, k, o, z);
      Write(ITEM_HEADER * i + 17, ToLE(offset, 4));
      OffsetSet(s, bytes[..], i, k, o, z, offset);
      ChangeWithin(ToLE(offset, 4), 0, s, bytes[..], ITEM_HEADER * i + 17, 4, ITEM_HEADER * i, ITEM_HEADER * (i + 1));
    }

    /** The headers of the two halves, at slot and slot + 1. */
    method SplitHeaders(slot: nat, newKey: Key, cut: nat, start: nat, size: nat, ghost k: Key)
      requires HeaderAt(bytes[..], slot, k, start, size) && ITEM_HEADER * (slot + 2) <= bytes.Length && cut <= size
      modifies bytes
      ensures HeaderAt(bytes[..], slot, k, start + (size - cut), cut)
              && HeaderAt(bytes[..], slot + 1, newKey, start, size - cut)
      ensures Copied(bytes[..], ITEM_HEADER * slot, old(bytes[..]), bytes[..], ITEM_HEADER * slot, ITEM_HEADER * 2)
    {
      hide HeaderAt, Copied;
      ghost var p, q := ITEM_HEADER * slot, ITEM_HEADER * (slot + 1);
      ghost var s := bytes[..];
      SetHeader(slot + 1, newKey, start, size - cut);
      ghost var t := bytes[..];
      HeaderKept(t, q, s, t, q, ITEM_HEADER, slot, k, start, size);
      SetItemOffset(slot, start + (size - cut), k, start, size);
      ghost var u := bytes[..];
      SetItemSize(slot, cut, k, start + (size - cut), size);
      ghost var v := bytes[..];
      ChangedTwice(t, u, v, p, ITEM_HEADER);
      HeaderKept(v, p, t, v, p, ITEM_HEADER, slot + 1, newKey, start, size - cut);
      ChangeWithin(t, q, s, t, q, ITEM_HEADER, p, p + ITEM_HEADER * 2);
      ChangeWithin(v, p, t, v, p, ITEM_HEADER, p, p + ITEM_HEADER * 2);
      ChangedTwice(s, t, v, p, ITEM_HEADER * 2);
    }

    /** The two parts of the data swap places, as data grows downwards. */
    method SplitData(buf: seq<Byte>, cut: nat, start: nat)
      requires cut <= |buf| && start + |buf| <= bytes.Length
      modifies bytes
      ensures At(bytes[..], start + (|buf| - cut), buf[..cut]) && At(bytes[..], start, buf[cut..])
      ensures Copied(bytes[..], start, old(bytes[..]), bytes[..], start, |buf|)
    {
      hide At, Copied;
      ghost var s, size := bytes[..], |buf|;
      var high, low := buf[..cut], buf[cut..];
      AtWhole(high);
      AtWhole(low);
      var mid := start + |low|;
      Write(mid, high);
      ghost var t := bytes[..];
      Landed(high, 0, s, t, mid, |high|, 0, high);
      Write(start, low);
      ghost var u := bytes[..];
      Landed(low, 0, t, u, start, |low|, 0, low);
      Kept(low, 0, t, u, start, |low|, mid, high);
      ChangeWithin(high, 0, s, t, mid, |high|, start, start + size);
      ChangeWithin(low, 0, t, u, start, |low|, start, start + size);
      ChangedTwice(s, t, u, start, size);
    }

    /** split_item: the data from cut on becomes a new item behind the old one. */
    method SplitItem(slot: nat, newKey: Key, cut: nat) returns (ret: int)
      requires Valid() && slot < nritems && cut <= |items[slot].data| && KeyFits(newKey)
      modifies this`nritems, this`items, bytes
      ensures Valid()
      ensures ret == if bytes.Length - Space(old(items)) < ITEM_HEADER then -ENOSPC else 0
      ensures ret == 0 ==> items == SplitAt(old(items), slot, newKey, cut)
      ensures ret == 0 ==> && |items| == |old(items)| + 1 && items[..slot] == old(items)[..slot]
                           && items[slot + 2..] == old(items)[slot + 1..]
                           && items[slot] == Item(old(items)[slot].key, old(items)[slot].data[..cut])
                           && items[slot + 1] == Item(newKey, old(items)[slot].data[cut..])
      ensures ret != 0 ==> items == old(items) && bytes[..] == old(bytes[..])
    {
      hide Layout, KeysFit, KeyFits, OffsetField, SizeField, KeyField, ItemKey, ItemDataEnd, Offset,
           Copied, HeaderAt, At, DataLen, Space, SplitAt;
      var free := FreeSpace();
      if free < ITEM_HEADER {
        return -ENOSPC;
      }
      ghost var s0, its := bytes[..], items;
      var n := nritems;
      ReadsBack(slot);
      var start, size := ItemOffset(slot), ItemSize(slot);
      ItemPlace(s0, its, slot);
      AtIsSlice(s0, start, its[slot].data);
      var buf := bytes[start..start + size];
      if slot + 1 != n {
        MemMove(ITEM_HEADER * (slot + 2), ITEM_HEADER * (slot + 1), ITEM_HEADER * (n - (slot + 1)));
      } else {
        CopiedNothing(s0, ITEM_HEADER * (slot + 1), ITEM_HEADER * (slot + 2));
      }
      ghost var s1 := bytes[..];
      HeaderKept(s0, ITEM_HEADER * (slot + 1), s0, s1, ITEM_HEADER * (slot + 2), ITEM_HEADER * (n - (slot + 1)), slot,
        its[slot].key, start, size);
      SplitHeaders(slot, newKey, cut, start, size, its[slot].key);
      ghost var s3 := bytes[..];
      SplitData(buf, cut, start);
      LayoutAfterSplit(s0, s1, s3, bytes[..], its, slot, newKey, cut, n, start, size);
      SplitKeys(its, slot, newKey, cut);
      SplitIs(its, slot, newKey, cut);
      nritems := n + 1;
      items := SplitAt(its, slot, newKey, cut);
      ret := 0;
    }

    // ----- moving items between leaves -----

    /** The loop that sets every offset from the sizes. */
    method RecomputeOffsets(nr: nat, ghost its: seq<Item>)
      requires |its| == nr && SizedRun(bytes[..], 0, its) && bytes.Length < U32
      requires ITEM_HEADER * nr + DataLen(its, nr) <= bytes.Length
      modifies bytes
      ensures HeaderRun(bytes[..], 0, its, bytes.Length)
      ensures Copied(bytes[..], 0, old(bytes[..]), bytes[..], 0, ITEM_HEADER * nr)
    {
      hide HeaderRun, SizedRun, Copied, DataLen, SizeField, ToLE;
      ghost var s0 := bytes[..];
      var pushSpace := bytes.Length;
      CopiedNothing(s0, 0, 0);
      NoRun(s0, its, bytes.Length);
      for i := 0 to nr
        invariant pushSpace == bytes.Length - DataLen(its, i)
        invariant HeaderRun(bytes[..], 0, its[..i], bytes.Length) && SizedRun(bytes[..], i, its[i..])
        invariant Copied(bytes[..], 0, s0, bytes[..], 0, ITEM_HEADER * i)
      {
        ghost var s := bytes[..];
        DataLenStep(its, i);
        DataLenMono(its, i + 1, nr);
        FirstSized(s, i, its[i..]);
        SizeOf(s, i, its[i]);
        pushSpace := pushSpace - ItemSize(i);
        Write(ITEM_HEADER * i + 17, ToLE(pushSpace, 4));
        OffsetStep(s, bytes[..], its, i, bytes.Length, pushSpace);
        ChangeWithin(ToLE(pushSpace, 4), 0, s, bytes[..], ITEM_HEADER * i + 17, 4, ITEM_HEADER * i,
          ITEM_HEADER * (i + 1));
        ChangesJoin(s0, s, bytes[..], 0, ITEM_HEADER * i, ITEM_HEADER * (i + 1));
      }
      assert its[..nr] == its;
    }

    /** Bytes that an item takes, with its header. */
    method SpaceAt(i: nat) returns (space: nat)
      requires Valid() && i < nritems
      ensures i < |items| && space == ItemSpace(items[i])
    {
      ReadsBack(i);
      space := ItemSize(i) + ITEM_HEADER;
    }

    /** The scan of __push_leaf_right: how many trailing items move. */
    method CountPushRight(slot: nat, dataSize: nat, empty: bool, rightFree: int, minSlot: nat) returns (push: nat)
      requires Valid() && nritems > 0
      ensures push == LeafOps.RightPush(items, slot, dataSize, empty, rightFree, minSlot, bytes.Length)
    {
      hide Valid, Space, ItemSpace, LeafOps.FirstPushable, LeafOps.RightRun, DataLen;
      CountsItems();
      var nr := LeafOps.FirstPushable(empty, minSlot);
      LeafOps.NoSpace(items);
      var pushSpace := if slot >= nritems then dataSize else 0;
      push := 0;
      var i := nritems - 1;
      while i >= nr
        invariant -1 <= i < nritems && push == nritems - 1 - i && (push > 0 ==> i + 1 >= nr)
        invariant pushSpace == LeafOps.RightNeed(items, i + 1, slot, dataSize)
        invariant forall j :: i < j < nritems
                      ==> !LeafOps.RightStops(items, j, slot, dataSize, empty, rightFree, bytes.Length)
      {
        SpaceOne(items, i);
        var itemSpace := SpaceAt(i);
        assert nritems - push - 1 == i;
        if !empty && push > 0 {
          if slot > i {
            break;
          }
          if slot == i {
            var space := FreeSpace();
            if space + pushSpace * 2 > rightFree {
              break;
            }
          }
        }
        if slot == i {
          pushSpace := pushSpace + dataSize;
        }
        if itemSpace + pushSpace > rightFree {
          break;
        }
        push := push + 1;
        pushSpace := pushSpace + itemSpace;
        if i == 0 {
          break;
        }
        i := i - 1;
      }
      LeafOps.RightRunIs(items, nritems, push, slot, dataSize, empty, rightFree, minSlot, bytes.Length);
    }

    /** The scan of __push_leaf_left: how many leading items move. */
    method CountPushLeft(slot: nat, dataSize: nat, empty: bool, leftFree: int, maxSlot: nat) returns (push: nat)
      requires Valid() && nritems > 0
      ensures push == LeafOps.LeftPush(items, slot, dataSize, empty, leftFree, maxSlot, bytes.Length)
    {
      hide Valid, Space, ItemSpace, LeafOps.LeftRun, DataLen;
      CountsItems();
      LeafOps.NoSpace(items);
      var nr := if empty then nritems else nritems - 1;
      if maxSlot < nr {
        nr := maxSlot;
      }
      var pushSpace := 0;
      push := 0;
      var i := 0;
      while i < nr
        invariant 0 <= i <= nr && push == i
        invariant pushSpace == LeafOps.LeftNeed(items, i, slot, dataSize)
        invariant forall j :: 0 <= j < i ==> !LeafOps.LeftStops(items, j, slot, dataSize, empty, leftFree, bytes.Length)
      {
        SpaceOne(items, i);
        var itemSpace := SpaceAt(i);
        if !empty && push > 0 {
          if slot < i {
            break;
          }
          if slot == i {
            var space := FreeSpace();
            if space + pushSpace * 2 > leftFree {
              break;
            }
          }
        }
        if slot == i {
          pushSpace := pushSpace + dataSize;
        }
        if itemSpace + pushSpace > leftFree {
          break;
        }
        push := push + 1;
        pushSpace := pushSpace + itemSpace;
        i := i + 1;
      }
      LeafOps.LeftRunIs(items, 0, push, slot, dataSize, empty, leftFree, maxSlot, bytes.Length);
    }

    /** __push_leaf_right, the edit of the leaves: the last push items move to the
        front of the right leaf. */
    method PushRight(right: ExtentBuffer, push: nat)
      requires Valid() && right.Valid() && right != this && right.bytes != bytes && right.bytes.Length == bytes.Length
      requires 0 < push <= nritems && Space(items[nritems - push..]) + Space(right.items) <= bytes.Length
      modifies this`nritems, this`items, right`nritems, right`items, right.bytes
      ensures Valid() && right.Valid()
      ensures items == old(items[..nritems - push]) && right.items == old(items[nritems - push..] + right.items)
    {
      hide Layout, KeysFit, KeyFits, OffsetField, SizeField, KeyField, ItemOffset, ItemSize, ItemKey, Offset,
           Copied, DataLen, Space, SizedRun, DataRun, HeaderRun;
      ghost var l, r0, its, rts := bytes[..], right.bytes[..], items, right.items;
      var n, rn, size := nritems, right.nritems, bytes.Length;
      var k := n - push;
      ghost var moved := its[k..] + rts;
      PushFits(its, k, rts);
      ReadsBack(k);
      var leftEnd := DataEnd();
      var pushSpace := ItemDataEnd(k) - leftEnd;
      var rightEnd := right.DataEnd();
      right.MemMove(rightEnd - pushSpace, rightEnd, size - rightEnd);
      ghost var r1 := right.bytes[..];
      right.CopyFrom(this, size - pushSpace, leftEnd, pushSpace);
      ghost var r2 := right.bytes[..];
      right.MemMove(ITEM_HEADER * push, 0, ITEM_HEADER * rn);
      ghost var r3 := right.bytes[..];
      right.CopyFrom(this, 0, ITEM_HEADER * k, ITEM_HEADER * push);
      ghost var r4 := right.bytes[..];
      PushedRight(l, r0, r1, r2, r3, r4, its, k, rts, size, leftEnd, rightEnd, pushSpace);
      right.RecomputeOffsets(push + rn, moved);
      OffsetsDone(r4, right.bytes[..], moved, size);
      PushKeys(its, k, rts);
      right.nritems, right.items := push + rn, moved;
      LayoutOfPrefix(l, its, k);
      nritems, items := k, its[..k];
    }

    /** __push_leaf_left, the edit of the leaves, called on the right one: its first
        push items move to the end of the left leaf. */
    method PushLeft(left: ExtentBuffer, push: nat)
      requires Valid() && left.Valid() && left != this && left.bytes != bytes && left.bytes.Length == bytes.Length
      requires 0 < push <= nritems && left.nritems > 0 && Space(left.items) + Space(items[..push]) <= bytes.Length
      modifies this`nritems, this`items, bytes, left`nritems, left`items, left.bytes
      ensures Valid() && left.Valid()
      ensures left.items == old(left.items + items[..push]) && items == old(items[push..])
    {
      hide Layout, KeysFit, Space;
      AppendTo(left, push);
      DropFront(push);
    }

    /** Copy headers and data behind those of the left leaf, then shift their offsets. */
    method AppendTo(left: ExtentBuffer, push: nat)
      requires Valid() && left.Valid() && left != this && left.bytes != bytes && left.bytes.Length == bytes.Length
      requires 0 < push <= nritems && left.nritems > 0 && Space(left.items) + Space(items[..push]) <= bytes.Length
      modifies left`nritems, left`items, left.bytes
      ensures left.Valid() && left.items == old(left.items + items[..push])
    {
      hide Layout, KeysFit, KeyFits, OffsetField, SizeField, KeyField, ItemOffset, ItemSize, ItemKey, ItemDataEnd,
        Offset, Copied, DataLen, Space, DataRun, HeaderRun, HeadersIn, SmallItems;
      ghost var r, l0, its, lts := bytes[..], left.bytes[..], items, left.items;
      var n, size := left.nritems, bytes.Length;
      ghost var p := its[..push];
      AppendFits(lts, its, push);
      ReadsBack(push - 1);
      OffsetIs(its, push - 1, push, size);
      var from := ItemOffset(push - 1);
      var pushSpace := size - from;
      var leftEnd := left.DataEnd();
      left.CopyFrom(this, ITEM_HEADER * n, 0, ITEM_HEADER * push);
      ghost var l1 := left.bytes[..];
      left.CopyFrom(this, leftEnd - pushSpace, from, pushSpace);
      ghost var l2 := left.bytes[..];
      PushedLeft(r, l0, l1, l2, its, push, lts, size, n, leftEnd, from, pushSpace);
      RunToRange(l2, lts, p, size);
      AppendSmall(l0, r, lts, its, push, size);
      left.ShiftOffsets(n, n + push, leftEnd - size, lts + p, size + (size - leftEnd));
      LeftJoined(l2, left.bytes[..], lts, p, size);
      AppendKeys(lts, its, push);
      left.nritems, left.items := n + push, lts + p;
    }

    /** The rest of the right leaf moves to its front, and its offsets are recomputed. */
    method DropFront(push: nat)
      requires Valid() && 0 < push <= nritems
      modifies this`nritems, this`items, bytes
      ensures Valid() && items == old(items[push..])
    {
      hide Layout, KeysFit, KeyFits, OffsetField, SizeField, KeyField, ItemOffset, ItemSize, ItemKey, ItemDataEnd,
        Offset, Copied, DataLen, SizedRun, DataRun, HeaderRun;
      ghost var r0, its := bytes[..], items;
      var n, size := nritems, bytes.Length;
      ghost var q := its[push..];
      LayoutFits(r0, its);
      DataLenMono(its, push, n);
      ghost var r2;
      if push < n {
        ReadsBack(push - 1);
        OffsetIs(its, push - 1, push, size);
        var end := DataEnd();
        var pushSpace := ItemOffset(push - 1) - end;
        MemMove(size - pushSpace, end, pushSpace);
        ghost var r1 := bytes[..];
        MemMove(0, ITEM_HEADER * push, ITEM_HEADER * (n - push));
        r2 := bytes[..];
        FrontDropped(r0, r1, r2, its, push, size, end, pushSpace);
      } else {
        r2 := r0;
        NothingLeft(r2, q, size);
      }
      RecomputeOffsets(n - push, q);
      OffsetsDone(r2, bytes[..], q, size);
      PushKeys(its, push, its);
      nritems, items := n - push, q;
    }

    /** __push_leaf_right without emptying, on both leaves: scan, then move. */
    method ScanRight(right: ExtentBuffer, slot: nat, dataSize: nat, minSlot: nat) returns (push: nat)
      requires Valid() && right.Valid() && right != this && right.bytes != bytes && right.bytes.Length == bytes.Length
               && nritems > 0
      modifies this`nritems, this`items, right`nritems, right`items, right.bytes
      ensures Valid() && right.Valid() && push <= |old(items)|
      ensures push == LeafOps.RightPush(old(items), slot, dataSize, false,
              LeafOps.Free(old(right.items), bytes.Length), minSlot, bytes.Length)
      ensures items == old(items)[..|old(items)| - push]
              && right.items == old(items)[|old(items)| - push..] + old(right.items)
    {
      hide Valid, Space, LeafOps.RightPush, LeafOps.RightStops, LeafOps.FirstPushable;
      CountsItems();
      var free := right.FreeSpace();
      push := CountPushRight(slot, dataSize, false, free, minSlot);
      LeafOps.RightPushSome(items, slot, dataSize, false, free, minSlot, bytes.Length);
      if push > 0 {
        PushRight(right, push);
      } else {
        assert items[..nritems] == items && items[nritems..] + right.items == right.items;
      }
    }

    /** __push_leaf_left without emptying, called on the right leaf. */
    method ScanLeft(left: ExtentBuffer, slot: nat, dataSize: nat, maxSlot: nat) returns (push: nat)
      requires Valid() && left.Valid() && left != this && left.bytes != bytes && left.bytes.Length == bytes.Length
      requires nritems > 0 && left.nritems > 0
      modifies this`nritems, this`items, bytes, left`nritems, left`items, left.bytes
      ensures Valid() && left.Valid() && push <= |old(items)|
      ensures push == LeafOps.LeftPush(old(items), slot, dataSize, false, LeafOps.Free(old(left.items), bytes.Length),
              maxSlot, bytes.Length)
      ensures left.items == old(left.items) + old(items)[..push] && items == old(items)[push..]
    {
      hide Valid, Space, LeafOps.LeftPush, LeafOps.LeftStops;
      CountsItems();
      var free := left.FreeSpace();
      push := CountPushLeft(slot, dataSize, false, free, maxSlot);
      LeafOps.LeftPushSome(items, slot, dataSize, false, free, maxSlot, bytes.Length);
      if push > 0 {
        PushLeft(left, push);
      } else {
        assert left.items + items[..0] == left.items && items[0..] == items;
      }
    }

    /** copy_for_split, the edit of the leaves: the items from mid on move to a new
        leaf on the right. */
    method CopyForSplit(right: ExtentBuffer, mid: nat)
      requires Valid() && right != this && right.bytes != bytes && right.bytes.Length == bytes.Length && mid < nritems
      modifies this`nritems, this`items, right`nritems, right`items, right.bytes
      ensures Valid() && right.Valid()
      ensures items == old(items[..mid]) && right.items == old(items[mid..])
    {
      hide Layout, KeysFit, KeyFits, OffsetField, SizeField, KeyField, ItemOffset, ItemSize, ItemKey, Offset,
           Copied, DataLen, DataRun, HeaderRun, HeadersIn, SmallItems;
      ghost var l, r0, its := bytes[..], right.bytes[..], items;
      var n, size := nritems, bytes.Length;
      ghost var q := its[mid..];
      ReadsBack(mid);
      LayoutFits(l, its);
      DataLenMono(its, mid, n);
      DataLenNone(q);
      var end := DataEnd();
      var copySize := ItemDataEnd(mid) - end;
      right.CopyFrom(this, 0, ITEM_HEADER * mid, ITEM_HEADER * (n - mid));
      ghost var r1 := right.bytes[..];
      right.CopyFrom(this, size - copySize, end, copySize);
      ghost var r2 := right.bytes[..];
      var rightOff := size - ItemDataEnd(mid);
      SplitCopied(l, r0, r1, r2, its, mid, size, end, copySize);
      WholeRun(r2, q, size - rightOff);
      SizesFit(l, its);
      SmallRest(its, mid);
      right.ShiftOffsets(0, n - mid, rightOff, q, size - rightOff);
      ghost var r3 := right.bytes[..];
      WholeRunBack(r3, q, size);
      OffsetsDone(r2, r3, q, size);
      PushKeys(its, mid, its);
      right.nritems, right.items := n - mid, q;
      LayoutOfPrefix(l, its, mid);
      nritems, items := mid, its[..mid];
    }
  }

  lemma NoRun(s: seq<Byte>, its: seq<Item>, end: int)
    requires SizedRun(s, 0, its)
    ensures HeaderRun(s, 0, its[..0], end) && SizedRun(s, 0, its[0..]) && DataLen(its, 0) == 0
  {
    assert its[0..] == its;
  }

  lemma FirstSized(s: seq<Byte>, at: nat, its: seq<Item>)
    requires its != [] && SizedRun(s, at, its)
    ensures Sized(s, at, its[0])
  {
    assert Sized(s, at + 0, its[0]);
  }

  lemma PushFits(items: seq<Item>, k: nat, right: seq<Item>)
    requires k <= |items|
    ensures DataLen(items, k) <= DataLen(items, |items|)
    ensures Space(items[k..]) + Space(right)
         == ITEM_HEADER * (|items| - k + |right|) + DataLen(items, |items|) - DataLen(items, k)
             + DataLen(right, |right|)
  {
    hide DataLen, Space;
    var p := items[k..|items|];
    assert items[k..] == p && |p| == |items| - k;
    DataLenMono(items, k, |items|);
    SpaceIsBytes(p);
    SpaceIsBytes(right);
    SliceLens(items, k, |items|, |p|);
  }

  lemma AppendFits(left: seq<Item>, items: seq<Item>, push: nat)
    requires push <= |items|
    ensures DataLen(items, push) <= DataLen(items, |items|)
    ensures Space(left) + Space(items[..push])
            == ITEM_HEADER * (|left| + push) + DataLen(left, |left|) + DataLen(items, push)
  {
    hide DataLen, Space;
    var p := items[0..push];
    assert items[..push] == p && |p| == push;
    DataLenMono(items, push, |items|);
    DataLenNone(items);
    SpaceIsBytes(p);
    SpaceIsBytes(left);
    SliceLens(items, 0, push, push);
  }

  lemma AppendSmall(l: seq<Byte>, r: seq<Byte>, left: seq<Item>, items: seq<Item>, push: nat, size: int)
    requires Layout(l, left) && Layout(r, items) && |l| == |r| == size < U32 && push <= |items|
    ensures SmallItems(left + items[..push])
    ensures DataLen(left + items[..push], |left|) == DataLen(left, |left|)
    ensures DataLen(left + items[..push], |left| + push) == DataLen(left, |left|) + DataLen(items, push)
  {
    hide Layout, DataLen;
    var p := items[0..push];
    assert items[..push] == p;
    SizesFit(l, left);
    SizesFit(r, items);
    DataLenNone(items);
    SliceLens(items, 0, push, push);
    ConcatLens(left, p, |left|);
    ConcatLens(left, p, |left| + push);
  }

  lemma AppendKeys(left: seq<Item>, items: seq<Item>, push: nat)
    requires push <= |items| && KeysFit(left) && KeysFit(items)
    ensures KeysFit(left + items[..push])
  {
    hide KeyFits;
  }

  lemma NothingLeft(s: seq<Byte>, q: seq<Item>, size: int)
    requires q == []
    ensures SizedRun(s, 0, q) && DataRun(s, q, size) && DataLen(q, 0) == 0
  {
  }

  lemma WholeRun(s: seq<Byte>, q: seq<Item>, end: int)
    requires HeaderRun(s, 0, q, end)
    ensures HeadersIn(s, q, 0, |q|, end)
  {
    assert [] + q == q;
    RunToRange(s, [], q, end);
  }

  lemma WholeRunBack(s: seq<Byte>, q: seq<Item>, end: int)
    requires HeadersIn(s, q, 0, |q|, end)
    ensures HeaderRun(s, 0, q, end)
  {
    assert [] + q == q;
    RangeToRun(s, [], q, end);
  }

  lemma SmallRest(items: seq<Item>, k: nat)
    requires SmallItems(items) && k <= |items|
    ensures SmallItems(items[k..])
  {
  }

  lemma PushKeys(items: seq<Item>, k: nat, right: seq<Item>)
    requires k <= |items| && KeysFit(items) && KeysFit(right)
    ensures KeysFit(items[k..] + right) && KeysFit(items[k..]) && KeysFit(items[..k])
    ensures Without(items, k, |items| - k) == items[..k]
  {
    hide KeyFits;
  }

  lemma ByteAt(s: seq<Byte>, p: int, u: seq<Byte>, i: nat)
    requires At(s, p, u) && i < |u|
    ensures 0 <= p && p + i < |s| && s[p + i] == u[i]
  {
  }

  lemma AtFits(s: seq<Byte>, p: int, u: seq<Byte>)
    requires At(s, p, u)
    ensures 0 <= p <= p + |u| <= |s|
  {
  }

  lemma SameSize(items: seq<Item>, slot: nat, fromEnd: bool)
    requires slot < |items|
    ensures items[slot := Truncated(items[slot], |items[slot].data|, fromEnd)] == items
  {
  }

  lemma TruncatedKeyFits(it: Item, newSize: nat, fromEnd: bool)
    requires newSize <= |it.data| && KeyFits(it.key)
             && (IsInline(it) && !fromEnd && newSize < |it.data| ==> INLINE_HEADER <= newSize)
    ensures KeyFits(Truncated(it, newSize, fromEnd).key)
  {
  }

  lemma OneSize(d: nat)
    ensures SizeSum([d], 1) == d
  {
    assert SizeSum([d], 1) == SizeSum([d], 0) + d;
  }

  lemma OneItem(items: seq<Item>, slot: nat, mid: seq<Item>, key: Key, data: seq<Byte>)
    requires slot <= |items| && Shaped(mid, [key], [|data|])
    ensures var its := With(items, slot, mid);
            |its[slot].data| == |data| && its[slot := its[slot].(data := data)] == With(items, slot, [Item(key, data)])
  {
    assert With(items, slot, mid)[slot] == mid[0];
  }

  lemma KeyOf(items: seq<Item>, slot: nat)
    requires KeysFit(items) && slot < |items|
    ensures KeyFits(items[slot].key)
  {
  }

  lemma HeaderInRun(s: seq<Byte>, its: seq<Item>, lo: nat, hi: nat, end: int, i: nat)
    requires hi <= |its| && HeadersIn(s, its, lo, hi, end) && lo <= i < hi
    ensures HeaderAt(s, i, its[i].key, Offset(its, i, end), |its[i].data|)
  {
  }

  lemma AtRest(s: seq<Byte>, lo: nat, u: seq<Byte>, hi: nat)
    requires lo <= hi <= |s| && u == s[lo..hi]
    ensures At(s, lo, u)
  {
  }

  lemma NoChange(s: seq<Byte>, lo: nat, hi: nat)
    requires lo <= hi <= |s|
    ensures Copied(s, lo, s, s, lo, hi - lo)
  {
  }
}
