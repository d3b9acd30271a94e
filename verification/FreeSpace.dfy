/** Building the free space of a block group as the exact complement of its extents and
    of the excluded ranges. */
module FreeSpace {
  import opened Keys

  /** Bytes start..end, end not included. */
  datatype Range = Range(start: nat, end: nat)

  const SUPER_INFO_OFFSET := 0x1_0000
  const EXTENT_ITEM_KEY := 168
  const METADATA_ITEM_KEY := 169

  predicate Within(r: Range, b: nat) {
    r.start <= b < r.end
  }

  predicate InSome(rs: seq<Range>, b: nat) {
    exists i :: 0 <= i < |rs| && Within(rs[i], b)
  }

  /** Non-empty, in rising order, and apart. */
  ghost predicate InOrder(rs: seq<Range>) {
    && (forall i :: 0 <= i < |rs| ==> rs[i].start < rs[i].end)
    && (forall i, j :: 0 <= i < j < |rs| ==> rs[i].end <= rs[j].start)
  }

  function Total(rs: seq<Range>): nat
    requires forall i :: 0 <= i < |rs| ==> rs[i].start <= rs[i].end
  {
    if rs == [] then 0 else Total(rs[..|rs| - 1]) + (rs[|rs| - 1].end - rs[|rs| - 1].start)
  }

  lemma InSomeConcat(a: seq<Range>, b: seq<Range>, x: nat)
    ensures InSome(a + b, x) <==> InSome(a, x) || InSome(b, x)
  {
    if InSome(a, x) {
      var i :| 0 <= i < |a| && Within(a[i], x);
      assert (a + b)[i] == a[i];
    }
    if InSome(b, x) {
      var i :| 0 <= i < |b| && Within(b[i], x);
      assert (a + b)[|a| + i] == b[i];
    }
  }

  /** The in-memory free space of a block group, as the ranges added to it. */
  class FreeSpaceCache {
    var ranges: seq<Range>

    constructor ()
      ensures ranges == []
    {
      ranges := [];
    }

    /** btrfs_add_free_space_async_trimmed */
    method Add(start: nat, size: nat)
      modifies this
      ensures ranges == old(ranges) + [Range(start, start + size)]
    {
      ranges := ranges + [Range(start, start + size)];
    }
  }

  /** find_first_extent_bit: the first excluded range that ends behind start. */
  method FindFirst(excluded: seq<Range>, start: nat) returns (found: bool, r: Range)
    requires InOrder(excluded)
    ensures found ==> r in excluded && start < r.end && forall b :: start <= b < r.start ==> !InSome(excluded, b)
    ensures !found ==> forall b :: start <= b ==> !InSome(excluded, b)
  {
    r := Range(0, 0);
    for i := 0 to |excluded|
      invariant forall j :: 0 <= j < i ==> excluded[j].end <= start
    {
      if start < excluded[i].end {
        return true, excluded[i];
      }
    }
    found := false;
  }

  /** The bytes of lo..hi that are not excluded. */
  predicate Wanted(excluded: seq<Range>, lo: nat, hi: nat, b: nat) {
    lo <= b < hi && !InSome(excluded, b)
  }

  /** What a call added: ranges in order, covering exactly the wanted bytes. */
  ghost predicate Covers(added: seq<Range>, excluded: seq<Range>, lo: nat, hi: nat) {
    InOrder(added) && forall b: nat :: InSome(added, b) <==> Wanted(excluded, lo, hi, b)
  }

  lemma OneMoreRange(added: seq<Range>, excluded: seq<Range>, lo: nat, at: nat, hi: nat)
    requires Covers(added, excluded, lo, at) && lo <= at < hi && forall b :: at <= b < hi ==> !InSome(excluded, b)
    ensures Covers(added + [Range(at, hi)], excluded, lo, hi) && InOrder(added + [Range(at, hi)])
    ensures Total(added + [Range(at, hi)]) == Total(added) + (hi - at)
  {
    var more := added + [Range(at, hi)];
    assert more[..|added|] == added;
    forall b: nat ensures InSome(more, b) <==> Wanted(excluded, lo, hi, b) {
      InSomeConcat(added, [Range(at, hi)], b);
      assert InSome([Range(at, hi)], b) <==> at <= b < hi by {
        if at <= b < hi {
          assert Within([Range(at, hi)][0], b);
        }
      }
      assert InSome(added, b) <==> Wanted(excluded, lo, at, b);
    }
    forall i | 0 <= i < |added| ensures added[i].end <= at {
      assert Within(added[i], added[i].end - 1);
      assert InSome(added, added[i].end - 1);
    }
  }

  lemma SkipExcluded(added: seq<Range>, excluded: seq<Range>, lo: nat, at: nat, r: Range, hi: nat)
    requires Covers(added, excluded, lo, at) && lo <= at && r in excluded && r.start <= at <= hi <= r.end
    ensures Covers(added, excluded, lo, hi)
  {
    var k :| 0 <= k < |excluded| && excluded[k] == r;
    forall b: nat ensures InSome(added, b) <==> Wanted(excluded, lo, hi, b) {
      assert InSome(added, b) <==> Wanted(excluded, lo, at, b);
      if at <= b < hi {
        assert Within(excluded[k], b);
      }
    }
  }

  function Min(a: nat, b: nat): nat {
    if a < b then a else b
  }

  /** btrfs_add_new_free_space: the part of start..end that is not excluded is added,
      and total is its size. */
  method AddNewFreeSpace(cache: FreeSpaceCache, excluded: seq<Range>, start0: nat, end: nat)
      returns (total: nat, ghost added: seq<Range>)
    requires InOrder(excluded)
    modifies cache
    ensures Covers(added, excluded, start0, end) && cache.ranges == old(cache.ranges) + added && total == Total(added)
  {
    hide Covers, InSome, Total, Wanted;
    var start := start0;
    total, added := 0, [];
    NothingCovered(excluded, start0, Min(start, end));
    while start < end
      invariant start0 <= start && Covers(added, excluded, start0, Min(start, end))
      invariant InOrder(added) && cache.ranges == old(cache.ranges) + added && total == Total(added)
      decreases end - start
    {
      var found, r := FindFirst(excluded, start);
      if !found {
        break;
      }
      if r.start <= start {
        SkipExcluded(added, excluded, start0, start, r, Min(r.end, end));
        start := r.end;
      } else if r.start < end {
        var size := r.start - start;
        cache.Add(start, size);
        total := total + size;
        OneMoreRange(added, excluded, start0, start, r.start);
        added := added + [Range(start, r.start)];
        SkipExcluded(added, excluded, start0, r.start, r, Min(r.end, end));
        start := r.end;
      } else {
        break;
      }
    }
    if start < end {
      var size := end - start;
      cache.Add(start, size);
      total := total + size;
      OneMoreRange(added, excluded, start0, start, end);
      added := added + [Range(start, end)];
    }
  }

  lemma NothingCovered(excluded: seq<Range>, lo: nat, hi: nat)
    requires hi <= lo
    ensures Covers([], excluded, lo, hi) && Total([]) == 0
  {
  }

  // ----- the extent tree, as its leaves -----

  /** The keys of the first n leaves. */
  function FirstKeys(leaves: seq<seq<Key>>, n: nat): seq<Key>
    requires n <= |leaves|
  {
    if n == 0 then [] else FirstKeys(leaves, n - 1) + leaves[n - 1]
  }

  function AllKeys(leaves: seq<seq<Key>>): seq<Key> {
    FirstKeys(leaves, |leaves|)
  }

  ghost predicate Sorted(keys: seq<Key>) {
    forall i, j :: 0 <= i < j < |keys| ==> Less(keys[i], keys[j])
  }

  /** Sorted leaves, of which only the first may be empty. */
  ghost predicate Searchable(leaves: seq<seq<Key>>) {
    leaves != [] && Sorted(AllKeys(leaves)) && forall l :: 0 < l < |leaves| ==> leaves[l] != []
  }

  /** A path: a leaf and a slot in it, or just behind its last item. */
  predicate OnPath(leaves: seq<seq<Key>>, leaf: nat, slot: nat) {
    leaf < |leaves| && slot <= |leaves[leaf]|
  }

  /** The items in front of a path. */
  function Position(leaves: seq<seq<Key>>, leaf: nat, slot: nat): nat
    requires OnPath(leaves, leaf, slot)
  {
    |FirstKeys(leaves, leaf)| + slot
  }

  lemma {:induction false} KeysPrefix(leaves: seq<seq<Key>>, m: nat, n: nat)
    requires m <= n <= |leaves|
    ensures |FirstKeys(leaves, m)| <= |FirstKeys(leaves, n)|
            && FirstKeys(leaves, n)[..|FirstKeys(leaves, m)|] == FirstKeys(leaves, m)
  {
    if m < n {
      KeysPrefix(leaves, m, n - 1);
      var k := |FirstKeys(leaves, m)|;
      assert FirstKeys(leaves, n)[..k] == FirstKeys(leaves, n - 1)[..k];
    }
  }

  /** The item a path stands on, among all items. */
  lemma KeyAtPath(leaves: seq<seq<Key>>, leaf: nat, slot: nat)
    requires OnPath(leaves, leaf, slot)
    ensures Position(leaves, leaf, slot) <= |AllKeys(leaves)|
    ensures slot < |leaves[leaf]| ==> Position(leaves, leaf, slot) < |AllKeys(leaves)|
                                      && AllKeys(leaves)[Position(leaves, leaf, slot)] == leaves[leaf][slot]
    ensures slot == |leaves[leaf]| && leaf + 1 < |leaves|
            ==> Position(leaves, leaf, slot) == Position(leaves, leaf + 1, 0)
    ensures slot == |leaves[leaf]| && leaf + 1 == |leaves| ==> Position(leaves, leaf, slot) == |AllKeys(leaves)|
  {
    KeysPrefix(leaves, leaf + 1, |leaves|);
    var all, k := AllKeys(leaves), FirstKeys(leaves, leaf + 1);
    if slot < |leaves[leaf]| {
      assert all[..|k|][Position(leaves, leaf, slot)] == k[Position(leaves, leaf, slot)];
    }
  }

  /** btrfs_search_slot: the leaf and slot where the key is, or would go in; that can be
      behind the last item of a leaf. */
  method SearchSlot(leaves: seq<seq<Key>>, key: Key) returns (leaf: nat, slot: nat)
    requires Searchable(leaves)
    ensures OnPath(leaves, leaf, slot) && (leaf + 1 < |leaves| ==> Less(key, leaves[leaf + 1][0]))
    ensures forall i :: 0 <= i < Position(leaves, leaf, slot) && i < |AllKeys(leaves)| ==> Less(AllKeys(leaves)[i], key)
    ensures forall i :: Position(leaves, leaf, slot) <= i < |AllKeys(leaves)| ==> !Less(AllKeys(leaves)[i], key)
  {
    hide FirstKeys, Less;
    leaf := 0;
    while leaf + 1 < |leaves| && Compare(leaves[leaf + 1][0], key) <= 0
      invariant leaf < |leaves|
      invariant leaf > 0 ==> Compare(leaves[leaf][0], key) <= 0
    {
      leaf := leaf + 1;
    }
    slot := 0;
    while slot < |leaves[leaf]| && Compare(leaves[leaf][slot], key) < 0
      invariant slot <= |leaves[leaf]|
      invariant slot > 0 ==> Compare(leaves[leaf][slot - 1], key) < 0
    {
      slot := slot + 1;
    }
    SearchDone(leaves, leaf, slot, key);
  }

  lemma SearchDone(leaves: seq<seq<Key>>, leaf: nat, slot: nat, key: Key)
    requires Searchable(leaves) && OnPath(leaves, leaf, slot)
    requires leaf + 1 < |leaves| ==> Compare(leaves[leaf + 1][0], key) > 0
    requires leaf > 0 ==> Compare(leaves[leaf][0], key) <= 0
    requires slot > 0 ==> Compare(leaves[leaf][slot - 1], key) < 0
    requires slot < |leaves[leaf]| ==> Compare(leaves[leaf][slot], key) >= 0
    ensures leaf + 1 < |leaves| ==> Less(key, leaves[leaf + 1][0])
    ensures forall i :: 0 <= i < Position(leaves, leaf, slot) && i < |AllKeys(leaves)| ==> Less(AllKeys(leaves)[i], key)
    ensures forall i :: Position(leaves, leaf, slot) <= i < |AllKeys(leaves)| ==> !Less(AllKeys(leaves)[i], key)
  {
    hide FirstKeys;
    var all, p := AllKeys(leaves), Position(leaves, leaf, slot);
    KeyAtPath(leaves, leaf, slot);
    if leaf + 1 < |leaves| {
      TotalOrder(key, leaves[leaf + 1][0], key);
    }
    if slot > 0 {
      KeyAtPath(leaves, leaf, slot - 1);
    } else if leaf > 0 {
      KeyAtPath(leaves, leaf, 0);
    }
    if slot == |leaves[leaf]| && leaf + 1 < |leaves| {
      KeyAtPath(leaves, leaf + 1, 0);
    }
    forall i | 0 <= i < p && i < |all| ensures Less(all[i], key) {
      if slot > 0 {
        TotalOrder(all[i], all[p - 1], key);
      } else if leaf > 0 {
        TotalOrder(all[i], all[p], key);
        TotalOrder(all[p], key, key);
      } else {
        StartOfFirst(leaves);
      }
    }
    forall i | p <= i < |all| ensures !Less(all[i], key) {
      TotalOrder(all[p], all[i], key);
      TotalOrder(all[i], key, all[p]);
      TotalOrder(key, all[p], all[i]);
    }
  }

  lemma StartOfFirst(leaves: seq<seq<Key>>)
    requires leaves != []
    ensures Position(leaves, 0, 0) == 0
  {
  }

  /** Looking up the first key of a later leaf finds that leaf. */
  lemma LaterLeaf(leaves: seq<seq<Key>>, leaf: nat, found: nat)
    requires Searchable(leaves) && leaf + 1 < |leaves| && found < |leaves|
    requires found + 1 < |leaves| ==> Less(leaves[leaf + 1][0], leaves[found + 1][0])
    ensures leaf < found
  {
    if found < leaf {
      KeyAtPath(leaves, found + 1, 0);
      KeyAtPath(leaves, leaf + 1, 0);
      KeysPrefix(leaves, found + 2, leaf + 1);
      TotalOrder(leaves[leaf + 1][0], leaves[found + 1][0], leaves[leaf + 1][0]);
    }
  }

  // ----- extents -----

  predicate IsExtent(k: Key) {
    k.kind == EXTENT_ITEM_KEY || k.kind == METADATA_ITEM_KEY
  }

  function ExtentEnd(k: Key, nodesize: nat): nat {
    k.objectid + if k.kind == METADATA_ITEM_KEY then nodesize else k.offset
  }

  /** Byte b belongs to an extent that starts at first or later. */
  ghost predicate Allocated(keys: seq<Key>, nodesize: nat, first: nat, b: nat) {
    exists i :: 0 <= i < |keys| && Holds(keys[i], nodesize, first, b)
  }

  predicate Holds(k: Key, nodesize: nat, first: nat, b: nat) {
    IsExtent(k) && first <= k.objectid <= b < ExtentEnd(k, nodesize)
  }

  ghost predicate Disjoint(keys: seq<Key>, nodesize: nat) {
    forall i, j :: 0 <= i < j < |keys| && IsExtent(keys[i]) && IsExtent(keys[j])
        ==> ExtentEnd(keys[i], nodesize) <= keys[j].objectid
  }

  /** Where the scan stands: the first p items are behind it, and everything below last
      is settled. */
  ghost predicate Scanned(added: seq<Range>, excluded: seq<Range>, keys: seq<Key>, nodesize: nat, first: nat, end: nat,
      last: nat, p: nat)
    requires p <= |keys|
  {
    && first <= last && InOrder(added)
    && (forall b: nat :: InSome(added, b)
            <==> Wanted(excluded, first, end, b) && b < last && !Allocated(keys, nodesize, first, b))
    && (forall i :: 0 <= i < p && IsExtent(keys[i]) && first <= keys[i].objectid
            ==> ExtentEnd(keys[i], nodesize) <= last)
    && (forall i :: p <= i < |keys| && IsExtent(keys[i]) && first <= keys[i].objectid ==> last <= keys[i].objectid)
  }

  /** The range between last and the next extent, and then that extent. */
  lemma ExtentScanned(added: seq<Range>, more: seq<Range>, excluded: seq<Range>, keys: seq<Key>, nodesize: nat,
      first: nat, end: nat, last: nat, p: nat)
    requires p < |keys| && Scanned(added, excluded, keys, nodesize, first, end, last, p) && Sorted(keys)
             && Disjoint(keys, nodesize)
    requires IsExtent(keys[p]) && last <= keys[p].objectid < end
    requires Covers(more, excluded, last, keys[p].objectid)
    ensures Scanned(added + more, excluded, keys, nodesize, first, end, ExtentEnd(keys[p], nodesize), p + 1)
  {
    var k, last' := keys[p], ExtentEnd(keys[p], nodesize);
    hide Covers, InSome, InOrder, Wanted, Allocated, Sorted;
    JoinRanges(added, more, excluded, keys, nodesize, first, end, last, k.objectid);
    forall b: nat ensures InSome(added + more, b)
        <==> Wanted(excluded, first, end, b) && b < last' && !Allocated(keys, nodesize, first, b) {
      InSomeConcat(added, more, b);
      CoversExactly(more, excluded, last, k.objectid, b);
      if last <= b < k.objectid {
        NotAllocated(added, excluded, keys, nodesize, first, end, last, p, b);
      } else if k.objectid <= b < last' {
        HeldByOne(keys, nodesize, first, p, b);
      }
      WantedParts(excluded, first, end, last, k.objectid, b);
    }
    assert ExtentEnd(k, nodesize) >= k.objectid;
  }

  lemma WantedParts(excluded: seq<Range>, first: nat, end: nat, last: nat, mid: nat, b: nat)
    requires first <= last <= mid < end
    ensures Wanted(excluded, last, mid, b) <==> Wanted(excluded, first, end, b) && last <= b < mid
  {
  }

  lemma CoversExactly(added: seq<Range>, excluded: seq<Range>, lo: nat, hi: nat, b: nat)
    requires Covers(added, excluded, lo, hi)
    ensures InSome(added, b) <==> Wanted(excluded, lo, hi, b)
  {
  }

  lemma HeldByOne(keys: seq<Key>, nodesize: nat, first: nat, p: nat, b: nat)
    requires p < |keys| && Holds(keys[p], nodesize, first, b)
    ensures Allocated(keys, nodesize, first, b)
  {
  }

  lemma NotAllocated(added: seq<Range>, excluded: seq<Range>, keys: seq<Key>, nodesize: nat, first: nat, end: nat,
      last: nat, p: nat, b: nat)
    requires p <= |keys| && Scanned(added, excluded, keys, nodesize, first, end, last, p) && Sorted(keys)
    requires last <= b && (p < |keys| ==> b < keys[p].objectid)
    ensures !Allocated(keys, nodesize, first, b)
  {
    forall i | 0 <= i < |keys| ensures !Holds(keys[i], nodesize, first, b) {
      if p < i {
        assert Less(keys[p], keys[i]);
      }
    }
  }

  lemma JoinRanges(added: seq<Range>, more: seq<Range>, excluded: seq<Range>, keys: seq<Key>, nodesize: nat,
      first: nat, end: nat, last: nat, hi: nat)
    requires InOrder(added) && Covers(more, excluded, last, hi)
    requires forall b: nat :: InSome(added, b)
                 <==> Wanted(excluded, first, end, b) && b < last && !Allocated(keys, nodesize, first, b)
    ensures InOrder(added + more)
  {
    hide Allocated;
    forall i | 0 <= i < |added| ensures added[i].end <= last {
      assert Within(added[i], added[i].end - 1);
      assert InSome(added, added[i].end - 1);
    }
    forall i | 0 <= i < |more| ensures last <= more[i].start {
      assert Within(more[i], more[i].start);
      assert InSome(more, more[i].start);
    }
  }

  lemma ScanStarts(excluded: seq<Range>, keys: seq<Key>, nodesize: nat, first: nat, end: nat, p: nat)
    requires p <= |keys| && Sorted(keys)
    requires forall i :: 0 <= i < p ==> Less(keys[i], Key(first, EXTENT_ITEM_KEY, 0))
    ensures Scanned([], excluded, keys, nodesize, first, end, first, p)
  {
  }

  /** Moving on without an extent: over an item, or by looking last up again. */
  lemma ScanMoves(added: seq<Range>, excluded: seq<Range>, keys: seq<Key>, nodesize: nat, first: nat, end: nat,
      last: nat, p: nat, q: nat)
    requires p <= q <= |keys| && Scanned(added, excluded, keys, nodesize, first, end, last, p)
    requires forall i :: p <= i < q ==> keys[i].objectid < last || !IsExtent(keys[i])
    ensures Scanned(added, excluded, keys, nodesize, first, end, last, q)
  {
    hide Allocated, Wanted, InOrder, InSome;
  }

  /** The last stretch, up to the end of the block group. */
  lemma ScanEnds(added: seq<Range>, more: seq<Range>, excluded: seq<Range>, keys: seq<Key>, nodesize: nat, first: nat,
      end: nat, last: nat, p: nat)
    requires p <= |keys| && Scanned(added, excluded, keys, nodesize, first, end, last, p) && Sorted(keys)
    requires p < |keys| ==> end <= keys[p].objectid
    requires Covers(more, excluded, last, end)
    ensures InOrder(added + more)
    ensures forall b: nat :: InSome(added + more, b)
                <==> Wanted(excluded, first, end, b) && !Allocated(keys, nodesize, first, b)
  {
    hide Covers, InSome, InOrder, Allocated, Sorted;
    JoinRanges(added, more, excluded, keys, nodesize, first, end, last, end);
    forall b: nat ensures InSome(added + more, b)
        <==> Wanted(excluded, first, end, b) && !Allocated(keys, nodesize, first, b) {
      InSomeConcat(added, more, b);
      CoversExactly(more, excluded, last, end, b);
      if last <= b < end {
        NotAllocated(added, excluded, keys, nodesize, first, end, last, p, b);
      }
    }
  }

  function Max(a: nat, b: nat): nat {
    if a < b then b else a
  }

  /** load_extent_tree_free.  Whether the file system is closing, and whether the caching
      thread is asked to yield, is decided from outside, turn by turn.  Added are exactly the
      bytes of the block group behind the super block that are neither excluded nor in an
      extent; a scan that was cut short comes to upTo. */
  method LoadExtentTreeFree(cache: FreeSpaceCache, leaves: seq<seq<Key>>, excluded: seq<Range>, start: nat,
      length: nat, nodesize: nat, closing: nat -> bool, resched: nat -> bool)
    returns (ghost added: seq<Range>, closed: bool, ghost upTo: nat, ghost turns: nat)
    requires Searchable(leaves) && InOrder(excluded) && Disjoint(AllKeys(leaves), nodesize)
    modifies cache
    ensures cache.ranges == old(cache.ranges) + added
    ensures forall i :: 0 <= i < |added| ==> added[i].start < added[i].end
    ensures forall i, j :: 0 <= i < j < |added| ==> added[i].end <= added[j].start
    ensures forall b: nat ::
              InSome(added, b)
              <==> Wanted(excluded, Max(start, SUPER_INFO_OFFSET), start + length, b) && (closed ==> b < upTo)
                   && !Allocated(AllKeys(leaves), nodesize, Max(start, SUPER_INFO_OFFSET), b)
    ensures if closed then turns > 0 && closing(turns - 1) else forall t :: 0 <= t < turns ==> !closing(t)
  {
    hide Scanned, FirstKeys, Allocated, Wanted, InSome, Covers, Less, IsExtent, InOrder, Disjoint, Sorted;
    ghost var keys, first, end := AllKeys(leaves), Max(start, SUPER_INFO_OFFSET), start + length;
    var last: nat, totalFound: nat := Max(start, SUPER_INFO_OFFSET), 0;
    var leaf: nat, slot: nat := SearchSlot(leaves, Key(last, EXTENT_ITEM_KEY, 0));
    KeyAtPath(leaves, leaf, slot);
    ScanStarts(excluded, keys, nodesize, first, end, Position(leaves, leaf, slot));
    added, closed, upTo, turns := [], false, last, 0;
    var turn := 0;
    while true
      invariant turn == turns && forall t :: 0 <= t < turns ==> !closing(t)
      invariant OnPath(leaves, leaf, slot) && Position(leaves, leaf, slot) <= |keys|
      invariant Scanned(added, excluded, keys, nodesize, first, end, last, Position(leaves, leaf, slot))
      invariant cache.ranges == old(cache.ranges) + added && last >= start
      decreases |keys| - Position(leaves, leaf, slot), |leaves| - leaf
    {
      KeyAtPath(leaves, leaf, slot);
      ghost var p := Position(leaves, leaf, slot);
      turns := turns + 1;
      if closing(turn) {
        closed, upTo := true, last;
        SoFar(added, excluded, keys, nodesize, first, end, last, p);
        OrderIs(added);
        return;
      }
      turn := turn + 1;
      if slot == |leaves[leaf]| {
        if leaf + 1 == |leaves| {
          break;
        }
        KeyAtPath(leaves, leaf + 1, 0);
        if resched(turn) {
          var key := leaves[leaf + 1][0];
          ghost var was := leaf;
          leaf, slot := SearchSlot(leaves, key);
          KeyAtPath(leaves, leaf, slot);
          SamePlace(keys, p, Position(leaves, leaf, slot), key);
          LaterLeaf(leaves, was, leaf);
        } else {
          leaf, slot := leaf + 1, 0;
        }
        continue;
      }
      var key := leaves[leaf][slot];
      if key.objectid < last {
        leaf, slot := SearchSlot(leaves, Key(last, EXTENT_ITEM_KEY, 0));
        KeyAtPath(leaves, leaf, slot);
        JumpsAhead(keys, p, Position(leaves, leaf, slot), last);
        ScanMoves(added, excluded, keys, nodesize, first, end, last, p, Position(leaves, leaf, slot));
        continue;
      }
      if key.objectid < start {
        assert false;
      }
      if key.objectid >= start + length {
        break;
      }
      if key.kind == EXTENT_ITEM_KEY || key.kind == METADATA_ITEM_KEY {
        ghost var more;
        var spaceAdded;
        spaceAdded, more := AddNewFreeSpace(cache, excluded, last, key.objectid);
        totalFound := totalFound + spaceAdded;
        ExtentIs(key);
        ExtentScanned(added, more, excluded, keys, nodesize, first, end, last, p);
        added := added + more;
        last := if key.kind == METADATA_ITEM_KEY then key.objectid + nodesize else key.objectid + key.offset;
      } else {
        ExtentIs(key);
        ScanMoves(added, excluded, keys, nodesize, first, end, last, p, p + 1);
      }
      slot := slot + 1;
    }
    ghost var more;
    var rest;
    rest, more := AddNewFreeSpace(cache, excluded, last, start + length);
    ScanEnds(added, more, excluded, keys, nodesize, first, end, last, Position(leaves, leaf, slot));
    added := added + more;
    OrderIs(added);
  }

  // What was added, in terms of the ranges and of the items.

  lemma OrderIs(rs: seq<Range>)
    requires InOrder(rs)
    ensures forall i :: 0 <= i < |rs| ==> rs[i].start < rs[i].end
    ensures forall i, j :: 0 <= i < j < |rs| ==> rs[i].end <= rs[j].start
  {
  }

  lemma InSomeIs(rs: seq<Range>, b: nat)
    ensures InSome(rs, b) <==> exists i :: 0 <= i < |rs| && rs[i].start <= b < rs[i].end
  {
    if i :| 0 <= i < |rs| && rs[i].start <= b < rs[i].end {
      assert Within(rs[i], b);
    }
  }

  lemma WantedIs(excluded: seq<Range>, start: nat, length: nat, b: nat)
    ensures Wanted(excluded, Max(start, SUPER_INFO_OFFSET), start + length, b)
            <==> && 0x1_0000 <= b && start <= b < start + length
                 && !exists i :: 0 <= i < |excluded| && excluded[i].start <= b < excluded[i].end
  {
    InSomeIs(excluded, b);
  }

  /** An extent item holds its length, a metadata item stands for one tree block. */
  lemma AllocatedIs(keys: seq<Key>, nodesize: nat, start: nat, b: nat)
    ensures Allocated(keys, nodesize, Max(start, SUPER_INFO_OFFSET), b)
            <==> exists i :: 0 <= i < |keys| && 0x1_0000 <= keys[i].objectid && start <= keys[i].objectid <= b
                             && ((keys[i].kind == 168 && b < keys[i].objectid + keys[i].offset)
                                || (keys[i].kind == 169 && b < keys[i].objectid + nodesize))
  {
    forall i | 0 <= i < |keys|
      ensures Holds(keys[i], nodesize, Max(start, SUPER_INFO_OFFSET), b)
              <==> 0x1_0000 <= keys[i].objectid && start <= keys[i].objectid <= b
                   && ((keys[i].kind == 168 && b < keys[i].objectid + keys[i].offset)
                      || (keys[i].kind == 169 && b < keys[i].objectid + nodesize))
    {
    }
  }

  lemma ExtentIs(k: Key)
    ensures IsExtent(k) <==> k.kind == EXTENT_ITEM_KEY || k.kind == METADATA_ITEM_KEY
  {
  }

  lemma SoFar(added: seq<Range>, excluded: seq<Range>, keys: seq<Key>, nodesize: nat, first: nat, end: nat, last: nat,
      p: nat)
    requires p <= |keys| && Scanned(added, excluded, keys, nodesize, first, end, last, p)
    ensures InOrder(added)
    ensures forall b: nat :: InSome(added, b)
                <==> Wanted(excluded, first, end, b) && b < last && !Allocated(keys, nodesize, first, b)
  {
    hide InSome, Wanted, Allocated, InOrder;
  }

  lemma SamePlace(keys: seq<Key>, p: nat, q: nat, key: Key)
    requires Sorted(keys) && p < |keys| && q <= |keys| && keys[p] == key
    requires forall i :: 0 <= i < q ==> Less(keys[i], key)
    requires forall i :: q <= i < |keys| ==> !Less(keys[i], key)
    ensures p == q
  {
    TotalOrder(key, key, key);
    if q < p {
      InKeyOrder(keys, q, p);
    }
  }

  lemma InKeyOrder(keys: seq<Key>, i: nat, j: nat)
    requires Sorted(keys) && i < j < |keys|
    ensures Less(keys[i], keys[j])
  {
  }

  lemma JumpsAhead(keys: seq<Key>, p: nat, q: nat, last: nat)
    requires p < |keys| && q <= |keys| && keys[p].objectid < last
    requires forall i :: 0 <= i < q ==> Less(keys[i], Key(last, EXTENT_ITEM_KEY, 0))
    requires forall i :: q <= i < |keys| ==> !Less(keys[i], Key(last, EXTENT_ITEM_KEY, 0))
    ensures p < q && forall i :: p <= i < q ==> keys[i].objectid < last || !IsExtent(keys[i])
  {
  }
}
