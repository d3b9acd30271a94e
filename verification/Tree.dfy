/** The B+tree as a value: leaves of items, nodes of (key, child) pointers, and
    the invariants that every tree operation keeps. */
module Tree {
  import opened Keys

  newtype Byte = x: int | 0 <= x < 256

  datatype Item = Item(key: Key, data: seq<Byte>)

  datatype Block = Leaf(items: seq<Item>) | Node(ptrs: seq<Ptr>)
  datatype Ptr = Ptr(key: Key, child: Block)

  const ITEM_HEADER := 25   // sizeof(struct btrfs_item)
  const KEY_PTR := 33       // sizeof(struct btrfs_key_ptr)
  const MIN_LEAF_DATA := 3995   // smallest node size (4096) minus the block header (101)

  function Capacity(leafData: nat): nat {
    leafData / KEY_PTR
  }

  // ----- space -----

  function ItemSpace(it: Item): nat {
    ITEM_HEADER + |it.data|
  }

  /** Bytes that these items need in a leaf, headers included (leaf_space_used). */
  function Space(items: seq<Item>): nat {
    if items == [] then 0 else ItemSpace(items[0]) + Space(items[1..])
  }

  lemma SpaceConcat(a: seq<Item>, b: seq<Item>)
    ensures Space(a + b) == Space(a) + Space(b)
  {
    if a == [] {
      assert a + b == b;
    } else {
      assert (a + b)[1..] == a[1..] + b;
      SpaceConcat(a[1..], b);
    }
  }

  lemma SpaceSplit(s: seq<Item>, i: nat)
    requires i <= |s|
    ensures Space(s) == Space(s[..i]) + Space(s[i..])
  {
    assert s == s[..i] + s[i..];
    SpaceConcat(s[..i], s[i..]);
  }

  lemma SpaceOne(s: seq<Item>, i: nat)
    requires i < |s|
    ensures Space(s[i..]) == ItemSpace(s[i]) + Space(s[i + 1..])
    ensures Space(s[..i + 1]) == Space(s[..i]) + ItemSpace(s[i])
  {
    assert s[i..][1..] == s[i + 1..];
    assert s[..i + 1] == s[..i] + [s[i]];
    SpaceConcat(s[..i], [s[i]]);
  }

  // ----- contents -----

  /** All items of a block, in key order. */
  function Flatten(t: Block): seq<Item>
    decreases t
  {
    match t
    case Leaf(items) => items
    case Node(ptrs) => FlattenPtrs(ptrs)
  }

  function FlattenPtrs(ps: seq<Ptr>): seq<Item>
    decreases ps
  {
    if ps == [] then [] else FlattenPtr(ps[0]) + FlattenPtrs(ps[1..])
  }

  function FlattenPtr(p: Ptr): seq<Item>
    decreases p
  {
    Flatten(p.child)
  }

  lemma FlattenConcat(a: seq<Ptr>, b: seq<Ptr>)
    ensures FlattenPtrs(a + b) == FlattenPtrs(a) + FlattenPtrs(b)
  {
    if a == [] {
      assert a + b == b;
    } else {
      assert (a + b)[0] == a[0];
      assert (a + b)[1..] == a[1..] + b;
      FlattenConcat(a[1..], b);
    }
  }

  lemma FlattenOne(p: Ptr)
    ensures FlattenPtrs([p]) == Flatten(p.child)
  {
    assert [p][1..] == [];
  }

  lemma FlattenSplit(ps: seq<Ptr>, i: nat)
    requires i <= |ps|
    ensures FlattenPtrs(ps) == FlattenPtrs(ps[..i]) + FlattenPtrs(ps[i..])
  {
    assert ps == ps[..i] + ps[i..];
    FlattenConcat(ps[..i], ps[i..]);
  }

  lemma FlattenAt(ps: seq<Ptr>, i: nat)
    requires i < |ps|
    ensures FlattenPtrs(ps) == FlattenPtrs(ps[..i]) + Flatten(ps[i].child) + FlattenPtrs(ps[i + 1..])
    ensures FlattenPtrs(ps[i..]) == Flatten(ps[i].child) + FlattenPtrs(ps[i + 1..])
  {
    FlattenSplit(ps, i);
    var s := ps[i..];
    assert s[0] == ps[i] && s[1..] == ps[i + 1..];
    assert FlattenPtrs(s) == FlattenPtr(s[0]) + FlattenPtrs(s[1..]);
    hide FlattenPtrs;
  }

  // ----- order -----

  ghost predicate Sorted(items: seq<Item>) {
    forall i, j :: 0 <= i < j < |items| ==> Less(items[i].key, items[j].key)
  }

  /** Every key of the sequence is below k. */
  ghost predicate Below(items: seq<Item>, k: Key) {
    forall i :: 0 <= i < |items| ==> Less(items[i].key, k)
  }

  /** Every key of the sequence is above k. */
  ghost predicate Above(k: Key, items: seq<Item>) {
    forall i :: 0 <= i < |items| ==> Less(k, items[i].key)
  }

  ghost predicate Present(items: seq<Item>, k: Key) {
    exists i :: 0 <= i < |items| && items[i].key == k
  }

  /** The item with this key is there, but cannot grow by so many bytes in a leaf. */
  ghost predicate TooBig(items: seq<Item>, k: Key, more: int, leafData: nat) {
    exists i :: 0 <= i < |items| && items[i].key == k && more + ItemSpace(items[i]) > leafData
  }

  lemma SortedParts(a: seq<Item>, b: seq<Item>)
    requires Sorted(a + b)
    ensures Sorted(a) && Sorted(b)
    ensures forall i, j :: 0 <= i < |a| && 0 <= j < |b| ==> Less(a[i].key, b[j].key)
  {
    var s := a + b;
    forall i, j | 0 <= i < j < |a| ensures Less(a[i].key, a[j].key) {
      assert s[i] == a[i] && s[j] == a[j];
    }
    forall i, j | 0 <= i < j < |b| ensures Less(b[i].key, b[j].key) {
      assert s[|a| + i] == b[i] && s[|a| + j] == b[j];
    }
    forall i, j | 0 <= i < |a| && 0 <= j < |b| ensures Less(a[i].key, b[j].key) {
      assert s[i] == a[i] && s[|a| + j] == b[j];
    }
  }

  lemma SortedMiddle(a: seq<Item>, m: seq<Item>, b: seq<Item>)
    requires Sorted(a + m + b)
    ensures Sorted(m)
  {
    hide Sorted;
    SortedParts(a + m, b);
    SortedParts(a, m);
  }

  /** A sorted batch between smaller and larger keys. */
  lemma SortedInsert(a: seq<Item>, m: seq<Item>, b: seq<Item>)
    requires Sorted(a + b) && Sorted(m) && m != []
    requires Below(a, m[0].key) && Above(m[|m| - 1].key, b)
    ensures Sorted(a + m + b)
  {
    SortedParts(a, b);
    forall i, j | 0 <= i < |a| && 0 <= j < |m| ensures Less(a[i].key, m[j].key) {
      TotalOrder(a[i].key, m[0].key, m[j].key);
    }
    forall i, j | 0 <= i < |m| && 0 <= j < |b| ensures Less(m[i].key, b[j].key) {
      TotalOrder(m[i].key, m[|m| - 1].key, b[j].key);
    }
  }

  lemma SortedRemove(a: seq<Item>, m: seq<Item>, b: seq<Item>)
    requires Sorted(a + m + b)
    ensures Sorted(a + b)
  {
    SortedParts(a + m, b);
    SortedParts(a, m);
    assert forall i :: 0 <= i < |a| ==> (a + m)[i] == a[i];
  }

  // ----- structural invariants -----

  /** The lowest key reachable from a block. */
  function Low(t: Block): Key {
    match t
    case Leaf(items) => if items == [] then Key(0, 0, 0) else items[0].key
    case Node(ptrs) => if ptrs == [] then Key(0, 0, 0) else ptrs[0].key
  }

  /** A block below the root: uniform depth, never empty, never over capacity,
      every separator equal to the lowest key of its child. */
  ghost predicate BlockOK(t: Block, level: nat, leafData: nat)
    decreases level, 0
  {
    if level == 0 then
      t.Leaf? && t.items != [] && Space(t.items) <= leafData
    else
      t.Node? && 1 <= |t.ptrs| <= Capacity(leafData) && PtrsOK(t.ptrs, level - 1, leafData)
  }

  ghost predicate PtrsOK(ps: seq<Ptr>, level: nat, leafData: nat)
    decreases level, 2
  {
    forall i :: 0 <= i < |ps| ==> PtrOK(ps[i], level, leafData)
  }

  ghost predicate PtrOK(p: Ptr, level: nat, leafData: nat)
    decreases level, 1
  {
    BlockOK(p.child, level, leafData) && p.key == Low(p.child)
  }

  /** The lowest key of a sound block is the key of its first item. */
  lemma {:induction false} LowIsFirst(t: Block, level: nat, leafData: nat)
    requires BlockOK(t, level, leafData)
    ensures Flatten(t) != [] && Flatten(t)[0].key == Low(t)
    decreases level
  {
    if level > 0 {
      assert PtrOK(t.ptrs[0], level - 1, leafData);
      LowIsFirst(t.ptrs[0].child, level - 1, leafData);
      assert Flatten(t) == FlattenPtr(t.ptrs[0]) + FlattenPtrs(t.ptrs[1..]);
    }
  }

  /** In a sorted node every separator is above everything to its left and at
      most everything from its own child on. */
  lemma SeparatorBounds(ps: seq<Ptr>, i: nat, level: nat, leafData: nat)
    requires PtrsOK(ps, level, leafData) && Sorted(FlattenPtrs(ps)) && i < |ps|
    ensures Below(FlattenPtrs(ps[..i]), ps[i].key)
    ensures FlattenPtrs(ps[i..]) != [] && FlattenPtrs(ps[i..])[0].key == ps[i].key
  {
    assert PtrOK(ps[i], level, leafData);
    LowIsFirst(ps[i].child, level, leafData);
    FlattenSplit(ps, i);
    FlattenAt(ps, i);
    SortedParts(FlattenPtrs(ps[..i]), FlattenPtrs(ps[i..]));
    assert FlattenPtrs(ps[i..])[0].key == ps[i].key;
  }

  lemma KeysSorted(ps: seq<Ptr>, level: nat, leafData: nat)
    requires PtrsOK(ps, level, leafData) && Sorted(FlattenPtrs(ps))
    ensures forall i, j :: 0 <= i < j < |ps| ==> Less(ps[i].key, ps[j].key)
  {
    forall i, j | 0 <= i < j < |ps| ensures Less(ps[i].key, ps[j].key) {
      SeparatorBounds(ps, j, level, leafData);
      var s := ps[..j];
      FlattenAt(s, i);
      assert PtrOK(ps[i], level, leafData);
      LowIsFirst(ps[i].child, level, leafData);
      var k := |FlattenPtrs(s[..i])|;
      assert FlattenPtrs(s)[k] == Flatten(ps[i].child)[0];
    }
  }
}
