/** The tree as its callers see it: a map from keys to data. */
module Btree {
  import opened Keys
  import opened Tree
  import opened Context
  import opened NodeOps
  import opened LeafOps
  import opened SearchPath

  // ----- contents as a map -----

  function MapOf(items: seq<Item>): map<Key, seq<Byte>> {
    if items == [] then map[] else MapOf(items[..|items| - 1])[items[|items| - 1].key := items[|items| - 1].data]
  }

  lemma {:induction false} MapKeys(items: seq<Item>, k: Key)
    ensures k in MapOf(items) <==> Present(items, k)
  {
    if items != [] {
      var n := |items| - 1;
      MapKeys(items[..n], k);
      if k in MapOf(items[..n]) {
        var i :| 0 <= i < n && items[..n][i].key == k;
        assert items[i].key == k;
      }
      if Present(items, k) && items[n].key != k {
        var i :| 0 <= i < |items| && items[i].key == k;
        assert items[..n][i].key == k;
      }
    }
  }

  lemma {:induction false} MapAt(items: seq<Item>, i: nat)
    requires Sorted(items) && i < |items|
    ensures items[i].key in MapOf(items) && MapOf(items)[items[i].key] == items[i].data
  {
    var n := |items| - 1;
    if i < n {
      assert Sorted(items[..n]);
      MapAt(items[..n], i);
      assert items[..n][i] == items[i];
      assert Less(items[i].key, items[n].key);
    }
  }

  lemma UniqueKey(items: seq<Item>, i: int, j: int)
    requires Sorted(items) && 0 <= i < |items| && 0 <= j < |items| && items[i].key == items[j].key
    ensures i == j
  {
  }

  lemma PresentConcat(a: seq<Item>, b: seq<Item>, k: Key)
    ensures Present(a + b, k) <==> Present(a, k) || Present(b, k)
  {
    if Present(a, k) {
      var i :| 0 <= i < |a| && a[i].key == k;
      assert (a + b)[i].key == k;
    }
    if Present(b, k) {
      var i :| 0 <= i < |b| && b[i].key == k;
      assert (a + b)[|a| + i].key == k;
    }
  }

  lemma MapEqual(s: seq<Item>, m: map<Key, seq<Byte>>)
    requires Sorted(s)
    requires forall k :: k in m ==> Present(s, k)
    requires forall i :: 0 <= i < |s| ==> s[i].key in m && m[s[i].key] == s[i].data
    ensures MapOf(s) == m
  {
    hide MapOf, Sorted;
    forall k ensures k in MapOf(s) <==> k in m {
      MapKeys(s, k);
    }
    forall k | k in m ensures MapOf(s)[k] == m[k] {
      var i :| 0 <= i < |s| && s[i].key == k;
      MapAt(s, i);
    }
  }

  /** Putting sorted items in between adds exactly their bindings. */
  lemma MapInsert(a: seq<Item>, m: seq<Item>, b: seq<Item>)
    requires Sorted(a + m + b)
    ensures MapOf(a + m + b) == MapOf(a + b) + MapOf(m)
  {
    hide MapOf;
    var s, t := a + m + b, a + b;
    SortedRemove(a, m, b);
    SortedMiddle(a, m, b);
    forall k | k in MapOf(t) + MapOf(m) ensures Present(s, k) {
      MapKeys(t, k);
      MapKeys(m, k);
      PresentConcat(a + m, b, k);
      PresentConcat(a, m, k);
      PresentConcat(a, b, k);
    }
    forall i | 0 <= i < |s| ensures s[i].key in MapOf(t) + MapOf(m) && (MapOf(t) + MapOf(m))[s[i].key] == s[i].data {
      if |a| <= i < |a| + |m| {
        MapAt(m, i - |a|);
      } else {
        MapAt(t, if i < |a| then i else i - |m|);
        OutsideMiddle(a, m, b, i);
      }
    }
    MapEqual(s, MapOf(t) + MapOf(m));
  }

  lemma OutsideMiddle(a: seq<Item>, m: seq<Item>, b: seq<Item>, i: nat)
    requires Sorted(a + m + b) && i < |a + m + b| && !(|a| <= i < |a| + |m|)
    ensures (a + m + b)[i].key !in MapOf(m)
  {
    var s := a + m + b;
    MapKeys(m, s[i].key);
    forall u | 0 <= u < |m| ensures m[u].key != s[i].key {
      assert s[|a| + u] == m[u];
      var j := |a| + u;
      if m[u].key == s[i].key {
        UniqueKey(s, i, j);
      }
    }
  }

  /** Taking sorted items out removes exactly their keys. */
  lemma MapRemove(a: seq<Item>, m: seq<Item>, b: seq<Item>)
    requires Sorted(a + m + b)
    ensures MapOf(a + b) == MapOf(a + m + b) - MapOf(m).Keys
  {
    hide MapOf;
    MapInsert(a, m, b);
    var t := a + b;
    forall k | k in MapOf(t) ensures k !in MapOf(m) {
      MapKeys(t, k);
      var i :| 0 <= i < |t| && t[i].key == k;
      OutsideMiddle(a, m, b, if i < |a| then i else i + |m|);
    }
  }

  // ----- paths and whole trees -----

  lemma PathIsTree(above: seq<Frame>, node: Block, level: nat, leafData: nat)
    requires PathOK(above, node, level, leafData)
    ensures TreeOK(Plug(above, node), leafData) && Flatten(Plug(above, node)) == Whole(above, node)
  {
    PlugFlatten(above, node);
    if above == [] {
      if level > 0 {
        HeightOfBlock(node, level, leafData);
      }
    } else {
      PlugOK(above, node, level, leafData);
      HeightOfBlock(Plug(above, node), level + |above|, leafData);
    }
  }

  lemma TreeIsPath(root: Block, leafData: nat)
    requires TreeOK(root, leafData)
    ensures PathOK([], root, Height(root), leafData) && Whole([], root) == Flatten(root)
  {
    assert Before([]) + Flatten(root) + After([]) == Flatten(root);
  }

  class BTree {
    const leafData: nat
    var root: Block

    ghost predicate Valid()
      reads this
    {
      MIN_LEAF_DATA <= leafData && TreeOK(root, leafData)
    }

    /** Items of the tree in key order. */
    ghost function Items(): seq<Item>
      reads this
    {
      Flatten(root)
    }

    ghost function Contents(): map<Key, seq<Byte>>
      reads this
    {
      MapOf(Items())
    }

    constructor (leafData: nat)
      requires MIN_LEAF_DATA <= leafData
      ensures Valid() && Contents() == map[] && this.leafData == leafData
    {
      this.leafData := leafData;
      root := Leaf([]);
    }

    /** btrfs_search_slot without modification: found or not, and the item. */
    method Lookup(key: Key) returns (found: bool, data: seq<Byte>, ghost rank: nat)
      requires Valid()
      ensures found <==> key in Contents()
      ensures found ==> data == Contents()[key]
      ensures rank <= |Items()| && (found ==> rank < |Items()| && Items()[rank] == Item(key, data))
      ensures forall i :: 0 <= i < rank
                  ==> var k := Items()[i].key;
                      || k.objectid < key.objectid || (k.objectid == key.objectid && k.kind < key.kind)
                      || (k.objectid == key.objectid && k.kind == key.kind && k.offset < key.offset)
      ensures forall i :: rank <= i < |Items()|
                  ==> var k := Items()[i].key;
                      || k == key || key.objectid < k.objectid || (key.objectid == k.objectid && key.kind < k.kind)
                      || (key.objectid == k.objectid && key.kind == k.kind && key.offset < k.offset)
    {
      hide TreeOK, PathOK, Plug, Prefix, Suffix, Whole, Flatten, MapOf, CtxOK, LeafFor, Present;
      TreeIsPath(root, leafData);
      var path := new Path(leafData, root);
      var ret := path.SearchSlot(key, 0, false);
      PrefixSuffix(path.above, path.node, path.slot);
      PathIsTree(path.above, path.node, path.level, leafData);
      found, data, rank := ret == 0, [], |path.Pre()|;
      MapKeys(Items(), key);
      assert Items() == path.Pre() + path.Post();
      assert Items()[..rank] == path.Pre() && Items()[rank..] == path.Post();
      if found {
        data := path.node.items[path.slot].data;
        path.SlotItem();
        assert Items()[rank] == path.Post()[0];
        TreeSorted(root, leafData);
        MapAt(Items(), rank);
        AroundSlot(Items(), rank, key);
      } else {
        AbsentBetween(path.Pre(), path.Post(), key);
      }
      RankIs(Items(), rank, key);
    }

    /** btrfs_insert_empty_items and the writes that follow: insert a batch of items
        that belongs between two neighbours of the tree. */
    method InsertItems(batch: seq<Item>) returns (ret: int)
      requires Valid() && batch != [] && Space(batch) <= leafData && Sorted(batch)
      requires forall i :: 0 <= i < |Items()| && Less(batch[0].key, Items()[i].key)
                   ==> Less(batch[|batch| - 1].key, Items()[i].key)
      modifies this`root
      ensures Valid() && ret in {0, -EEXIST, -EOVERFLOW}
      ensures ret == 0 <==> batch[0].key !in old(Contents())
      ensures ret == 0 ==> Contents() == old(Contents()) + MapOf(batch)
      ensures ret != 0 ==> Items() == old(Items())
      ensures ret == -EOVERFLOW
              <==> Overflows(LeafFor(old(root), batch[0].key), batch[0].key, Space(batch) - ITEM_HEADER, leafData)
      ensures ret == -EOVERFLOW ==> Space(batch) + |old(Contents())[batch[0].key]| > leafData
    {
      hide MapOf, Plug, Whole, Flatten, TreeOK, PathOK, CtxOK, Prefix, Suffix, Overflows, LeafFor;
      TreeIsPath(root, leafData);
      var path := new Path(leafData, root);
      ghost var items := Items();
      assert Sorted(items) by { TreeSorted(root, leafData); }
      hide Sorted;
      SpaceAtLeast(batch);
      ret := path.SearchSlot(batch[0].key, Space(batch), false);
      MapKeys(items, batch[0].key);
      PrefixSuffix(path.above, path.node, path.slot);
      ghost var pre, post := path.Pre(), path.Post();
      if ret == 1 {
        AbsentBetween(pre, post, batch[0].key);
        SortedBatch(pre, batch, post);
        path.InsertItems(batch);
        MapInsert(pre, batch, post);
        ret := 0;
      } else if ret == 0 {
        path.SlotItem();
        assert items[|pre|] == post[0];
        ret := -EEXIST;
      } else {
        TooBigData(items, batch[0].key, Space(batch) - ITEM_HEADER, leafData);
      }
      PathIsTree(path.above, path.node, path.level, leafData);
      root := path.Release();
    }

    /** btrfs_insert_item */
    method Insert(key: Key, data: seq<Byte>) returns (ret: int)
      requires Valid() && ITEM_HEADER + |data| <= leafData
      modifies this`root
      ensures Valid() && ret in {0, -EEXIST, -EOVERFLOW}
      ensures ret == 0 <==> key !in old(Contents())
      ensures ret == 0 ==> Contents() == old(Contents())[key := data]
      ensures ret != 0 ==> Contents() == old(Contents())
      ensures ret == -EOVERFLOW <==> Overflows(LeafFor(old(root), key), key, |data|, leafData)
      ensures ret == -EOVERFLOW ==> ITEM_HEADER + |data| + |old(Contents())[key]| > leafData
    {
      var batch := [Item(key, data)];
      assert batch[1..] == [] && batch[..0] == [];
      assert MapOf(batch) == map[key := data];
      SpaceOfOne(batch[0]);
      ret := InsertItems(batch);
    }

    /** A search for deletion followed by btrfs_del_items of nr items. */
    method DeleteItems(key: Key, nr: nat)
      returns (ret: int, ghost before: seq<Item>, ghost gone: seq<Item>, ghost after: seq<Item>)
      requires Valid() && nr >= 1
      modifies this`root
      ensures Valid() && ret in {0, 1}
      ensures ret == 0 <==> key in old(Contents())
      ensures gone == FirstOf(From(LeafFor(old(root), key), key), nr)
      ensures ret == 0 <==> gone != [] && gone[0].key == key
      ensures ret == 1 ==> gone == []
      ensures old(Items()) == before + gone + after && Items() == before + after
    {
      hide TreeOK, PathOK, Sorted, Plug, Prefix, Suffix, Whole, Flatten, MapOf, From, LeafFor, CtxOK, Below, Above;
      TreeIsPath(root, leafData);
      var path := new Path(leafData, root);
      ghost var items := Items();
      ret := path.SearchSlot(key, -1, false);
      MapKeys(items, key);
      PrefixSuffix(path.above, path.node, path.slot);
      ghost var pre, post := path.Pre(), path.Post();
      before, gone, after := pre, [], post;
      if ret == 1 {
        AbsentBetween(pre, post, key);
        NoRunHere(path.above, path.node.items, path.slot, key);
        assert items == pre + gone + post;
      } else {
        var count := if nr <= |path.node.items| - path.slot then nr else |path.node.items| - path.slot;
        path.SlotItem();
        assert items[|pre|] == post[0];
        gone, after := post[..count], post[count..];
        RunHere(path.above, path.node.items, path.slot, key, nr);
        assert items == pre + gone + after;
        path.DelItems(count);
      }
      PathIsTree(path.above, path.node, path.level, leafData);
      root := path.Release();
    }

    /** Deletion of one key. */
    method Delete(key: Key) returns (ret: int)
      requires Valid()
      modifies this`root
      ensures Valid() && ret in {0, 1}
      ensures ret == 0 <==> key in old(Contents())
      ensures Contents() == old(Contents()) - {key}
    {
      hide MapOf, Sorted, Flatten;
      ghost var items := Items();
      assert Sorted(items);
      ghost var before, gone, after;
      ret, before, gone, after := DeleteItems(key, 1);
      MapRemove(before, gone, after);
      OneKey(gone);
    }
  }

  /** The first n of these items, or all of them. */
  function FirstOf(items: seq<Item>, n: nat): seq<Item> {
    if n <= |items| then items[..n] else items
  }

  /** What the path sees from the slot on begins with the items of its leaf from the key on. */
  lemma RunHere(above: seq<Frame>, items: seq<Item>, slot: nat, key: Key, nr: nat)
    requires Sorted(Whole(above, Leaf(items))) && slot < |items| && items[slot].key == key
    ensures var count := if nr <= |items| - slot then nr else |items| - slot;
            var post := Suffix(above, Leaf(items), slot);
            |post| >= count && post[..count] == FirstOf(From(items, key), nr)
  {
    SortedMiddle(Before(above), items, After(above));
    forall i | 0 <= i < slot ensures items[i].key != key {
      TotalOrder(items[i].key, items[slot].key, key);
    }
    FromIs(items, slot, key);
  }

  lemma NoRunHere(above: seq<Frame>, items: seq<Item>, slot: nat, key: Key)
    requires slot <= |items|
    requires Below(Prefix(above, Leaf(items), slot), key) && Above(key, Suffix(above, Leaf(items), slot))
    ensures From(items, key) == []
  {
    forall i | 0 <= i < |items| ensures items[i].key != key {
      NotHere(above, items, slot, key, i);
    }
    FromIs(items, |items|, key);
  }

  /** -EOVERFLOW does come instead of -EEXIST: in a tree of one item that fills its leaf,
      for one more byte under the same key. */
  lemma ExistingKeyOverflows(key: Key, data: seq<Byte>, leafData: nat)
    requires MIN_LEAF_DATA <= leafData && ITEM_HEADER + |data| == leafData
    ensures var root := Leaf([Item(key, data)]);
            TreeOK(root, leafData) && key in MapOf(Flatten(root)) && Overflows(LeafFor(root, key), key, 1, leafData)
  {
    var items := [Item(key, data)];
    SpaceOfOne(items[0]);
    assert items[0].key == key && items[1..] == [];
    MapKeys(items, key);
  }

  lemma SpaceOfOne(it: Item)
    ensures Space([it]) == ITEM_HEADER + |it.data|
  {
    assert [it][1..] == [];
  }

  lemma TreeSorted(root: Block, leafData: nat)
    requires TreeOK(root, leafData)
    ensures Sorted(Flatten(root))
  {
  }

  lemma TooBigData(items: seq<Item>, k: Key, more: int, leafData: nat)
    requires Sorted(items) && TooBig(items, k, more, leafData)
    ensures Present(items, k) && k in MapOf(items) && more + ITEM_HEADER + |MapOf(items)[k]| > leafData
  {
    var i :| 0 <= i < |items| && items[i].key == k && more + ItemSpace(items[i]) > leafData;
    MapAt(items, i);
  }

  lemma OneKey(items: seq<Item>)
    requires |items| <= 1
    ensures MapOf(items).Keys == if items == [] then {} else {items[0].key}
  {
    if items != [] {
      assert items[..0] == [];
    }
  }

  lemma AroundSlot(items: seq<Item>, rank: nat, key: Key)
    requires Sorted(items) && rank < |items| && items[rank].key == key
    ensures Below(items[..rank], key) && Above(key, items[rank + 1..])
  {
  }

  /** What lies before and after a place, in terms of the fields of the keys. */
  lemma RankIs(items: seq<Item>, rank: nat, key: Key)
    requires rank <= |items| && Below(items[..rank], key)
    requires Above(key, items[rank..])
             || (rank < |items| && items[rank].key == key && Above(key, items[rank + 1..]))
    ensures forall i :: 0 <= i < rank
                ==> var k := items[i].key;
                    || k.objectid < key.objectid || (k.objectid == key.objectid && k.kind < key.kind)
                    || (k.objectid == key.objectid && k.kind == key.kind && k.offset < key.offset)
    ensures forall i :: rank <= i < |items|
                ==> var k := items[i].key;
                    || k == key || key.objectid < k.objectid || (key.objectid == k.objectid && key.kind < k.kind)
                    || (key.objectid == k.objectid && key.kind == k.kind && key.offset < k.offset)
  {
    hide Less, Compare;
    forall i | 0 <= i < rank
      ensures var k := items[i].key;
              || k.objectid < key.objectid || (k.objectid == key.objectid && k.kind < key.kind)
              || (k.objectid == key.objectid && k.kind == key.kind && k.offset < key.offset)
    {
      assert items[..rank][i] == items[i];
      OrderIs(items[i].key, key);
    }
    forall i | rank <= i < |items|
      ensures var k := items[i].key;
              || k == key || key.objectid < k.objectid || (key.objectid == k.objectid && key.kind < k.kind)
              || (key.objectid == k.objectid && key.kind == k.kind && key.offset < k.offset)
    {
      if Above(key, items[rank..]) {
        assert items[rank..][i - rank] == items[i];
      } else if i > rank {
        assert items[rank + 1..][i - rank - 1] == items[i];
      }
      OrderIs(key, items[i].key);
    }
  }

  lemma AbsentBetween(pre: seq<Item>, post: seq<Item>, key: Key)
    requires Below(pre, key) && Above(key, post)
    ensures !Present(pre + post, key)
  {
    forall i | 0 <= i < |pre + post| ensures (pre + post)[i].key != key {
      TotalOrder(key, (pre + post)[i].key, key);
    }
  }

  lemma SortedBatch(pre: seq<Item>, batch: seq<Item>, post: seq<Item>)
    requires Sorted(pre + post) && batch != [] && Sorted(batch)
    requires Below(pre, batch[0].key) && Above(batch[0].key, post)
    requires forall i :: 0 <= i < |pre + post| && Less(batch[0].key, (pre + post)[i].key)
                 ==> Less(batch[|batch| - 1].key, (pre + post)[i].key)
    ensures Sorted(pre + batch + post)
  {
    forall j | 0 <= j < |post| ensures Less(batch[|batch| - 1].key, post[j].key) {
      assert (pre + post)[|pre| + j] == post[j];
    }
    SortedInsert(pre, batch, post);
  }

  lemma SpaceAtLeast(batch: seq<Item>)
    requires batch != []
    ensures Space(batch) >= ITEM_HEADER
  {
  }
}
