/** A search path together with the bytes of the leaves it edits: the same call changes
    both, and afterwards the bytes still hold the items of the path's leaves. */
module LeafLayers {
  import opened Keys
  import opened Tree
  import opened Context
  import opened ParentEdits
  import opened Siblings
  import opened LeafBuffer
  import opened SearchPath
  import opened LeafEdits
  import opened LeafFormat
  import LeafOps
  import Rows

  /** The buffer holds the leaf of the path. */
  ghost predicate Backs(buf: ExtentBuffer, path: Path)
    reads buf, buf.bytes, path
  {
    buf.Valid() && buf.bytes.Length == path.leafData && path.node == Leaf(buf.items)
  }

  /** The buffer holds this leaf of the row under the parent. */
  ghost predicate Holds(buf: ExtentBuffer, path: Path, i: nat)
    reads buf, buf.bytes, path
  {
    && buf.Valid() && buf.bytes.Length == path.leafData && path.above != []
    && i < |path.LeafRow().blocks| && path.LeafRow().blocks[i] == buf.items
  }

  /** __push_leaf_right on the path and on the bytes of both leaves. */
  method PushRight(path: Path, left: ExtentBuffer, right: ExtentBuffer, dataSize: nat, minSlot: nat) returns (ret: int)
    requires path.OnLeaf() && path.above != [] && path.above[0].right != [] && path.slot < BlockLen(path.node)
    requires left != right && left.bytes != right.bytes
    requires Backs(left, path) && Holds(right, path, |path.above[0].left| + 1)
    modifies path`above, path`node, path`slot
    modifies left`nritems, left`items, left.bytes, right`nritems, right`items, right.bytes
    ensures path.OnLeaf() && path.above != [] && Rows.RowOK(old(path.LeafRow()))
    ensures path.LeafRow() == LeafOps.MovedRight(old(path.LeafRow()), dataSize, minSlot, path.leafData)
    ensures Holds(left, path, old(path.LeafRow().at)) && Holds(right, path, old(path.LeafRow().at) + 1)
    ensures path.Pre() == old(path.Pre()) && path.Post() == old(path.Post())
  {
    hide Path.OnLeaf, Path.LeafRow, ExtentBuffer.Valid, LeafOps.RightPush, Space, Path.LastMoves, Path.MovedOn,
      Path.Pre, Path.Post;
    RightLeaf(path, left, right);
    var free := right.FreeSpace();
    var push := left.ScanRight(right, path.slot, dataSize, minSlot);
    ret := path.MoveItemsRight(dataSize, free, minSlot);
  }

  /** __push_leaf_left */
  method PushLeft(path: Path, left: ExtentBuffer, right: ExtentBuffer, dataSize: nat, maxSlot: nat) returns (ret: int)
    requires path.OnLeaf() && path.above != [] && path.above[0].left != []
    requires left != right && left.bytes != right.bytes
    requires Backs(right, path) && Holds(left, path, |path.above[0].left| - 1)
    modifies path`above, path`node, path`slot
    modifies left`nritems, left`items, left.bytes, right`nritems, right`items, right.bytes
    ensures path.OnLeaf() && path.above != [] && Rows.RowOK(old(path.LeafRow()))
    ensures path.LeafRow() == LeafOps.MovedLeft(old(path.LeafRow()), dataSize, maxSlot, path.leafData)
    ensures Holds(left, path, old(path.LeafRow().at) - 1) && Holds(right, path, old(path.LeafRow().at))
    ensures path.Pre() == old(path.Pre()) && path.Post() == old(path.Post())
  {
    hide Path.OnLeaf, Path.LeafRow, ExtentBuffer.Valid, LeafOps.LeftPush, Space, Path.FirstMoves, Path.MovedOn,
      Path.Pre, Path.Post;
    LeftLeaf(path, left, right);
    var free := left.FreeSpace();
    var push := right.ScanLeft(left, path.slot, dataSize, maxSlot);
    ret := path.MoveItemsLeft(dataSize, free, maxSlot);
  }

  lemma RightLeaf(path: Path, left: ExtentBuffer, right: ExtentBuffer)
    requires path.OnLeaf() && path.above != [] && path.above[0].right != []
    requires Backs(left, path) && Holds(right, path, |path.above[0].left| + 1)
    ensures path.LeafRow().at == |path.above[0].left|
    ensures var row := path.LeafRow();
            Rows.RowOK(row) && row.slot == path.slot && row.blocks[row.at] == left.items
              && row.blocks[row.at + 1] == right.items
    ensures path.above[0].right[0].child == Leaf(right.items)
    ensures left.nritems == |left.items| > 0 && path.node == Leaf(left.items)
  {
    hide PathOK, Space, LeavesOf, Prefix, Suffix, LeafOps.LeafPairPrefix, LeafOps.LeafPairSuffix, PairOK;
    path.RowHere();
    LeafOps.LeafPairFromLeft(path.above, path.node.items, path.slot, path.leafData);
  }

  lemma LeftLeaf(path: Path, left: ExtentBuffer, right: ExtentBuffer)
    requires path.OnLeaf() && path.above != [] && path.above[0].left != []
    requires Backs(right, path) && Holds(left, path, |path.above[0].left| - 1)
    ensures path.LeafRow().at == |path.above[0].left|
    ensures var row := path.LeafRow();
            Rows.RowOK(row) && row.slot == path.slot && row.blocks[row.at] == right.items
              && row.blocks[row.at - 1] == left.items
    ensures LastOf(path.above[0].left).child == Leaf(left.items)
    ensures right.nritems == |right.items| > 0 && left.nritems == |left.items| > 0 && path.node == Leaf(right.items)
  {
    hide PathOK, Space, LeavesOf, Prefix, Suffix, LeafOps.LeafPairPrefix, LeafOps.LeafPairSuffix, PairOK;
    path.RowHere();
    LeafOps.LeafPairFromRight(path.above, path.node.items, path.slot, path.leafData);
  }

  /** copy_for_split */
  method Split(path: Path, left: ExtentBuffer, right: ExtentBuffer, mid: nat)
    requires path.OnLeaf() && path.above != [] && FrameLen(path.above[0]) < path.Cap() && 0 < mid < BlockLen(path.node)
    requires left != right && left.bytes != right.bytes && right.bytes.Length == left.bytes.Length && Backs(left, path)
    modifies path`above, path`node, path`slot
    modifies left`nritems, left`items, left.bytes, right`nritems, right`items, right.bytes
    ensures path.OnLeaf() && left.Valid() && right.Valid()
    ensures if old(path.slot) < mid then Backs(left, path) else Backs(right, path)
    ensures Holds(left, path, |old(path.above)[0].left|) && Holds(right, path, |old(path.above)[0].left| + 1)
    ensures path.Pre() == old(path.Pre()) && path.Post() == old(path.Post())
  {
    hide Path.Valid, LeavesOf, ExtentBuffer.Valid, Prefix, Suffix;
    left.CountsItems();
    path.RowHere();
    path.CopyForSplit(mid);
    left.CopyForSplit(right, mid);
  }

  /** setup_items_for_insert for one item, and the write of its data. */
  method Insert(path: Path, leaf: ExtentBuffer, key: Key, data: seq<Byte>)
    requires path.Ready(key) && Backs(leaf, path) && KeyFits(key)
    requires ITEM_HEADER + |data| <= LeafOps.Free(leaf.items, path.leafData)
    requires Sorted(path.Pre() + [Item(key, data)] + path.Post())
    modifies path`above, path`node
    modifies leaf`nritems, leaf`items, leaf.bytes
    ensures path.Valid() && Backs(leaf, path)
    ensures Whole(path.above, path.node) == old(path.Pre() + [Item(key, data)] + path.Post())
  {
    hide Path.Valid, Sorted, CtxOK, ExtentBuffer.Valid, PathOK;
    assert Space([Item(key, data)]) == ITEM_HEADER + |data| by { assert [Item(key, data)][1..] == []; }
    leaf.CountsItems();
    path.InsertItems([Item(key, data)]);
    leaf.InsertItem(path.slot, key, data);
  }

  /** btrfs_truncate_item: the item under the slot shrinks; when the first item of the leaf
      loses its front, its new key goes into the separators above. */
  method Truncate(path: Path, leaf: ExtentBuffer, newSize: nat, fromEnd: bool)
    requires path.OnLeaf() && path.slot < BlockLen(path.node) && Backs(leaf, path)
    requires CanCut(path.node.items[path.slot], newSize, fromEnd)
    requires Sorted(path.Pre() + [Truncated(path.node.items[path.slot], newSize, fromEnd)] + path.Post()[1..])
    modifies path`above, path`node, path`slot
    modifies leaf`items, leaf.bytes
    ensures path.OnLeaf() && Backs(leaf, path) && path.slot == old(path.slot)
    ensures path.Pre() == old(path.Pre())
    ensures path.Post() == old([Truncated(path.node.items[path.slot], newSize, fromEnd)] + path.Post()[1..])
  {
    hide Path.Valid, Sorted, Truncated, CtxOK, ExtentBuffer.Valid;
    leaf.CountsItems();
    var it := path.node.items[path.slot];
    if |it.data| == newSize {
      path.SlotItem();
      assert Truncated(it, newSize, fromEnd) == it by { Uncut(it, fromEnd); }
      assert path.Post() == [it] + path.Post()[1..];
      return;
    }
    leaf.TruncateItem(path.slot, newSize, fromEnd);
    path.ChangeItem(Truncated(it, newSize, fromEnd));
  }

  lemma Uncut(it: Item, fromEnd: bool)
    ensures Truncated(it, |it.data|, fromEnd) == it
  {
  }

  /** What btrfs_truncate_item asks of its callers. */
  predicate CanCut(it: Item, newSize: nat, fromEnd: bool) {
    && newSize <= |it.data|
    && (it.key.kind == EXTENT_DATA_KEY ==> INLINE_HEADER <= |it.data|)
    && (IsInline(it) && !fromEnd && newSize < |it.data| ==> INLINE_HEADER <= newSize)
  }
}
