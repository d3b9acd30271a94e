/** A search path through a tree: the blocks it goes through are edited in place. */
module SearchPath {
  import opened Keys
  import opened Tree
  import opened Context
  import opened NodeOps
  import opened LeafOps
  import opened Siblings
  import opened Balance
  import opened ParentEdits
  import opened Rows

  /** path->nodes[level], path->slots[level] and, in above, the levels over it. */
  class Path {
    const leafData: nat
    var above: seq<Frame>
    var node: Block
    var level: nat
    var slot: nat

    /** A path that has only the root so far. */
    constructor (leafData: nat, root: Block)
      requires MIN_LEAF_DATA <= leafData && PathOK([], root, Height(root), leafData)
      ensures Valid() && above == [] && node == root && this.leafData == leafData && level == Height(root)
    {
      this.leafData := leafData;
      above, node, level, slot := [], root, Height(root), 0;
    }

    ghost predicate Valid()
      reads this
    {
      && MIN_LEAF_DATA <= leafData
      && slot <= BlockLen(node)
      && PathOK(above, node, level, leafData)
    }

    function Cap(): nat {
      Capacity(leafData)
    }

    ghost function Pre(): seq<Item>
      reads this
      requires slot <= BlockLen(node)
    {
      Prefix(above, node, slot)
    }

    ghost function Post(): seq<Item>
      reads this
      requires slot <= BlockLen(node)
    {
      Suffix(above, node, slot)
    }

    /** The whole tree. */
    ghost function Root(): Block
      reads this
    {
      Plug(above, node)
    }

    /** The path stands on a pointer of a node. */
    ghost predicate OnPointer()
      reads this
    {
      Valid() && level > 0 && node.Node? && slot < |node.ptrs|
    }

    /** The tree with the blocks of the path back in their places. */
    method Release() returns (root: Block)
      ensures root == Root()
    {
      root := node;
      var i := 0;
      while i < |above|
        invariant 0 <= i <= |above|
        invariant Plug(above[i..], root) == Root()
      {
        assert above[i..][1..] == above[i + 1..];
        root := Node(above[i].left + [Ptr(above[i].key, root)] + above[i].right);
        i := i + 1;
      }
    }

    // ----- nodes -----

    /** The path may have stepped to a sibling block, nothing else moved. */
    twostate predicate SamePlace()
      requires old(slot <= BlockLen(node)) && slot <= BlockLen(node)
      reads this
    {
      && |above| == |old(above)|
      && (above != [] ==> above[1..] == old(above[1..]) && FrameLen(above[0]) == FrameLen(old(above)[0]))
      && Pre() == old(Pre()) && Post() == old(Post())
    }

    /** insert_new_root: put a one-pointer node over the current root. */
    method InsertNewRoot()
      requires Valid() && above == [] && BlockLen(node) > 0
      modifies this`above
      ensures Valid() && above == [Frame([], Low(node), [])]
      ensures Pre() == old(Pre()) && Post() == old(Post())
    {
      above := [Frame([], Low(node), [])];
      assert above[1..] == [];
      assert Whole(above, node) == old(Whole(above, node));
      assert FrameLen(above[0]) == 1;
      assert PtrsOK([], level, leafData);
      assert BlockOK(node, level, leafData);
      assert CtxOK(above[1..], level + 1, FrameLow(above[0]), leafData);
      assert CtxOK(above, level, Low(node), leafData);
    }

    /** The pointers of the node above. */
    function Parent(): seq<Ptr>
      reads this
      requires above != []
    {
      above[0].left + [Ptr(above[0].key, node)] + above[0].right
    }

    /** The parent has been edited and holds a pair of sibling nodes at j: stand on pointer
        g of their concatenation, in whichever of the two holds it. */
    method PlacePair(ps: seq<Ptr>, j: nat, a: seq<Ptr>, b: seq<Ptr>, g: nat, ghost l: seq<Ptr>, ghost r: seq<Ptr>)
      requires above != [] && MIN_LEAF_DATA <= leafData && level > 0
      requires ps == Pair(l, Node(a), Node(b), r) && j == |l|
      requires PairOK(l, Node(a), Node(b), r, above[1..], level, leafData) && g < |a| + |b|
      modifies this`above, this`node, this`slot
      ensures OnPointer() && |above| == |old(above)| && above[1..] == old(above[1..])
      ensures FrameLen(above[0]) == |l| + 2 + |r|
      ensures Pre() == PairPrefix(l, a + b, above[1..], g) && Post() == PairSuffix(a + b, r, above[1..], g)
      ensures node.ptrs[slot] == (a + b)[g]
      ensures if g < |a| then node == Node(a) && |above[0].left| == |l| && slot == g
              else node == Node(b) && |above[0].left| == |l| + 1 && slot == g - |a|
      ensures Parent() == ps
    {
      hide PairOK, PathOK, CtxOK, Sorted, PairPrefix, PairSuffix, Prefix, Suffix, Pair, Low;
      ghost var tail := above[1..];
      PairFull(l, Node(a), Node(b), r, tail, level, leafData);
      PairParents(l, Node(a), Node(b), r);
      PairFrames(l, Node(a), Node(b), r, tail);
      if |a| > g {
        above := FrameAt(ps, j, above[1..]);
        node, slot := Node(a), g;
        LeftView(l, Node(a), Node(b), r, tail, level, leafData);
        PositionOnLeft(l, a, b, r, tail, g);
      } else {
        above := FrameAt(ps, j + 1, above[1..]);
        node, slot := Node(b), g - |a|;
        RightView(l, Node(a), Node(b), r, tail, level, leafData);
        PositionOnRight(l, a, b, r, tail, g);
      }
      assert above[1..] == tail;
    }

    /** The left sibling node has room and this one has pointers to give away. */
    ghost predicate LeftNodeTakes()
      reads this
    {
      && above != [] && above[0].left != []
      && |NodePtrs(LastOf(above[0].left).child)| < Cap() - 1 && BlockLen(node) > 8
    }

    ghost predicate RightNodeTakes()
      reads this
    {
      && above != [] && above[0].right != []
      && |NodePtrs(above[0].right[0].child)| < Cap() - 1 && BlockLen(node) >= 4
    }

    /** The path moved over to a sibling, or its block got smaller. */
    twostate predicate MovedOn()
      reads this
    {
      && above != [] && old(above) != []
      && (|above[0].left| != |old(above)[0].left| || BlockLen(node) < old(BlockLen(node)))
    }

    /** First half of push_nodes_for_insert. */
    method PushNodesLeft() returns (ret: int)
      requires OnPointer() && above != [] && above[0].left != []
      modifies this`above, this`node, this`slot
      ensures above != []
      ensures RowOK(old(NodeRow())) && old(NodeRow()).at > 0
      ensures |old(NodeRow()).blocks[old(NodeRow()).at - 1]| <= Cap()
      ensures var row := old(NodeRow());
              var room, n := Cap() - |row.blocks[row.at - 1]|, |row.blocks[row.at]|;
              ret == 0 ==> n > 8 && NodeRow() == GiveLeft(row, if room < n - 8 then room else n - 8)
      ensures OnPointer() && ret in {0, 1}
      ensures (ret == 0 <==> old(LeftNodeTakes())) && (ret == 0 ==> MovedOn())
      ensures ret == 1 ==> above == old(above) && node == old(node) && slot == old(slot)
      ensures SamePlace() && node.ptrs[slot] == old(node.ptrs[slot])
    {
      hide PathOK, Prefix, Suffix, BadNodeOrder, NodesOf, GiveLeft;
      NodeHere();
      LeftNode();
      var left, mid := LastOf(above[0].left).child.ptrs, node.ptrs;
      if |left| >= Cap() - 1 {
        return 1;
      }
      var wret, left', mid' := PushNodeLeft(left, mid, false, Cap());
      if wret != 0 {
        return 1;
      }
      GiveNodesLeft(left', mid', |left'| - |left|);
      return 0;
    }

    lemma LeftNode()
      requires OnPointer() && above != [] && above[0].left != []
      ensures LastOf(above[0].left).child.Node? && 0 < |LastOf(above[0].left).child.ptrs| <= Cap()
      ensures |node.ptrs| <= Cap()
      ensures !BadNodeOrder(LastOf(above[0].left).child.ptrs, node.ptrs)
    {
      hide PairOK, PathOK, PairPrefix, PairSuffix, Prefix, Suffix, BadNodeOrder;
      NodePairFromRight(above, node.ptrs, slot, level, leafData);
    }

    /** The pointers of the left sibling and of this node, shared anew; the left one gets
        some, and this one keeps some. */
    method GiveNodesLeft(left': seq<Ptr>, mid': seq<Ptr>, ghost k: nat)
      requires OnPointer() && above != [] && above[0].left != [] && LastOf(above[0].left).child.Node?
      requires left' + mid' == LastOf(above[0].left).child.ptrs + node.ptrs && mid' != []
      requires |left'| == |LastOf(above[0].left).child.ptrs| + k && |left'| <= Cap() && |mid'| <= Cap()
      modifies this`above, this`node, this`slot
      ensures OnPointer() && above != [] && SamePlace() && node.ptrs[slot] == old(node.ptrs[slot])
      ensures RowOK(old(NodeRow())) && old(NodeRow()).at > 0
      ensures k <= |old(NodeRow()).blocks[old(NodeRow()).at]| && NodeRow() == GiveLeft(old(NodeRow()), k)
      ensures k > 0 ==> MovedOn()
    {
      hide PairOK, PathOK, Prefix, Suffix, NodesOf, PushEdit, Sorted, CtxOK, GiveLeft, SamePlace;
      NodeHere();
      LeftNode();
      ghost var row, left, mid := NodeRow(), LastOf(above[0].left).child.ptrs, node.ptrs;
      ghost var blocks := row.blocks[row.at - 1 := left'][row.at := mid'];
      assert k <= |mid| && GiveLeft(row, k)
        == if |left| + slot < |left'| then Row(blocks, row.at - 1, |left| + slot)
           else Row(blocks, row.at, |left| + slot - |left'|) by {
        SplitsAt(left, mid, left', mid');
        SharedLeft(row, left', mid', k);
      }
      NodesAfterPush(Parent(), |above[0].left| - 1, left', mid');
      ShareWithLeft(left', mid');
    }

    method ShareWithLeft(left': seq<Ptr>, mid': seq<Ptr>)
      requires OnPointer() && above != [] && above[0].left != [] && LastOf(above[0].left).child.Node?
      requires left' + mid' == LastOf(above[0].left).child.ptrs + node.ptrs && left' != [] && mid' != []
      requires |left'| <= Cap() && |mid'| <= Cap()
      modifies this`above, this`node, this`slot
      ensures OnPointer() && above != [] && SamePlace() && node.ptrs[slot] == old(node.ptrs[slot])
      ensures var j, g := |old(above)[0].left| - 1, |old(LastOf(above[0].left).child.ptrs)| + old(slot);
              && j + 1 < |old(Parent())| && Parent() == PushEdit(old(Parent()), j, Node(left'), Node(mid'))
              && if g < |left'| then node == Node(left') && |above[0].left| == j && slot == g
                 else node == Node(mid') && |above[0].left| == j + 1 && slot == g - |left'|
    {
      hide PairOK, PathOK, PairPrefix, PairSuffix, Prefix, Suffix, PushEdit, Pair, Sorted, CtxOK;
      NodePairFromRight(above, node.ptrs, slot, level, leafData);
      var f := above[0];
      var l, left := InitOf(f.left), LastOf(f.left).child.ptrs;
      ParentOfRight();
      ShareNodes(|f.left| - 1, left', mid', |left| + slot, l, left, node.ptrs, f.right);
    }

    /** The two nodes from j on share their pointers anew; the path goes on to pointer g. */
    method ShareNodes(j: nat, a': seq<Ptr>, b': seq<Ptr>, g: nat, ghost l: seq<Ptr>, ghost a: seq<Ptr>,
        ghost b: seq<Ptr>, ghost r: seq<Ptr>)
      requires above != [] && MIN_LEAF_DATA <= leafData && level > 0
      requires PairOK(l, Node(a), Node(b), r, above[1..], level, leafData) && j == |l| && g < |a| + |b|
      requires Parent() == Pair(l, Node(a), Node(b), r)
      requires a' + b' == a + b && a != [] && a' != [] && b' != [] && |a'| <= Cap() && |b'| <= Cap()
      modifies this`above, this`node, this`slot
      ensures OnPointer() && |above| == |old(above)| && above[1..] == old(above[1..])
      ensures FrameLen(above[0]) == |l| + 2 + |r|
      ensures Pre() == PairPrefix(l, a + b, above[1..], g) && Post() == PairSuffix(a + b, r, above[1..], g)
      ensures node.ptrs[slot] == (a + b)[g]
      ensures if g < |a'| then node == Node(a') && |above[0].left| == |l| && slot == g
              else node == Node(b') && |above[0].left| == |l| + 1 && slot == g - |a'|
      ensures j + 1 < |old(Parent())| && Parent() == PushEdit(old(Parent()), j, Node(a'), Node(b'))
    {
      hide PairOK, PathOK, PairPrefix, PairSuffix, Prefix, Suffix, PushEdit, Pair, Sorted, CtxOK;
      NodePairSound(l, a, b, a', b', r, above[1..], level, leafData);
      SameFirst(a, b, a', b');
      PushEditIs(l, Node(a), Node(b), Node(a'), Node(b'), r);
      PairLen(l, Node(a), Node(b), r);
      var ps := PushEdit(Parent(), j, Node(a'), Node(b'));
      PlacePair(ps, j, a', b', g, l, r);
    }

    lemma PairLen(l: seq<Ptr>, a: Block, b: Block, r: seq<Ptr>)
      ensures |Pair(l, a, b, r)| == |l| + 2 + |r|
    {
    }

    /** Second half of push_nodes_for_insert. */
    method PushNodesRight() returns (ret: int)
      requires OnPointer() && above != [] && above[0].right != []
      modifies this`above, this`node, this`slot
      ensures OnPointer() && ret in {0, 1}
      ensures (ret == 0 <==> old(RightNodeTakes())) && (ret == 0 ==> MovedOn())
      ensures ret == 1 ==> above == old(above) && node == old(node) && slot == old(slot)
      ensures RowOK(old(NodeRow())) && old(NodeRow()).at + 1 < |old(NodeRow()).blocks|
      ensures |old(NodeRow()).blocks[old(NodeRow()).at + 1]| <= Cap()
      ensures var row := old(NodeRow());
              var room, n := Cap() - |row.blocks[row.at + 1]|, |row.blocks[row.at]|;
              ret == 0 ==> n >= 4 && NodeRow() == GiveRight(row, if room < n / 2 + 1 then room else n / 2 + 1)
      ensures SamePlace() && node.ptrs[slot] == old(node.ptrs[slot])
    {
      hide PathOK, Prefix, Suffix, BadNodeOrder, NodesOf, GiveRight;
      NodeHere();
      RightNode();
      var right, mid := above[0].right[0].child.ptrs, node.ptrs;
      if |right| >= Cap() - 1 {
        return 1;
      }
      var wret, right', mid' := BalanceNodeRight(right, mid, Cap());
      if wret != 0 {
        return 1;
      }
      GiveNodesRight(mid', right', |mid| - |mid'|);
      return 0;
    }

    lemma RightNode()
      requires OnPointer() && above != [] && above[0].right != []
      ensures above[0].right[0].child.Node? && 0 < |above[0].right[0].child.ptrs| <= Cap() && |node.ptrs| <= Cap()
      ensures !BadNodeOrder(node.ptrs, above[0].right[0].child.ptrs)
    {
      hide PairOK, PathOK, PairPrefix, PairSuffix, Prefix, Suffix, BadNodeOrder;
      NodePairFromLeft(above, node.ptrs, slot, level, leafData);
    }

    /** The same with the right sibling. */
    method GiveNodesRight(mid': seq<Ptr>, right': seq<Ptr>, ghost k: nat)
      requires OnPointer() && above != [] && above[0].right != [] && above[0].right[0].child.Node?
      requires mid' + right' == node.ptrs + above[0].right[0].child.ptrs && mid' != [] && |mid'| + k == |node.ptrs|
      requires |right'| <= Cap()
      modifies this`above, this`node, this`slot
      ensures OnPointer() && above != [] && SamePlace() && node.ptrs[slot] == old(node.ptrs[slot])
      ensures RowOK(old(NodeRow())) && old(NodeRow()).at + 1 < |old(NodeRow()).blocks|
      ensures k <= |old(NodeRow()).blocks[old(NodeRow()).at]| && NodeRow() == GiveRight(old(NodeRow()), k)
      ensures k > 0 ==> MovedOn()
    {
      hide PairOK, PathOK, Prefix, Suffix, NodesOf, PushEdit, Sorted, CtxOK, GiveRight, SamePlace;
      NodeHere();
      RightNode();
      ghost var row, mid, right := NodeRow(), node.ptrs, above[0].right[0].child.ptrs;
      ghost var blocks := row.blocks[row.at := mid'][row.at + 1 := right'];
      assert k <= |mid| && right' != [] && GiveRight(row, k)
        == if slot < |mid'| then Row(blocks, row.at, slot) else Row(blocks, row.at + 1, slot - |mid'|) by {
        SplitsAt(mid, right, mid', right');
        SharedRight(row, mid', right', k);
      }
      NodesAfterPush(Parent(), |above[0].left|, mid', right');
      ShareWithRight(mid', right');
    }

    method ShareWithRight(mid': seq<Ptr>, right': seq<Ptr>)
      requires OnPointer() && above != [] && above[0].right != [] && above[0].right[0].child.Node?
      requires mid' + right' == node.ptrs + above[0].right[0].child.ptrs && mid' != [] && right' != []
      requires |mid'| <= Cap() && |right'| <= Cap()
      modifies this`above, this`node, this`slot
      ensures OnPointer() && above != [] && SamePlace() && node.ptrs[slot] == old(node.ptrs[slot])
      ensures var j := |old(above)[0].left|;
              && j + 1 < |old(Parent())| && Parent() == PushEdit(old(Parent()), j, Node(mid'), Node(right'))
              && if old(slot) < |mid'| then node == Node(mid') && |above[0].left| == j && slot == old(slot)
                 else node == Node(right') && |above[0].left| == j + 1 && slot == old(slot) - |mid'|
    {
      hide PairOK, PathOK, PairPrefix, PairSuffix, Prefix, Suffix, PushEdit, Pair, Sorted, CtxOK;
      NodePairFromLeft(above, node.ptrs, slot, level, leafData);
      var f := above[0];
      ParentOfLeft();
      ShareNodes(|f.left|, mid', right', slot, f.left, node.ptrs, f.right[0].child.ptrs, f.right[1..]);
    }

    /** push_nodes_for_insert: move pointers to the left sibling, else to the right
        one; 0 when something moved, 1 when nothing did. */
    method PushNodesForInsert() returns (ret: int)
      requires OnPointer() && above != []
      modifies this`above, this`node, this`slot
      ensures above != []
      ensures NodesFit(old(NodeRow())) && NodeRow() == NodesPushed(old(NodeRow()), Cap())
      ensures var row := old(NodeRow());
              var n, left, right := |row.blocks[row.at]|,
                                    if row.at > 0 then |row.blocks[row.at - 1]| else Cap(),
                                    if row.at + 1 < |row.blocks| then |row.blocks[row.at + 1]| else Cap();
              && (ret == 0 <==> (left < Cap() - 1 && n > 8) || (right < Cap() - 1 && n >= 4))
              && (left < Cap() - 1 && n > 8 ==> NodeRow() == GiveLeft(row, Min(n - 8, Cap() - left)))
              && (!(left < Cap() - 1 && n > 8) && right < Cap() - 1 && n >= 4
                  ==> NodeRow() == GiveRight(row, Min(n / 2 + 1, Cap() - right)))
      ensures OnPointer() && ret in {0, 1} && (ret == 0 ==> MovedOn())
      ensures ret == 1 ==> above == old(above) && node == old(node) && slot == old(slot)
      ensures SamePlace() && node.ptrs[slot] == old(node.ptrs[slot])
    {
      hide PathOK, NodesOf, GiveLeft, GiveRight, Prefix, Suffix;
      NodeHere();
      NodesFitHere();
      ret := 1;
      if above[0].left != [] {
        ret := PushNodesLeft();
        if ret == 0 {
          return 0;
        }
      }
      if above[0].right != [] {
        ret := PushNodesRight();
      }
    }

    /** No node of the row is too big. */
    ghost predicate NodesFit(row: Row<Ptr>) {
      RowOK(row) && forall i :: 0 <= i < |row.blocks| ==> |row.blocks[i]| <= Cap()
    }

    lemma NodesFitHere()
      requires OnPointer() && above != []
      ensures NodesFit(NodeRow())
    {
      hide Sorted, CtxOK, NodesOf, PtrsOK;
      NodeHere();
      FrameSound(above, level, Low(node), leafData);
      var f := above[0];
      NodesConcat(f.left + [Ptr(f.key, node)], f.right);
      NodesConcat(f.left, [Ptr(f.key, node)]);
      PtrsFit(f.left, level, leafData);
      PtrsFit(f.right, level, leafData);
      OneNodeOf(Ptr(f.key, node));
    }

    /** split_node: make room in a nearly full node.  The path keeps its position,
        the node it ends on has room for a few more pointers.  Only when the siblings
        cannot make that room is a node added. */
    method SplitNode()
      requires OnPointer() && |node.ptrs| >= Cap() - 3
      requires above == [] || FrameLen(above[0]) < Cap()
      modifies this`above, this`node, this`slot
      ensures OnPointer() && |node.ptrs| < Cap() - 3 && above != []
      ensures Pre() == old(Pre()) && Post() == old(Post()) && node.ptrs[slot] == old(node.ptrs[slot])
      ensures old(above) == []
              ==> |above| == 1 && FrameLen(above[0]) == 2
                  && NodeRow() == CutAt(Row([old(node.ptrs)], 0, old(slot)), (old(|node.ptrs|) + 1) / 2)
      ensures old(above) != [] ==> |above| == |old(above)| && above[1..] == old(above[1..])
      ensures old(above) != []
              ==> && NodesFit(old(NodeRow()))
                  && var row := NodesPushed(old(NodeRow()), Cap());
                     var n := |row.blocks[row.at]|;
                     if row != old(NodeRow()) && n < Cap() - 3
                     then NodeRow() == row && FrameLen(above[0]) == FrameLen(old(above)[0])
                     else NodeRow() == CutAt(row, (n + 1) / 2) && FrameLen(above[0]) == FrameLen(old(above)[0]) + 1
    {
      hide PathOK, NodesOf, NodesPushed, CutAt, Prefix, Suffix;
      if above == [] {
        InsertNewRoot();
        NodeHere();
        assert NodeRow().blocks == [node.ptrs];
        CutNode();
      } else {
        SplitBelow();
      }
    }

    /** split_node below the root */
    method SplitBelow()
      requires OnPointer() && |node.ptrs| >= Cap() - 3 && above != [] && FrameLen(above[0]) < Cap()
      modifies this`above, this`node, this`slot
      ensures OnPointer() && |node.ptrs| < Cap() - 3
      ensures Pre() == old(Pre()) && Post() == old(Post()) && node.ptrs[slot] == old(node.ptrs[slot])
      ensures |above| == |old(above)| && above[1..] == old(above[1..])
      ensures NodesFit(old(NodeRow()))
      ensures var row := NodesPushed(old(NodeRow()), Cap());
              var n := |row.blocks[row.at]|;
              if row != old(NodeRow()) && n < Cap() - 3
              then NodeRow() == row && FrameLen(above[0]) == FrameLen(old(above)[0])
              else NodeRow() == CutAt(row, (n + 1) / 2) && FrameLen(above[0]) == FrameLen(old(above)[0]) + 1
    {
      hide PathOK, NodesOf, NodesPushed, CutAt, Prefix, Suffix, GiveLeft, GiveRight, NodesFit;
      NodeHere();
      var ret := PushNodesForInsert();
      NodeHere();
      if ret == 0 && |node.ptrs| < Cap() - 3 {
        return;
      }
      CutNode();
    }

    /** The second part of split_node: the upper half moves to a new right sibling. */
    method CutNode()
      requires OnPointer() && |node.ptrs| >= Cap() - 3 && above != [] && FrameLen(above[0]) < Cap()
      modifies this`above, this`node, this`slot
      ensures OnPointer() && |node.ptrs| < Cap() - 3
      ensures Pre() == old(Pre()) && Post() == old(Post()) && node.ptrs[slot] == old(node.ptrs[slot])
      ensures |above| == |old(above)| && above[1..] == old(above[1..])
      ensures FrameLen(above[0]) == FrameLen(old(above)[0]) + 1
      ensures RowOK(old(NodeRow())) && |old(NodeRow()).blocks[old(NodeRow()).at]| == old(|node.ptrs|)
      ensures NodeRow() == CutAt(old(NodeRow()), (old(|node.ptrs|) + 1) / 2)
    {
      hide PathOK, Prefix, Suffix, Sorted, CtxOK, NodesOf, SplitEdit, CutAt;
      NodeHere();
      NodesFitHere();
      var mid := (|node.ptrs| + 1) / 2;
      CutAround(NodeRow(), mid);
      NodesAfterSplit(Parent(), |above[0].left|, node.ptrs[..mid], node.ptrs[mid..]);
      CutInTwo(mid);
    }

    method CutInTwo(mid: nat)
      requires OnPointer() && above != [] && FrameLen(above[0]) < Cap() && 0 < mid < |node.ptrs|
      modifies this`above, this`node, this`slot
      ensures OnPointer() && |above| == |old(above)| && above[1..] == old(above[1..])
      ensures Pre() == old(Pre()) && Post() == old(Post()) && node.ptrs[slot] == old(node.ptrs[slot])
      ensures FrameLen(above[0]) == FrameLen(old(above)[0]) + 1
      ensures var j, c := |old(above)[0].left|, old(node.ptrs);
              && j < |old(Parent())| && Parent() == SplitEdit(old(Parent()), j, Node(c[..mid]), Node(c[mid..]))
              && if old(slot) < mid then node == Node(c[..mid]) && |above[0].left| == j && slot == old(slot)
                 else node == Node(c[mid..]) && |above[0].left| == j + 1 && slot == old(slot) - mid
    {
      hide PairOK, PairPrefix, PairSuffix, Prefix, Suffix, Sorted, CtxOK, SplitEdit, Pair;
      var c := node.ptrs;
      var f := above[0];
      SplitSound(above, c, mid, level, leafData);
      SplitPosition(above, c, mid, slot);
      assert c[..mid] + c[mid..] == c;
      KeyIsLow(above, node, level, leafData);
      SplitEditIs(f.left, node, Node(c[..mid]), Node(c[mid..]), f.right);
      var ps := SplitEdit(Parent(), |f.left|, Node(c[..mid]), Node(c[mid..]));
      PlacePair(ps, |f.left|, c[..mid], c[mid..], slot, f.left, f.right);
    }

    /** balance_level: drain a sparse node into its siblings or refill it from them.
        A root with one pointer gives way to its child instead, and the search has
        to start over. */
    method BalanceLevel() returns (promoted: bool)
      requires OnPointer() && (above != [] ==> FrameLen(above[0]) >= 2)
      modifies this`above, this`node, this`slot, this`level
      ensures promoted <==> old(above) == [] && old(|node.ptrs|) == 1
      ensures promoted
              ==> Valid() && above == [] && level == old(level) - 1 && node == old(node.ptrs[0].child) && slot == 0
      ensures !promoted ==> OnPointer() && |node.ptrs| >= 2 && level == old(level)
      ensures !promoted ==> Pre() == old(Pre()) && Post() == old(Post()) && node.ptrs[slot] == old(node.ptrs[slot])
      ensures !promoted ==> |above| == |old(above)| && (above != [] ==> above[1..] == old(above[1..]))
      ensures old(above) != [] && old(BlockLen(node)) <= Cap() / 4 && old(FitsSibling())
              ==> FrameLen(above[0]) < FrameLen(old(above)[0])
      ensures !promoted && (old(above) == [] || old(BlockLen(node)) > Cap() / 4)
              ==> above == old(above) && node == old(node) && slot == old(slot)
      ensures old(above) != [] && old(|node.ptrs|) <= Cap() / 4
              ==> NodesFit(old(NodeRow())) && NodeRow() == Rebalanced(old(NodeRow()))
    {
      promoted := false;
      if above == [] {
        if |node.ptrs| != 1 {
          return;
        }
        PromoteOnly(node.ptrs, level, leafData);
        level, node, slot := level - 1, node.ptrs[0].child, 0;
        return true;
      }
      if |node.ptrs| > Cap() / 4 {
        return;
      }
      BalanceWithSiblings();
    }

    /** The node fits into its left sibling or, when there is none, together with its
        right sibling. */
    ghost predicate FitsSibling()
      reads this
    {
      above != [] && if above[0].left != [] then |NodePtrs(LastOf(above[0].left).child)| + BlockLen(node) <= Cap()
                     else above[0].right != [] && BlockLen(node) + |NodePtrs(above[0].right[0].child)| <= Cap()
    }

    /** The part of balance_level after the early returns. */
    method BalanceWithSiblings()
      requires OnPointer() && above != [] && FrameLen(above[0]) >= 2
      modifies this`above, this`node, this`slot
      ensures OnPointer() && |node.ptrs| >= 2
      ensures Pre() == old(Pre()) && Post() == old(Post()) && node.ptrs[slot] == old(node.ptrs[slot])
      ensures |above| == |old(above)| && above[1..] == old(above[1..])
      ensures old(FitsSibling()) ==> FrameLen(above[0]) < FrameLen(old(above)[0])
      ensures NodesFit(old(NodeRow())) && NodeRow() == Rebalanced(old(NodeRow()))
    {
      hide PathOK, ParentOK, Prefix, Suffix, PtrsSorted, NodesOf, Rebalanced, Balanced, Drained, NodesFit;
      NodesFitHere();
      ThreeHere();
      var left, right := LeftPtrs(), RightPtrs();
      var left', mid', right' := BalanceThree(left, node.ptrs, right, Cap());
      CutsAre(|left|, |node.ptrs|, |right|, Cap(), |left'|, |mid'|);
      PlaceBalanced(left', mid', right');
    }

    /** The node on the left, if there is one. */
    function LeftPtrs(): seq<Ptr>
      reads this
      requires above != []
    {
      if above[0].left == [] then [] else NodePtrs(LastOf(above[0].left).child)
    }

    function RightPtrs(): seq<Ptr>
      reads this
      requires above != []
    {
      if above[0].right == [] then [] else NodePtrs(above[0].right[0].child)
    }

    lemma ThreeHere()
      requires OnPointer() && above != []
      ensures |LeftPtrs()| <= Cap() && 1 <= |node.ptrs| <= Cap() && |RightPtrs()| <= Cap()
      ensures (LeftPtrs() == [] <==> above[0].left == []) && (RightPtrs() == [] <==> above[0].right == [])
      ensures PtrsSorted(LeftPtrs() + node.ptrs + RightPtrs())
    {
      hide PathOK, ParentOK, Children, PtrsSorted, FrameAt;
      ThreeFromPath(above, node.ptrs, level, leafData);
    }

    /** The pointers of the node and of its siblings, shared anew. */
    method PlaceBalanced(left': seq<Ptr>, mid': seq<Ptr>, right': seq<Ptr>)
      requires OnPointer() && above != []
      requires left' + mid' + right' == LeftPtrs() + node.ptrs + RightPtrs()
      requires (LeftPtrs() == [] <==> left' == []) && (RightPtrs() == [] ==> right' == [])
               && (left' != [] || mid' != [])
      requires |left'| <= Cap() && |mid'| <= Cap() && |right'| <= |RightPtrs()|
      requires |left'| + |mid'| >= |LeftPtrs()| + |node.ptrs|
      requires |LeftPtrs()| <= Cap() && |node.ptrs| <= Cap()
      requires (|left'|, |left'| + |mid'|) == Balanced(|LeftPtrs()|, |node.ptrs|, |RightPtrs()|, Cap())
      modifies this`above, this`node, this`slot
      ensures OnPointer() && Pre() == old(Pre()) && Post() == old(Post())
      ensures node.ptrs[slot] == old(node.ptrs[slot])
      ensures |above| == |old(above)| && above[1..] == old(above[1..])
      ensures node == if old(|LeftPtrs()| + slot) < |left'| then Node(left') else Node(mid')
      ensures FrameLen(above[0]) == FrameLen(old(above)[0]) - (if mid' == [] then 1 else 0)
              - (if right' == [] && old(RightPtrs()) != [] then 1 else 0)
      ensures NodesFit(old(NodeRow())) && NodeRow() == Rebalanced(old(NodeRow()))
    {
      hide PathOK, ParentOK, Children, ThreePrefix, ThreeSuffix, Prefix, Suffix, PtrsSorted, BalanceEdit, FrameAt,
        InitOf, LastOf, NodesOf, Rebalanced, NodesFit, Balanced, Opt;
      NodesFitHere();
      var f, mid, tail := above[0], node.ptrs, above[1..];
      ThreeFromPath(above, mid, level, leafData);
      ghost var l, left := if f.left == [] then [] else InitOf(f.left), LeftPtrs();
      ghost var r, right := if f.right == [] then [] else f.right[1..], RightPtrs();
      ghost var g := |left| + slot;
      PositionInSecond(l, left, mid, right, r, tail, g);
      assert (left + mid + right)[g] == mid[slot];
      ThreeSound(l, left, mid, right, left', mid', right', r, tail, level, leafData);
      BalancedParent(above, mid, left', mid', right', level, leafData);
      BalancedRow(l, left, mid, right, r, left', mid', right', slot);
      OptLens(left, mid, right, left', mid', right');
      var ps := BalanceEdit(Parent(), |f.left|, f.left != [], f.right != [], left', mid', right');
      PlaceInThree(ps, |f.left|, left', mid', |LeftPtrs()| + slot, l, right', r);
    }

    /** What balance_level leaves under the parent. */
    ghost function Rebalanced(row: Row<Ptr>): Row<Ptr>
      requires NodesFit(row)
    {
      var left := if row.at > 0 then |row.blocks[row.at - 1]| else 0;
      var right := if row.at + 1 < |row.blocks| then |row.blocks[row.at + 1]| else 0;
      var cuts := Balanced(left, |row.blocks[row.at]|, right, Cap());
      if cuts.0 <= cuts.1 <= |Three(row)| then Share(row, cuts.0, cuts.1) else row
    }

    lemma BalancedRow(l: seq<Ptr>, a: seq<Ptr>, b: seq<Ptr>, c: seq<Ptr>, r: seq<Ptr>, a': seq<Ptr>, b': seq<Ptr>,
        c': seq<Ptr>, slot: nat)
      requires b != [] && slot < |b| && (a == [] ==> l == []) && (c == [] ==> r == [])
      requires a' + b' + c' == a + b + c && (a == [] <==> a' == []) && (c == [] ==> c' == [])
      requires |a| <= Cap() && |b| <= Cap() && (|a'|, |a'| + |b'|) == Balanced(|a|, |b|, |c|, Cap())
      ensures var row := Row(NodesOf(Children(l, a, b, c, r)), |l| + |Opt(a)|, slot);
              var blocks, g := NodesOf(Children(l, a', b', c', r)), |a| + slot;
              NodesFit(row)
              ==> Rebalanced(row)
                  == if g < |a'| then Row(blocks, |l|, g) else Row(blocks, |l| + |Opt(a')|, g - |a'|)
    {
      hide NodesOf, Children, Share, Balanced;
      NodesOfChildren(l, a, b, c, r);
      NodesOfChildren(l, a', b', c', r);
      Around(NodesOf(l), a, b, c, NodesOf(r));
      ShareIs(NodesOf(l), a, b, c, NodesOf(r), a', b', c', slot);
    }

    /** The parent has been edited around the pointer at j: stand on pointer g of the
        left and the middle node. */
    method PlaceInThree(ps: seq<Ptr>, j: nat, a: seq<Ptr>, b: seq<Ptr>, g: nat, ghost l: seq<Ptr>, ghost c: seq<Ptr>,
        ghost r: seq<Ptr>)
      requires above != [] && MIN_LEAF_DATA <= leafData && level > 0 && g < |a| + |b|
      requires ps == Children(l, a, b, c, r) && j == |l| + |Opt(a)|
      requires ParentOK(Children(l, a, b, c, r), above[1..], level, leafData)
      modifies this`above, this`node, this`slot
      ensures OnPointer() && |above| == |old(above)| && above[1..] == old(above[1..])
      ensures FrameLen(above[0]) == |l| + |Opt(a)| + |Opt(b)| + |Opt(c)| + |r|
      ensures Pre() == ThreePrefix(l, a + b + c, above[1..], g) && Post() == ThreeSuffix(a + b + c, r, above[1..], g)
      ensures node.ptrs[slot] == (a + b + c)[g]
      ensures if g < |a| then node == Node(a) && slot == g && |above[0].left| == |l|
              else node == Node(b) && slot == g - |a| && |above[0].left| == |l| + |Opt(a)|
      ensures Parent() == ps
    {
      hide ParentOK, ThreePrefix, ThreeSuffix, Prefix, Suffix, PathOK, Children, FrameAt, Opt;
      ghost var tail := above[1..];
      ChildrenLen(l, a, b, c, r);
      OptLen(a);
      if g < |a| {
        PositionInFirst(l, a, b, c, r, tail, g);
        FrameOf(ps, j - 1, tail);
        above := FrameAt(ps, j - 1, above[1..]);
        node, slot := Node(a), g;
        ParentToPath(ps, |l|, tail, level, leafData);
      } else {
        PositionInSecond(l, a, b, c, r, tail, g);
        FrameOf(ps, j, tail);
        above := FrameAt(ps, j, above[1..]);
        node, slot := Node(b), g - |a|;
        ParentToPath(ps, j, tail, level, leafData);
      }
    }

    /** The nodes under the parent of the path's node. */
    ghost function NodeRow(): Row<Ptr>
      reads this
      requires above != []
    {
      Row(NodesOf(Parent()), |above[0].left|, slot)
    }

    lemma NodeHere()
      requires OnPointer() && above != []
      ensures RowOK(NodeRow()) && NodeRow().blocks[NodeRow().at] == node.ptrs
      ensures |NodeRow().blocks| == FrameLen(above[0])
      ensures above[0].right != [] ==> NodeRow().blocks[NodeRow().at + 1] == NodePtrs(above[0].right[0].child)
      ensures above[0].left != [] ==> NodeRow().blocks[NodeRow().at - 1] == NodePtrs(LastOf(above[0].left).child)
    {
      hide PathOK;
      var f, ps := above[0], Parent();
      assert ps[|f.left|] == Ptr(f.key, node);
      assert f.right != [] ==> ps[|f.left| + 1] == f.right[0];
      assert f.left != [] ==> ps[|f.left| - 1] == LastOf(f.left);
    }

    // ----- leaves -----

    ghost predicate OnLeaf()
      reads this
    {
      Valid() && level == 0 && node.Leaf? && node.items != []
    }

    /** The leaf is where an item with this key goes; a leaf just made for it is
        still empty and its separator is the key itself. */
    ghost predicate Ready(key: Key)
      reads this
    {
      && MIN_LEAF_DATA <= leafData
      && level == 0 && node.Leaf? && slot <= |node.items| && Space(node.items) <= leafData
      && CtxOK(above, 0, if node.items == [] then key else node.items[0].key, leafData)
      && Sorted(Whole(above, node))
    }

    /** fixup_low_keys: set the separators on the way up, stopping after the first
        one that is not at slot 0. */
    method FixupLowKeys(key: Key)
      modifies this`above
      ensures above == FixLow(old(above), key)
    {
      var i := 0;
      ghost var was := above;
      while i < |above|
        invariant 0 <= i <= |above|
        invariant FixLow(was, key) == above[..i] + FixLow(above[i..], key)
      {
        FixLowStep(above[..i], above[i..], key);
        var f := above[i].(key := key);
        ghost var done, rest := above[..i], above[i + 1..];
        above := above[i := f];
        assert above == done + [f] + rest;
        if f.left != [] {
          return;
        }
        i := i + 1;
      }
    }

    /** The parent has been edited and holds a pair of sibling leaves at j: stand on item g
        of their concatenation. */
    method PlaceLeafPair(ps: seq<Ptr>, j: nat, a: seq<Item>, b: seq<Item>, g: nat, ghost l: seq<Ptr>, ghost r: seq<Ptr>)
      requires above != [] && MIN_LEAF_DATA <= leafData && level == 0
      requires ps == Pair(l, Leaf(a), Leaf(b), r) && j == |l|
      requires PairOK(l, Leaf(a), Leaf(b), r, above[1..], 0, leafData) && g <= |a| + |b|
      modifies this`above, this`node, this`slot
      ensures OnLeaf() && |above| == |old(above)| && above[1..] == old(above[1..])
      ensures FrameLen(above[0]) == |l| + 2 + |r|
      ensures Pre() == LeafPairPrefix(l, a + b, above[1..], g) && Post() == LeafPairSuffix(a + b, r, above[1..], g)
      ensures if g < |a| then node == Leaf(a) && slot == g && |above[0].left| == |l|
                         else node == Leaf(b) && slot == g - |a| && |above[0].left| == |l| + 1 && above[0].right == r
      ensures Parent() == ps
    {
      hide PairOK, PathOK, CtxOK, Sorted, LeafPairPrefix, LeafPairSuffix, Prefix, Suffix, Pair, Low;
      ghost var tail := above[1..];
      PairFull(l, Leaf(a), Leaf(b), r, tail, 0, leafData);
      PairParents(l, Leaf(a), Leaf(b), r);
      PairFrames(l, Leaf(a), Leaf(b), r, tail);
      if g < |a| {
        above := FrameAt(ps, j, above[1..]);
        node, slot := Leaf(a), g;
        LeftView(l, Leaf(a), Leaf(b), r, tail, 0, leafData);
        LeafPositionOnLeft(l, a, b, r, tail, g);
      } else {
        above := FrameAt(ps, j + 1, above[1..]);
        node, slot := Leaf(b), g - |a|;
        RightView(l, Leaf(a), Leaf(b), r, tail, 0, leafData);
        LeafPositionOnRight(l, a, b, r, tail, g);
      }
      assert above[1..] == tail;
    }

    /** Free bytes of the left sibling leaf; -1 without one. */
    ghost function LeftFree(): int
      reads this
    {
      if above != [] && above[0].left != [] && LastOf(above[0].left).child.Leaf?
          then Free(LastOf(above[0].left).child.items, leafData) else -1
    }

    ghost function RightFree(): int
      reads this
    {
      if above != [] && above[0].right != [] && above[0].right[0].child.Leaf?
          then Free(above[0].right[0].child.items, leafData) else -1
    }

    /** The leaves under the parent of the path's leaf. */
    ghost function LeafRow(): Row<Item>
      reads this
      requires above != []
    {
      Row(LeavesOf(Parent()), |above[0].left|, slot)
    }

    lemma LeafFits()
      requires OnLeaf()
      ensures Space(node.items) <= leafData
    {
    }

    lemma RowHere()
      requires OnLeaf() && above != []
      ensures RowOK(LeafRow()) && LeafRow().blocks[LeafRow().at] == node.items
      ensures |LeafRow().blocks| == FrameLen(above[0])
      ensures above[0].right != [] ==> LeafRow().blocks[LeafRow().at + 1] == BlockItems(above[0].right[0].child)
      ensures above[0].left != [] ==> LeafRow().blocks[LeafRow().at - 1] == BlockItems(LastOf(above[0].left).child)
    {
      var f, ps := above[0], Parent();
      assert ps[|f.left|] == Ptr(f.key, node);
      assert f.right != [] ==> ps[|f.left| + 1] == f.right[0];
      assert f.left != [] ==> ps[|f.left| - 1] == LastOf(f.left);
    }

    lemma ParentOfRight()
      requires above != [] && above[0].left != [] && PathOK(above, node, level, leafData)
      ensures Parent() == Pair(InitOf(above[0].left), LastOf(above[0].left).child, node, above[0].right)
    {
      PairWithLeft(above, node, level, leafData);
    }

    lemma ParentOfLeft()
      requires above != [] && above[0].right != [] && PathOK(above, node, level, leafData)
      ensures Parent() == Pair(above[0].left, node, above[0].right[0].child, above[0].right[1..])
    {
      PairWithRight(above, node, level, leafData);
    }

    /** The scan for items to push right goes past the last item of the leaf. */
    ghost predicate LastMoves(dataSize: nat, minSlot: nat)
      reads this
      requires node.Leaf? && node.items != []
    {
      var n := |node.items|;
      FirstPushable(false, minSlot) < n && !RightStops(node.items, n - 1, slot, dataSize, false, RightFree(), leafData)
    }

    ghost predicate FirstMoves(dataSize: nat, maxSlot: nat)
      reads this
      requires node.Leaf? && node.items != []
    {
      0 < maxSlot && 1 < |node.items| && !LeftStops(node.items, 0, slot, dataSize, false, LeftFree(), leafData)
    }

    /** When push_leaf_right does something. */
    ghost predicate RightTakes(minDataSize: nat, dataSize: nat, minSlot: nat)
      reads this
      requires node.Leaf? && node.items != []
    {
      0 <= RightFree() && dataSize <= RightFree() && (slot == |node.items| || LastMoves(minDataSize, minSlot))
    }

    /** When push_leaf_left does something. */
    ghost predicate LeftTakes(minDataSize: nat, dataSize: nat, maxSlot: nat)
      reads this
      requires node.Leaf? && node.items != []
    {
      0 <= LeftFree() && dataSize <= LeftFree() && FirstMoves(minDataSize, maxSlot)
    }

    /** push_leaf_right without draining: move trailing items to the right sibling. */
    method PushLeafRight(minDataSize: nat, dataSize: nat, minSlot: nat) returns (ret: int)
      requires OnLeaf() && minDataSize <= dataSize
      modifies this`above, this`node, this`slot
      ensures OnLeaf() && ret in {0, 1} && SamePlace()
      ensures (ret == 0 <==> old(RightTakes(minDataSize, dataSize, minSlot))) && (ret == 0 ==> MovedOn())
      ensures above != []
              ==> RowOK(old(LeafRow())) && LeafRow()
                  == PushedRight(old(LeafRow()), minDataSize, dataSize, minSlot, leafData)
      ensures ret == 1 ==> above == old(above) && node == old(node) && slot == old(slot)
      ensures old(slot < |node.items|) ==> slot < |node.items|
      ensures above != [] && |above[0].left| != |old(above)[0].left| ==> Free(node.items, leafData) >= minDataSize
      ensures above != [] && |above[0].left| == |old(above)[0].left|
          ==> node.items <= old(node.items) && slot == old(slot)
    {
      hide PathOK, Prefix, Suffix, Space, LeavesOf, MovedRight, LastMoves, PairOK, LeafPairPrefix, LeafPairSuffix, Pair;
      if above != [] {
        RowHere();
      }
      if above == [] || above[0].right == [] {
        return 1;
      }
      LeafPairFromLeft(above, node.items, slot, leafData);
      var f, left := above[0], node.items;
      var r, right := f.right[1..], f.right[0].child.items;
      var freeSpace := Free(right, leafData);
      if freeSpace < dataSize {
        return 1;
      }
      LeafSiblingOrder(f.left, left, right, r, above[1..], leafData);
      assert !BadLeafOrder(left, right);
      if slot == |left| {
        // nothing moves, the path steps over to the right sibling
        ParentOfLeft();
        PlaceLeafPair(Parent(), |f.left|, left, right, slot, f.left, r);
        return 0;
      }
      ret := MoveItemsRight(minDataSize, freeSpace, minSlot);
    }

    /** __push_leaf_right */
    method MoveItemsRight(dataSize: nat, freeSpace: int, minSlot: nat) returns (ret: int)
      requires OnLeaf() && above != [] && above[0].right != [] && slot < |node.items|
      requires above[0].right[0].child.Leaf? && freeSpace == Free(above[0].right[0].child.items, leafData)
      modifies this`above, this`node, this`slot
      ensures OnLeaf() && ret in {0, 1} && SamePlace()
      ensures (ret == 0 <==> old(LastMoves(dataSize, minSlot))) && (ret == 0 ==> MovedOn())
      ensures RowOK(old(LeafRow())) && LeafRow() == MovedRight(old(LeafRow()), dataSize, minSlot, leafData)
      ensures ret == 1 ==> above == old(above) && node == old(node) && slot == old(slot)
      ensures slot < |node.items|
      ensures |above[0].left| != |old(above)[0].left| ==> Free(node.items, leafData) >= dataSize
      ensures |above[0].left| == |old(above)[0].left| ==> node.items <= old(node.items) && slot == old(slot)
    {
      hide PathOK, Prefix, Suffix, Space, LeavesOf, RightPush, RightStops, FirstPushable, GiveRight;
      RowHere();
      var left := node.items;
      var push := RightPush(left, slot, dataSize, false, freeSpace, minSlot, leafData);
      RightPushSome(left, slot, dataSize, false, freeSpace, minSlot, leafData);
      if push == 0 {
        return 1;
      }
      assert RightNeed(left, |left| - push, slot, dataSize) <= freeSpace;
      GiveItemsRight(push);
      return 0;
    }

    /** The last push items of the leaf go to the right sibling. */
    method GiveItemsRight(push: nat)
      requires OnLeaf() && above != [] && above[0].right != [] && slot < |node.items| && 0 < push < |node.items|
      requires above[0].right[0].child.Leaf?
      requires Space(node.items[|node.items| - push..]) <= Free(above[0].right[0].child.items, leafData)
      modifies this`above, this`node, this`slot
      ensures OnLeaf() && SamePlace() && above != []
      ensures RowOK(old(LeafRow())) && LeafRow() == GiveRight(old(LeafRow()), push)
      ensures var k := old(|node.items|) - push;
              if old(slot) < k then |above[0].left| == |old(above)[0].left| && node.items == old(node.items)[..k]
                  && slot == old(slot)
              else |above[0].left| == |old(above)[0].left| + 1 && slot == old(slot) - k && slot < |node.items|
                   && node.items == old(node.items[k..] + above[0].right[0].child.items)
                   && Space(node.items) == old(Space(node.items[k..]) + Space(above[0].right[0].child.items))
    {
      hide PairOK, PathOK, CtxOK, Sorted, LeafPairPrefix, LeafPairSuffix, Prefix, Suffix, Space, LeavesOf, PushEdit,
        Pair;
      RowHere();
      LeafPairFromLeft(above, node.items, slot, leafData);
      var f, left := above[0], node.items;
      var r, right := f.right[1..], f.right[0].child.items;
      var k := |left| - push;
      LeafMoveRight(f.left, left, right, k, r, above[1..], leafData);
      ParentOfLeft();
      PushEditIs(f.left, Leaf(left), Leaf(right), Leaf(left[..k]), Leaf(left[k..] + right), r);
      var ps := PushEdit(Parent(), |f.left|, Leaf(left[..k]), Leaf(left[k..] + right));
      LeavesAfterPush(Parent(), |f.left|, left[..k], left[k..] + right);
      PlaceLeafPair(ps, |f.left|, left[..k], left[k..] + right, slot, f.left, r);
    }

    /** push_leaf_left without draining: move leading items to the left sibling. */
    method PushLeafLeft(minDataSize: nat, dataSize: nat, maxSlot: nat) returns (ret: int)
      requires OnLeaf() && minDataSize <= dataSize
      modifies this`above, this`node, this`slot
      ensures OnLeaf() && ret in {0, 1} && SamePlace()
      ensures (ret == 0 <==> old(LeftTakes(minDataSize, dataSize, maxSlot))) && (ret == 0 ==> MovedOn())
      ensures above != []
              ==> RowOK(old(LeafRow())) && LeafRow()
                  == PushedLeft(old(LeafRow()), minDataSize, dataSize, maxSlot, leafData)
      ensures above != [] && maxSlot <= old(slot)
              ==> |above[0].left| == |old(above)[0].left| && BlockLen(node) <= old(BlockLen(node))
      ensures ret == 1 ==> above == old(above) && node == old(node) && slot == old(slot)
      ensures old(slot < |node.items|) ==> slot < |node.items|
      ensures above != [] && |above[0].left| != |old(above)[0].left| ==> Free(node.items, leafData) >= minDataSize
    {
      if above == [] || above[0].left == [] {
        return 1;
      }
      PairWithLeft(above, node, 0, leafData);
      var l, left := InitOf(above[0].left), LastOf(above[0].left).child.items;
      var freeSpace := Free(left, leafData);
      if freeSpace < dataSize {
        return 1;
      }
      LeafSiblingOrder(l, left, node.items, above[0].right, above[1..], leafData);
      assert !BadLeafOrder(left, node.items);
      ret := MoveItemsLeft(minDataSize, freeSpace, maxSlot);
    }

    /** __push_leaf_left */
    method MoveItemsLeft(dataSize: nat, freeSpace: int, maxSlot: nat) returns (ret: int)
      requires OnLeaf() && above != [] && above[0].left != []
      requires LastOf(above[0].left).child.Leaf? && freeSpace == Free(LastOf(above[0].left).child.items, leafData)
      modifies this`above, this`node, this`slot
      ensures OnLeaf() && ret in {0, 1} && SamePlace()
      ensures (ret == 0 <==> old(FirstMoves(dataSize, maxSlot))) && (ret == 0 ==> MovedOn())
      ensures RowOK(old(LeafRow())) && LeafRow() == MovedLeft(old(LeafRow()), dataSize, maxSlot, leafData)
      ensures maxSlot <= old(slot) ==> |above[0].left| == |old(above)[0].left| && BlockLen(node) <= old(BlockLen(node))
      ensures ret == 1 ==> above == old(above) && node == old(node) && slot == old(slot)
      ensures old(slot < |node.items|) ==> slot < |node.items|
      ensures |above[0].left| != |old(above)[0].left| ==> Free(node.items, leafData) >= dataSize
    {
      hide PathOK, Prefix, Suffix, Space, LeavesOf, LeftPush, LeftStops, GiveLeft;
      RowHere();
      var right := node.items;
      var push := LeftPush(right, slot, dataSize, false, freeSpace, maxSlot, leafData);
      LeftPushSome(right, slot, dataSize, false, freeSpace, maxSlot, leafData);
      if push == 0 {
        return 1;
      }
      assert LeftNeed(right, push, slot, dataSize) <= freeSpace;
      GiveItemsLeft(push);
      return 0;
    }

    /** The first push items of the leaf go to the left sibling. */
    method GiveItemsLeft(push: nat)
      requires OnLeaf() && above != [] && above[0].left != [] && 0 < push < |node.items|
      requires LastOf(above[0].left).child.Leaf?
      requires Space(node.items[..push]) <= Free(LastOf(above[0].left).child.items, leafData)
      modifies this`above, this`node, this`slot
      ensures OnLeaf() && SamePlace() && above != []
      ensures RowOK(old(LeafRow())) && LeafRow() == GiveLeft(old(LeafRow()), push)
      ensures if old(slot) < push then |above[0].left| == |old(above)[0].left| - 1 && slot < |node.items|
                   && node.items == old(LastOf(above[0].left).child.items + node.items[..push])
                   && Space(node.items) == old(Space(LastOf(above[0].left).child.items) + Space(node.items[..push]))
              else |above[0].left| == |old(above)[0].left| && node.items == old(node.items)[push..]
                   && slot == old(slot) - push && above[0].right == old(above)[0].right
    {
      hide PairOK, PathOK, CtxOK, Sorted, LeafPairPrefix, LeafPairSuffix, Prefix, Suffix, Space, LeavesOf, PushEdit,
        Pair;
      RowHere();
      LeafPairFromRight(above, node.items, slot, leafData);
      var f, right := above[0], node.items;
      var l, left := InitOf(f.left), LastOf(f.left).child.items;
      LeafMoveLeft(l, left, right, push, f.right, above[1..], leafData);
      ParentOfRight();
      PushEditIs(l, Leaf(left), Leaf(right), Leaf(left + right[..push]), Leaf(right[push..]), f.right);
      var ps := PushEdit(Parent(), |f.left| - 1, Leaf(left + right[..push]), Leaf(right[push..]));
      LeavesAfterPush(Parent(), |f.left| - 1, left + right[..push], right[push..]);
      PlaceLeafPair(ps, |f.left| - 1, left + right[..push], right[push..], slot + |left|, l, f.right);
    }

    /** copy_for_split: items from mid on move to a new right sibling. */
    method CopyForSplit(mid: nat)
      requires OnLeaf() && above != [] && FrameLen(above[0]) < Cap() && 0 < mid < |node.items|
      modifies this`above, this`node, this`slot
      ensures OnLeaf() && |above| == |old(above)| && above[1..] == old(above[1..])
      ensures FrameLen(above[0]) == FrameLen(old(above)[0]) + 1
      ensures Pre() == old(Pre()) && Post() == old(Post())
      ensures if old(slot) < mid then node.items == old(node.items[..mid]) && slot == old(slot)
                                 else node.items == old(node.items[mid..]) && slot == old(slot) - mid
      ensures RowOK(old(LeafRow())) && mid <= |old(LeafRow()).blocks[old(LeafRow()).at]|
      ensures LeafRow() == CutAt(old(LeafRow()), mid)
    {
      hide PairOK, PathOK, LeafPairPrefix, LeafPairSuffix, Prefix, Suffix, Sorted, CtxOK, FlattenPtrs, Space, Before,
        After, LeavesOf, SplitEdit;
      RowHere();
      LeafSplitSound(above, node.items, mid, leafData);
      LeafInFrame(above, node.items, slot);
      assert node.items[..mid] + node.items[mid..] == node.items;
      KeyIsLow(above, node, 0, leafData);
      var f := above[0];
      SplitEditIs(f.left, node, Leaf(node.items[..mid]), Leaf(node.items[mid..]), f.right);
      var ps := SplitEdit(Parent(), |f.left|, Leaf(node.items[..mid]), Leaf(node.items[mid..]));
      LeavesAfterSplit(Parent(), |f.left|, node.items[..mid], node.items[mid..]);
      PlaceLeafPair(ps, |f.left|, node.items[..mid], node.items[mid..], slot, f.left, f.right);
    }

    /** The new pointer in the parent. */
    method InsertEmptyLeaf(key: Key)
      requires OnLeaf() && above != [] && FrameLen(above[0]) < Cap() && slot in {0, |node.items|}
      modifies this`above, this`node, this`slot
      ensures Ready(key) && node == Leaf([]) && slot == 0 && |above| == |old(above)|
              && Free(node.items, leafData) == leafData
      ensures Pre() == old(Pre()) && Post() == old(Post())
      ensures above != []
      ensures var f, p, q := old(above)[0], Ptr(old(above)[0].key, old(node)), Ptr(above[0].key, Leaf([]));
              if old(slot) != 0 then Parent() == f.left + [p] + [q] + f.right && |above[0].left| == |f.left| + 1
              else Parent() == f.left + [q] + ([p] + f.right) && |above[0].left| == |f.left|
    {
      hide Sorted, CtxOK, FixLow, PtrsOK;
      ghost var whole := Whole(above, node);
      PrefixSuffix(above, node, slot);
      var f, p := above[0], Ptr(above[0].key, node);
      if slot != 0 {
        EmptyLeafAfter(above, node.items, key, leafData);
        above := [Frame(f.left + [p], key, f.right)] + above[1..];
        node, slot := Leaf([]), 0;
      } else {
        EmptyLeafBefore(above, node.items, key, leafData);
        above := [Frame(f.left, key, [p] + f.right)] + above[1..];
        node, slot := Leaf([]), 0;
        if f.left == [] {
          FixLowKeeps(above, key);
          FixupLowKeys(key);
        }
      }
      assert Pre() == old(Pre()) && Post() == old(Post());
      PrefixSuffix(above, node, slot);
      assert Whole(above, node) == whole;
    }

    /** split_leaf with split == 0: a new empty leaf for the key, after or before the
        current one. */
    method AddEmptyLeaf(key: Key)
      requires OnLeaf() && above != [] && FrameLen(above[0]) < Cap() && slot in {0, |node.items|}
      modifies this`above, this`node, this`slot
      ensures Ready(key) && node == Leaf([]) && slot == 0 && |above| == |old(above)|
              && Free(node.items, leafData) == leafData
      ensures Pre() == old(Pre()) && Post() == old(Post())
      ensures RowOK(old(LeafRow())) && above != [] && LeafRow() == WithEmpty(old(LeafRow()))
    {
      hide PathOK, CtxOK, Sorted, Prefix, Suffix, LeavesOf;
      RowHere();
      ghost var f, p := above[0], Ptr(above[0].key, node);
      InsertEmptyLeaf(key);
      LeavesBeside(f.left, p, f.right, above[0].key);
    }

    twostate predicate Unmoved()
      reads this
    {
      above == old(above) && node == old(node) && slot == old(slot)
    }

    /** push_for_double_split: try to get the slot to the edge of its leaf. */
    method PushForDoubleSplit(dataSize: nat)
      requires OnLeaf() && Free(node.items, leafData) < dataSize
      modifies this`above, this`node, this`slot
      ensures OnLeaf() && SamePlace() && (old(slot < |node.items|) ==> slot < |node.items|)
      ensures Unmoved() <==> !old(RightTakes(1, Ask(node.items, dataSize, slot < |node.items|, leafData), slot))
                             && (old(slot in {0, |node.items|})
                                || !old(LeftTakes(1, Ask(node.items, dataSize, slot > 0, leafData), slot)))
      ensures above != [] ==> RowOK(old(LeafRow())) && LeafRow() == PushedApart(old(LeafRow()), dataSize, leafData)
    {
      hide RightTakes, LeftTakes, Prefix, Suffix, PathOK, LeavesOf, PushedRight, PushedLeft, Space, Low;
      LeafFits();
      if above != [] {
        RowHere();
      }
      var spaceNeeded := dataSize;
      if slot < |node.items| {
        spaceNeeded := dataSize - Free(node.items, leafData);
      }
      var ret := PushLeafRight(1, spaceNeeded, slot);
      if above != [] {
        RowHere();
      }
      if slot == 0 || slot == |node.items| {
        return;
      }
      if Free(node.items, leafData) >= dataSize {
        return;
      }
      spaceNeeded := dataSize;
      if slot > 0 {
        spaceNeeded := dataSize - Free(node.items, leafData);
      }
      ret := PushLeafLeft(1, spaceNeeded, slot);
    }

    /** One of the sibling leaves takes something before a split. */
    ghost predicate Pushable(dataSize: nat)
      reads this
      requires node.Leaf? && node.items != []
    {
      var right, left := Ask(node.items, dataSize, slot < |node.items|, leafData),
          Ask(node.items, dataSize, slot > 0, leafData);
      RightTakes(right, right, 0) || LeftTakes(left, left, |node.items|)
    }

    /** split_leaf, first stage: try the two siblings. */
    method PushLeaves(dataSize: nat)
      requires OnLeaf() && Free(node.items, leafData) < dataSize
      modifies this`above, this`node, this`slot
      ensures OnLeaf() && SamePlace() && (old(slot < |node.items|) ==> slot < |node.items|)
      ensures Unmoved() <==> !old(Pushable(dataSize))
      ensures above != [] ==> RowOK(old(LeafRow())) && LeafRow() == PushedAside(old(LeafRow()), dataSize, leafData)
    {
      hide RightTakes, LeftTakes, Prefix, Suffix, PathOK, LeavesOf, PushedRight, PushedLeft, Space, Low;
      LeafFits();
      if above != [] {
        RowHere();
      }
      var spaceNeeded := dataSize;
      if slot < |node.items| {
        spaceNeeded := dataSize - Free(node.items, leafData);
      }
      var wret := PushLeafRight(spaceNeeded, spaceNeeded, 0);
      if above != [] {
        RowHere();
      }
      if wret != 0 {
        spaceNeeded := dataSize;
        if slot > 0 {
          spaceNeeded := dataSize - Free(node.items, leafData);
        }
        wret := PushLeafLeft(spaceNeeded, spaceNeeded, |node.items|);
      }
    }

    /** The item under the slot, which an extension is about, still fits. */
    ghost predicate ExtendFits(dataSize: nat)
      reads this
    {
      node.Leaf? && slot < |node.items| && dataSize + ItemSpace(Post()[0]) <= leafData
    }

    lemma LeafIsReady(key: Key)
      requires OnLeaf()
      ensures Ready(key)
    {
    }

    lemma SlotItem()
      requires node.Leaf? && slot < |node.items|
      ensures |Post()| >= |node.items| - slot && Post()[0] == node.items[slot]
    {
    }

    /** split_leaf: make dataSize bytes of room in the leaf of the path, at the same
        place of the item sequence.  Only an extension beyond a leaf fails. */
    method SplitLeaf(key: Key, dataSize: nat, extend: bool) returns (ret: int)
      requires OnLeaf() && Free(node.items, leafData) < dataSize <= leafData
      requires extend ==> slot < |node.items|
      requires above != [] ==> FrameLen(above[0]) < Cap() - 3
      modifies this`above, this`node, this`slot
      ensures ret in {0, -EOVERFLOW}
      ensures ret == -EOVERFLOW <==> extend && !old(ExtendFits(dataSize))
      ensures ret != 0 ==> above == old(above) && node == old(node) && slot == old(slot)
      ensures ret == 0 ==> Ready(key) && Free(node.items, leafData) >= dataSize
      ensures ret == 0 ==> Pre() == old(Pre()) && Post() == old(Post())
      ensures ret == 0 && extend ==> ExtendFits(dataSize)
      ensures ret == 0 && node.items == [] ==> above != []
      // first the siblings are tried; a leaf is added only when they cannot make the room
      ensures old(above) != [] ==> RowOK(old(LeafRow()))
      ensures ret == 0 && old(above) != []
              ==> var row := PushedAside(old(LeafRow()), dataSize, leafData);
                  && above != []
                  && if Free(row.blocks[row.at], leafData) >= dataSize
                     then LeafRow() == row && FrameLen(above[0]) == FrameLen(old(above)[0])
                     else LeafRow() == SplitRow(row, dataSize, extend, false, 3, leafData)
      ensures ret == 0 && old(above) == []
              ==> above != [] && LeafRow() == SplitRow(Row([old(node.items)], 0, old(slot)), dataSize, extend, false, 3,
                    leafData)
    {
      hide PathOK, Prefix, Suffix, CtxOK, Sorted, Space, Flatten, FlattenPtrs, Whole, Before, After, BlockPre,
        BlockPost, ItemSpace, LeavesOf, PushedAside, SplitRow, Pushable;
      LeafFits();
      if above != [] {
        RowHere();
      }
      if extend {
        SlotItem();
      }
      if extend && dataSize + ItemSpace(node.items[slot]) > leafData {
        return -EOVERFLOW;
      }
      if dataSize > 0 && above != [] {
        PushLeaves(dataSize);
        RowHere();
        assert LeafRow().blocks[LeafRow().at] == node.items;
        if Free(node.items, leafData) >= dataSize {
          LeafIsReady(key);
          return 0;
        }
      }
      if above == [] {
        InsertNewRoot();
        RowHere();
        assert LeafRow().blocks == [node.items];
      }
      SplitRounds(key, dataSize, extend);
      return 0;
    }

    /** split_leaf from the label again on: at most three rounds, at most one double
        split. */
    method SplitRounds(key: Key, dataSize: nat, extend: bool)
      requires OnLeaf() && Free(node.items, leafData) < dataSize <= leafData
      requires above != [] && FrameLen(above[0]) < Cap() - 3 && (extend ==> ExtendFits(dataSize))
      modifies this`above, this`node, this`slot
      ensures Ready(key) && Free(node.items, leafData) >= dataSize && above != []
      ensures Pre() == old(Pre()) && Post() == old(Post())
      ensures extend ==> ExtendFits(dataSize)
      ensures RowOK(old(LeafRow()))
      ensures LeafRow() == SplitRow(old(LeafRow()), dataSize, extend, false, 3, leafData)
    {
      hide PathOK, Prefix, Suffix, CtxOK, Sorted, Space, LeavesOf, SplitRow, RowOK, ExtendFits;
      RowHere();
      var numDoubles, triedAvoidDouble, rounds, done := 0, false, 0, false;
      while !done
        invariant numDoubles in {0, 1} && rounds == numDoubles + (if triedAvoidDouble then 1 else 0)
        invariant above != [] && (!done ==> OnLeaf() && Free(node.items, leafData) < dataSize)
        invariant !done ==> FrameLen(above[0]) + 3 < Cap() + numDoubles
        invariant done ==> Ready(key) && Free(node.items, leafData) >= dataSize
        invariant (extend ==> ExtendFits(dataSize)) && (!done && numDoubles == 1 ==> slot == 0)
        invariant Pre() == old(Pre()) && Post() == old(Post()) && RowOK(LeafRow())
        invariant (if done then LeafRow()
                   else SplitRow(LeafRow(), dataSize, extend, triedAvoidDouble, 3 - rounds, leafData))
               == SplitRow(old(LeafRow()), dataSize, extend, false, 3, leafData)
        decreases 2 - rounds, !done
      {
        // the third round is the last one
        assert rounds <= 2;
        ghost var tried := triedAvoidDouble;
        var pushed;
        done, pushed := SplitRound(key, dataSize, extend, triedAvoidDouble, 3 - rounds);
        if !done {
          rounds := rounds + 1;
          if pushed {
            triedAvoidDouble := true;
          } else {
            assert numDoubles == 0;
            numDoubles := numDoubles + 1;
          }
        }
      }
    }

    /** One round: it ends with the room, or after pushing to both sides, or with the first
        half of a double split. */
    method SplitRound(key: Key, dataSize: nat, extend: bool, tried: bool, ghost rounds: nat)
        returns (done: bool, pushed: bool)
      requires OnLeaf() && Free(node.items, leafData) < dataSize <= leafData && rounds > 0
      requires above != [] && FrameLen(above[0]) < Cap() && (extend ==> ExtendFits(dataSize))
      modifies this`above, this`node, this`slot
      ensures above != [] && (extend ==> ExtendFits(dataSize))
      ensures done ==> Ready(key) && Free(node.items, leafData) >= dataSize
      ensures !done ==> OnLeaf() && Free(node.items, leafData) < dataSize && 0 < old(slot) && (pushed ==> !tried)
      ensures Pre() == old(Pre()) && Post() == old(Post())
      ensures !done ==> FrameLen(above[0]) == FrameLen(old(above)[0]) + (if pushed then 0 else 1)
      ensures !done && !pushed ==> slot == 0
      ensures RowOK(old(LeafRow())) && RowOK(LeafRow())
      ensures SplitRow(old(LeafRow()), dataSize, extend, tried, rounds, leafData)
           == if done then LeafRow() else SplitRow(LeafRow(), dataSize, extend, tried || pushed, rounds - 1, leafData)
    {
      hide PathOK, Prefix, Suffix, CtxOK, Sorted, Space, Flatten, FlattenPtrs, Whole, Before, After, BlockPre,
        BlockPost, ItemSpace, LeavesOf, PushedApart, CutAt, WithEmpty, PlanOf, RightTakes, LeftTakes, SplitRow;
      RowHere();
      LeafIsReady(key);
      if extend {
        SlotItem();
      }
      SplitRowStep(LeafRow(), dataSize, extend, tried, rounds, leafData);
      var split, mid, pushFirst := PlanSplit(node.items, slot, dataSize, extend, tried, leafData);
      done, pushed := true, pushFirst;
      if pushFirst {
        PushForDoubleSplit(dataSize);
        RowHere();
        done := Free(node.items, leafData) >= dataSize;
        LeafIsReady(key);
      } else if split == 0 {
        AddEmptyLeaf(key);
      } else {
        CopyForSplit(mid);
        RowHere();
        done := split != 2;
        LeafIsReady(key);
      }
    }

    /** The searched key against the tree around the block of the path. */
    ghost predicate Surrounds(key: Key)
      reads this
    {
      Below(Before(above), key) && Above(key, After(above))
    }

    /** search_leaf: find the key in the leaf of the path and make room for insLen
        bytes; 0 when present, 1 when absent. */
    method SearchLeaf(key: Key, insLen: nat, prevCmp: int, searchForExtension: bool) returns (ret: int)
      requires Valid() && level == 0 && node.Leaf? && insLen <= leafData && Surrounds(key)
      requires prevCmp == 0 ==> node.items != [] && node.items[0].key == key
      requires insLen > 0 && !searchForExtension ==> insLen >= ITEM_HEADER
      requires insLen > 0 && above != [] ==> FrameLen(above[0]) < Cap() - 3
      modifies this`above, this`node, this`slot
      ensures ret in {0, 1, -EOVERFLOW} && level == 0 && node.Leaf? && slot <= |node.items|
      ensures Pre() + Post() == old(Whole(above, node))
      ensures Ready(key) && (ret != 1 ==> Valid())
      ensures ret == 0 ==> slot < |node.items| && node.items[slot].key == key
      ensures ret == 1 ==> Below(Pre(), key) && Above(key, Post())
      ensures ret == -EOVERFLOW
              ==> insLen > 0 && TooBig(old(Whole(above, node)), key, Growth(insLen, searchForExtension), leafData)
      ensures ret == -EOVERFLOW
              <==> insLen > 0 && Overflows(old(node.items), key, Growth(insLen, searchForExtension), leafData)
      ensures ret >= 0 && insLen > 0
              ==> (if ret == 1 || searchForExtension then insLen else insLen - ITEM_HEADER)
                  <= Free(node.items, leafData)
      ensures insLen == 0 ==> above == old(above) && node == old(node) && Valid()
      // a leaf that has the room is left alone
      ensures ret >= 0
              && (if ret == 0 && !searchForExtension then insLen - ITEM_HEADER else insLen)
                 <= old(Free(node.items, leafData))
              ==> above == old(above) && node == old(node)
    {
      hide Sorted, CtxOK, Below, Above, Prefix, Suffix, Whole, KeysInOrder, PathOK, TooBig;
      var leafFreeSpace;
      LeafReady(key);
      assert node == Leaf(node.items);
      LeafInOrder(above, node.items);
      ret, leafFreeSpace := FindInLeaf(key, insLen, prevCmp);
      TooBigHere(above, node.items, slot, ret, key, Growth(insLen, searchForExtension), leafData);
      PrefixSuffix(above, node, slot);
      LeafReady(key);
      if insLen > 0 {
        var need := insLen;
        if ret == 0 && !searchForExtension {
          need := insLen - ITEM_HEADER;
        }
        if leafFreeSpace < need {
          ret := SplitForInsert(key, need, ret);
        }
      }
    }

    /** The first half of search_leaf: the slot of the key, with the shortcut that
        looks at the first key of the leaf only. */
    method FindInLeaf(key: Key, insLen: nat, prevCmp: int) returns (ret: int, leafFreeSpace: int)
      requires Valid() && level == 0 && node.Leaf? && insLen <= leafData && Surrounds(key)
      requires prevCmp == 0 ==> node.items != [] && node.items[0].key == key
      modifies this`slot
      ensures ret in {0, 1} && slot <= |node.items| && (insLen > 0 ==> leafFreeSpace == Free(node.items, leafData))
      ensures ret == 0 ==> slot < |node.items| && node.items[slot].key == key
      ensures ret == 1 ==> Below(Pre(), key) && Above(key, Post())
    {
      hide Sorted, CtxOK, Below, Above, Prefix, Suffix, Whole, KeysInOrder;
      var searchLowSlot, doBinSearch := 0, true;
      leafFreeSpace := -1;
      ret := -1;
      LeafInOrder(above, node.items);
      if insLen > 0 {
        leafFreeSpace := Free(node.items, leafData);
        if above != [] && leafFreeSpace >= insLen {
          ret := Compare(node.items[0].key, key);
          TotalOrder(node.items[0].key, key, key);
          if ret < 0 {
            searchLowSlot := 1;
          } else {
            doBinSearch := false;
            slot := 0;
          }
        }
      }
      if doBinSearch {
        ret, slot := SearchForKeySlot(node, searchLowSlot, key, prevCmp);
        assert ret == 1 && slot < |node.items| ==> Less(key, KeyAt(node, slot));
        assert ret == 1 && slot > searchLowSlot ==> Less(KeyAt(node, slot - 1), key);
      }
      LeafPlace(above, node.items, slot, key, ret);
    }

    lemma LeafReady(key: Key)
      requires Valid() && level == 0 && node.Leaf?
      ensures Ready(key)
    {
    }

    /** The split at the end of search_leaf. */
    method SplitForInsert(key: Key, need: nat, found: int) returns (ret: int)
      requires OnLeaf() && Free(node.items, leafData) < need <= leafData && found in {0, 1}
      requires above != [] ==> FrameLen(above[0]) < Cap() - 3
      requires found == 0 ==> slot < |node.items| && node.items[slot].key == key
      requires found == 1 ==> Below(Pre(), key) && Above(key, Post())
      modifies this`above, this`node, this`slot
      ensures ret in {found, -EOVERFLOW} && level == 0 && node.Leaf? && slot <= |node.items|
      ensures Pre() + Post() == old(Whole(above, node)) && Ready(key) && (ret != 1 ==> Valid())
      ensures ret == 0 ==> slot < |node.items| && node.items[slot].key == key
      ensures ret == 1 ==> Below(Pre(), key) && Above(key, Post())
      ensures ret == -EOVERFLOW ==> found == 0 && TooBig(old(Whole(above, node)), key, need, leafData)
      ensures ret == -EOVERFLOW <==> found == 0 && need + ItemSpace(old(node.items[slot])) > leafData
      ensures ret >= 0 ==> Free(node.items, leafData) >= need
    {
      hide Prefix, Suffix, Whole, PathOK, CtxOK, Sorted, Below, Above;
      PrefixSuffix(above, node, slot);
      LeafIsReady(key);
      if found == 0 {
        SlotItem();
        ghost var whole := Pre() + Post();
        assert whole[|Pre()|] == node.items[slot] && whole[|Pre()|].key == key;
      }
      ret := SplitLeaf(key, need, found == 0);
      if ret == 0 {
        ret := found;
        if found == 0 {
          SlotItem();
          ReadyLeaf(key);
        }
      }
    }

    lemma ReadyLeaf(key: Key)
      requires Ready(key) && node.items != []
      ensures OnLeaf()
    {
    }

    /** setup_items_for_insert, with the data written: the batch goes to the slot. */
    method InsertItems(batch: seq<Item>)
      requires batch != [] && Ready(batch[0].key) && Space(batch) <= Free(node.items, leafData)
      requires Sorted(Pre() + batch + Post())
      modifies this`above, this`node
      ensures Valid() && level == 0 && Whole(above, node) == old(Pre() + batch + Post())
      ensures node.Leaf? && node.items == old(node.items[..slot] + batch + node.items[slot..])
    {
      hide Sorted, CtxOK;
      var items := node.items[..slot] + batch + node.items[slot..];
      InsertSpace(node.items, slot, batch);
      ghost var pre, post := Pre(), Post();
      ghost var old0 := above;
      if slot == 0 {
        FixLowOK(above, batch[0].key, 0, if node.items == [] then batch[0].key else node.items[0].key, leafData);
        FixLowKeeps(above, batch[0].key);
        FixupLowKeys(batch[0].key);
      }
      ghost var before, after := node.items[..slot], node.items[slot..];
      node := Leaf(items);
      assert Low(node) == items[0].key;
      Regroup6(Before(above), before, batch, after, After(above));
      assert Whole(above, node) == pre + batch + post;
    }

    // ----- the search -----

    /** The child under the slot is where the key belongs. */
    ghost predicate PointerSurrounds(key: Key)
      reads this
      requires node.Node? && slot < |node.ptrs|
    {
      Below(Pre(), key) && Above(key, AfterChild(above, node.ptrs, slot))
    }

    /** read_block_for_search: the child under the slot becomes the block of the path. */
    method Descend()
      requires OnPointer()
      modifies this`above, this`node, this`slot, this`level
      ensures Valid() && level == old(level) - 1 && node == old(node.ptrs[slot].child) && slot == 0
      ensures above == FrameAt(old(node.ptrs), old(slot), old(above)) && FrameLen(above[0]) == old(|node.ptrs|)
      ensures Low(node) == old(node.ptrs[slot].key) && BlockLen(node) > 0
      ensures Before(above) == old(Pre()) && After(above) == old(AfterChild(above, node.ptrs, slot))
      ensures Whole(above, node) == old(Whole(above, node)) && Root() == old(Root())
    {
      hide Sorted, Flatten, FlattenPtrs, Before, After, CtxOK, PtrsOK;
      ChildSound(above, node.ptrs, slot, level, leafData);
      above, node, slot, level := FrameAt(node.ptrs, slot, above), node.ptrs[slot].child, 0, level - 1;
    }

    /** The slot of a node to go down through. */
    method ChoosePointer(key: Key, prevCmp: int) returns (ret: int)
      requires Valid() && level > 0 && Surrounds(key)
      requires prevCmp == 0 ==> BlockLen(node) > 0 && Low(node) == key
      modifies this`slot
      ensures OnPointer() && ret in {0, 1} && (ret == 0 ==> node.ptrs[slot].key == key)
      ensures PointerSurrounds(key) && slot == Pick(node.ptrs, key)
    {
      hide Pick, Sorted, CtxOK, Below, Above, Prefix, Suffix, Whole, KeysInOrder, Before, After, AfterChild, PathOK;
      NodeInOrder(above, node, level, leafData);
      ret, slot := SearchForKeySlot(node, 0, key, prevCmp);
      if ret != 0 {
        assert slot > 0 ==> Less(KeyAt(node, slot - 1), key);
        assert slot < |node.ptrs| ==> Less(key, KeyAt(node, slot));
        if slot > 0 {
          slot := slot - 1;
        } else {
          assert 1 < |node.ptrs| ==> Less(key, KeyAt(node, 1));
        }
      } else {
        assert slot + 1 < |node.ptrs| ==> Less(KeyAt(node, slot), KeyAt(node, slot + 1)) by {
          NodeKeys(node);
        }
      }
      NodePlace(above, node.ptrs, slot, key, ret, level, leafData);
      TotalOrder(key, KeyAt(node, slot), key);
      PickIs(node.ptrs, key, slot);
    }

    /** setup_nodes_for_search: split or balance the node before going down. */
    method SetupNodesForSearch(insLen: int) returns (promoted: bool)
      requires OnPointer()
      requires insLen > 0 && above != [] ==> FrameLen(above[0]) < Cap() - 3
      requires insLen < 0 && above != [] ==> FrameLen(above[0]) >= 2
      modifies this`above, this`node, this`slot, this`level
      ensures Valid() && Whole(above, node) == old(Whole(above, node))
      ensures promoted ==> insLen < 0 && above == [] && level == old(level) - 1 && node == old(node.ptrs[slot].child)
      ensures !promoted ==> OnPointer() && level == old(level) && node.ptrs[slot] == old(node.ptrs[slot])
      ensures !promoted
              ==> Pre() == old(Pre()) && AfterChild(above, node.ptrs, slot) == old(AfterChild(above, node.ptrs, slot))
      ensures insLen > 0 ==> |node.ptrs| < Cap() - 3
      ensures insLen < 0 && !promoted ==> |node.ptrs| >= 2
      ensures insLen == 0 ==> above == old(above) && node == old(node) && slot == old(slot)
      // too full for an insertion, or not
      ensures insLen > 0 && old(|node.ptrs|) < Cap() - 3
              ==> above == old(above) && node == old(node) && slot == old(slot)
      ensures insLen > 0 && old(|node.ptrs|) >= Cap() - 3 && old(above) == []
              ==> above != [] && NodeRow() == CutAt(Row([old(node.ptrs)], 0, old(slot)), (old(|node.ptrs|) + 1) / 2)
      ensures insLen > 0 && old(|node.ptrs|) >= Cap() - 3 && old(above) != []
              ==> && above != [] && NodesFit(old(NodeRow()))
                  && var row := NodesPushed(old(NodeRow()), Cap());
                     var n := |row.blocks[row.at]|;
                     NodeRow() == if row != old(NodeRow()) && n < Cap() - 3 then row else CutAt(row, (n + 1) / 2)
      // too sparse for a deletion, or not
      ensures promoted <==> insLen < 0 && old(above) == [] && old(|node.ptrs|) == 1
      ensures insLen < 0 && !promoted && (old(above) == [] || old(|node.ptrs|) > Cap() / 4)
              ==> above == old(above) && node == old(node) && slot == old(slot)
      ensures insLen < 0 && old(above) != [] && old(|node.ptrs|) <= Cap() / 4
              ==> && above != [] && NodesFit(old(NodeRow())) && NodeRow() == Rebalanced(old(NodeRow()))
    {
      hide Sorted, CtxOK, Prefix, Suffix, Before, After, BlockPre, BlockPost, AfterChild, NodesOf, NodesPushed, CutAt,
        Rebalanced, NodesFit;
      ghost var p := node.ptrs[slot];
      PrefixSuffix(above, node, slot);
      SuffixChild(above, node.ptrs, slot);
      promoted := false;
      if insLen > 0 && |node.ptrs| >= Cap() - 3 {
        SplitNode();
      } else if insLen < 0 && |node.ptrs| < Cap() / 2 {
        promoted := BalanceLevel();
        if promoted {
          FlattenOne(p);
          assert old(node.ptrs) == [p];
          return;
        }
        // BUG_ON(btrfs_header_nritems(b) == 1)
        assert |node.ptrs| != 1;
      }
      SuffixChild(above, node.ptrs, slot);
      PrefixSuffix(above, node, slot);
    }

    /** btrfs_search_slot: walk from the root to the leaf for the key.  With insLen > 0
        nodes and leaves that are too full are split on the way, with insLen < 0 nodes
        that are too empty are balanced. */
    method SearchSlot(key: Key, insLen: int, searchForExtension: bool) returns (ret: int)
      requires Valid() && above == [] && insLen <= leafData
      requires insLen > 0 && !searchForExtension ==> insLen >= ITEM_HEADER
      modifies this`above, this`node, this`slot, this`level
      ensures ret in {0, 1, -EOVERFLOW} && level == 0 && node.Leaf? && slot <= |node.items|
      ensures Pre() + Post() == old(Whole(above, node))
      ensures Ready(key) && (ret != 1 || insLen <= 0 ==> Valid())
      ensures ret == 0 ==> slot < |node.items| && node.items[slot].key == key
      ensures ret == 1 ==> Below(Pre(), key) && Above(key, Post())
      ensures ret == -EOVERFLOW
              ==> insLen > 0 && TooBig(old(Whole(above, node)), key, Growth(insLen, searchForExtension), leafData)
      ensures ret == -EOVERFLOW
              <==> insLen > 0 && Overflows(LeafFor(old(node), key), key, Growth(insLen, searchForExtension), leafData)
      ensures ret >= 0 && insLen > 0
              ==> (if ret == 1 || searchForExtension then insLen else insLen - ITEM_HEADER)
                  <= Free(node.items, leafData)
      ensures insLen == 0 ==> Root() == old(Root())
      ensures insLen < 0 && above != [] ==> FrameLen(above[0]) >= 2
      ensures insLen <= 0 ==> node.items == LeafFor(old(node), key)
    {
      hide PathOK, Sorted, CtxOK, Below, Above, Prefix, Suffix, Whole, Before, After, Plug, AfterChild, Pick, Overflows;
      EmptyContext(key);
      var prevCmp := -1;
      while level > 0
        invariant Valid() && Surrounds(key)
        invariant prevCmp == 0 ==> BlockLen(node) > 0 && Low(node) == key
        invariant Whole(above, node) == old(Whole(above, node))
        invariant insLen > 0 && above != [] ==> FrameLen(above[0]) < Cap() - 3
        invariant insLen == 0 ==> Root() == old(Root())
        invariant LeafFor(node, key) == LeafFor(old(node), key)
        invariant insLen < 0 && above != [] ==> FrameLen(above[0]) >= 2
        decreases level
      {
        prevCmp := ChoosePointer(key, prevCmp);
        var promoted := SetupNodesForSearch(insLen);
        if promoted {
          // the root has changed: start over
          prevCmp := -1;
          EmptyContext(key);
        } else {
          Descend();
        }
      }
      BlockBottom(above, node, leafData);
      ret := SearchLeaf(key, if insLen > 0 then insLen else 0, prevCmp, searchForExtension);
    }

    lemma EmptyContext(key: Key)
      requires above == []
      ensures Surrounds(key)
    {
    }

    // ----- deletion -----

    /** btrfs_del_leaf: drop the pointer to an emptied leaf; the parent becomes the
        block of the path. */
    method DelLeaf()
      requires MIN_LEAF_DATA <= leafData && above != [] && FrameLen(above[0]) >= 2
      requires CtxOK(above, 0, above[0].key, leafData) && Sorted(Before(above) + After(above))
      modifies this`above, this`node, this`slot, this`level
      ensures Valid() && Whole(above, node) == old(Before(above) + After(above)) && |above| == |old(above)| - 1
              && level == 1
      ensures node == Node(old(above)[0].left + old(above)[0].right)
    {
      hide CtxOK, Sorted, Before, After, FixLow, Whole;
      HoleRemoved(above, leafData);
      var f := above[0];
      node, above, level, slot := Node(f.left + f.right), above[1..], 1, 0;
      if f.left == [] {
        FixLowKeeps(above, f.right[0].key);
        FixupLowKeys(f.right[0].key);
      }
    }

    /** The end of btrfs_del_items: try to empty a sparse leaf into its neighbours,
        the right one only if it takes everything, and drop it when that works. */
    method MergeLeaf()
      requires OnLeaf() && (above != [] ==> FrameLen(above[0]) >= 2)
      modifies this`above, this`node, this`slot, this`level
      ensures Valid() && Whole(above, node) == old(Whole(above, node))
      ensures old(above) == [] ==> level == 0 && above == [] && node == old(node) && slot == old(slot)
      ensures old(above) != []
              ==> && RowOK(old(LeafRow()))
                  && var was, row := old(LeafRow()), Merged(old(LeafRow()), leafData);
                     if |row.blocks| < |was.blocks| then level == 1 && LeavesHere(row.blocks)
                     else level == 0 && above != [] && LeafRow() == row
    {
      hide PathOK, Space, ItemSpace, Fits, LeavesOf, GiveLeft, Dropped;
      var gone, onLeaf := false, true;
      if above == [] {
        return;
      }
      RowHere();
      ghost var row := LeafRow();
      if above[0].left != [] {
        gone, onLeaf := DrainLeft();
      }
      if !gone && onLeaf {
        RowHere();
        assert LeafRow().at == row.at && |LeafRow().blocks| == |row.blocks|;
        if above[0].right != [] {
          DrainRight();
        }
      }
    }

    /** The path stands on the parent of these leaves. */
    ghost predicate LeavesHere(leaves: seq<seq<Item>>)
      reads this
    {
      node.Node? && LeavesOf(node.ptrs) == leaves
    }

    /** push_leaf_left with empty set, followed by btrfs_del_leaf when nothing stays. */
    method DrainLeft() returns (gone: bool, onLeaf: bool)
      requires OnLeaf() && above != [] && above[0].left != []
      modifies this`above, this`node, this`slot, this`level
      ensures Valid() && Whole(above, node) == old(Whole(above, node))
      ensures !gone ==> OnLeaf() && |above| == |old(above)| && FrameLen(above[0]) == FrameLen(old(above)[0])
      ensures !gone && onLeaf ==> above[0].right == old(above)[0].right
      ensures RowOK(old(LeafRow())) && 0 < old(LeafRow()).at
      ensures var row := old(LeafRow());
              var k := Fits(row.blocks[row.at], Free(row.blocks[row.at - 1], leafData));
              && (gone <==> k == |row.blocks[row.at]|) && (onLeaf <==> k <= row.slot || gone)
              && if gone then level == 1 && LeavesHere(Dropped(GiveLeft(row, k).blocks, row.at))
                 else LeafRow() == if k == 0 then row else GiveLeft(row, k)
    {
      hide Space, ItemSpace, PairOK, PathOK, Sorted, CtxOK, LeafPairPrefix, LeafPairSuffix, Prefix, Suffix, Before,
        After, FlattenPtrs, Fits, LeavesOf, GiveLeft, Dropped, Pair;
      gone, onLeaf := false, true;
      RowHere();
      LeafPairFromRight(above, node.items, slot, leafData);
      PrefixSuffix(above, node, slot);
      var f, right := above[0], node.items;
      var l, left := InitOf(f.left), LastOf(f.left).child.items;
      LeafSiblingOrder(l, left, right, f.right, above[1..], leafData);
      assert !BadLeafOrder(left, right);
      var freeSpace := Free(left, leafData);
      NoRoom(right, freeSpace);
      if freeSpace < ItemSpace(right[0]) {
        return;
      }
      var push := LeftPush(right, slot, 0, true, freeSpace, |right|, leafData);
      DrainsFirst(right, slot, freeSpace, leafData);
      if push == |right| {
        assert right[..push] == right;
        PairSortedItems(above, left, right, leafData);
        DrainedLeft(l, left, right, f.key, f.right, above[1..], leafData);
        ParentOfRight();
        LeavesJoinedLeft(l, left, right, f.right, slot);
        above, node, slot := [Frame(l + [Ptr(left[0].key, Leaf(left + right))], f.key, f.right)] + above[1..],
          Leaf([]), 0;
        DelLeaf();
        gone := true;
      } else if push > 0 {
        onLeaf := slot >= push;
        GiveItemsLeft(push);
        PrefixSuffix(above, node, slot);
      }
    }

    /** push_leaf_right with empty set, followed by btrfs_del_leaf. */
    method DrainRight()
      requires OnLeaf() && above != [] && above[0].right != []
      modifies this`above, this`node, this`slot, this`level
      ensures Valid() && Whole(above, node) == old(Whole(above, node))
      ensures RowOK(old(LeafRow())) && old(LeafRow()).at + 1 < |old(LeafRow()).blocks|
      ensures var row := old(LeafRow());
              var cur, next := row.blocks[row.at], row.blocks[row.at + 1];
              if Space(cur) <= Free(next, leafData)
              then level == 1 && LeavesHere(Dropped(row.blocks[row.at + 1 := cur + next], row.at))
              else level == 0 && above == old(above) && node == old(node) && slot == old(slot)
    {
      hide PairOK, PathOK, Sorted, CtxOK, LeafPairPrefix, LeafPairSuffix, Prefix, Suffix, Before, After, FlattenPtrs,
        LeavesOf, Dropped, Pair, Space;
      RowHere();
      LeafPairFromLeft(above, node.items, slot, leafData);
      PrefixSuffix(above, node, slot);
      var f, left := above[0], node.items;
      var r, right := f.right[1..], f.right[0].child.items;
      LeafSiblingOrder(f.left, left, right, r, above[1..], leafData);
      assert !BadLeafOrder(left, right);
      var freeSpace := Free(right, leafData);
      if freeSpace < Space(left) {
        return;
      }
      var push := RightPush(left, slot, 0, true, freeSpace, 0, leafData);
      DrainsAll(left, slot, freeSpace, leafData);
      assert left[..|left| - push] == [] && left[|left| - push..] == left;
      PairSortedItems2(above, left, right, leafData);
      DrainedRight(f.left, left, right, left[0].key, r, above[1..], leafData);
      ParentOfLeft();
      LeavesJoinedRight(f.left, left, right, r, slot);
      above, node, slot := [Frame(f.left, left[0].key, [Ptr(left[0].key, Leaf(left + right))] + r)] + above[1..],
        Leaf([]), 0;
      DelLeaf();
    }

    /** btrfs_del_items: remove nr items from the slot on. */
    method DelItems(nr: nat)
      requires OnLeaf() && 1 <= nr <= |node.items| - slot && (above != [] ==> FrameLen(above[0]) >= 2)
      modifies this`above, this`node, this`slot, this`level
      ensures Valid() && Whole(above, node) == old(Pre() + Post()[nr..])
      ensures old(above) == []
              ==> level == 0 && above == [] && node == Leaf(old(node.items[..slot] + node.items[slot + nr..]))
      ensures old(above) != []
              ==> && RowOK(old(LeafRow()))
                  && var row, rest := old(LeafRow()), old(node.items[..slot] + node.items[slot + nr..]);
                     var kept := Row(row.blocks[row.at := rest], row.at, row.slot);
                     // an emptied leaf goes, one that is under a third full is tried on its neighbours
                     if rest == [] then level == 1 && LeavesHere(row.blocks[..row.at] + row.blocks[row.at + 1..])
                     else if Space(rest) >= leafData / 3 then level == 0 && above != [] && LeafRow() == kept
                     else if |Merged(kept, leafData).blocks| < |row.blocks|
                     then level == 1 && LeavesHere(Merged(kept, leafData).blocks)
                     else level == 0 && above != [] && LeafRow() == Merged(kept, leafData)
    {
      hide Sorted, CtxOK, FlattenPtrs, Before, After, Prefix, Suffix, PathOK, Space, LeavesOf, Merged, Whole;
      LeafFits();
      ghost var whole := Before(above) + (node.items[..slot] + node.items[slot + nr..]) + After(above);
      LeafIsReady(node.items[0].key);
      assert node == Leaf(node.items);
      if above != [] {
        RowHere();
      }
      RemoveWhole(above, node.items, slot, nr);
      RemoveSpace(node.items, slot, nr);
      var items := node.items[..slot] + node.items[slot + nr..];
      if items == [] {
        assert whole == Before(above) + After(above);
        EmptiedLeaf(above, node.items, leafData);
        DropLeaf();
      } else {
        KeepRest(items);
      }
    }

    /** Nothing stays on the leaf. */
    method DropLeaf()
      requires OnLeaf() && Sorted(Before(above) + After(above))
      requires above != [] ==> FrameLen(above[0]) >= 2 && CtxOK(above, 0, above[0].key, leafData)
      modifies this`above, this`node, this`slot, this`level
      ensures Valid() && Whole(above, node) == old(Before(above) + After(above))
      ensures old(above) == [] ==> level == 0 && above == [] && node == Leaf([])
      ensures old(above) != []
              ==> && RowOK(old(LeafRow()))
                  && var row := old(LeafRow());
                     level == 1 && LeavesHere(row.blocks[..row.at] + row.blocks[row.at + 1..])
    {
      hide Sorted, CtxOK, FlattenPtrs, Prefix, Suffix, LeavesOf;
      EmptiedLeaf(above, node.items, leafData);
      if above != [] {
        RowHere();
        LeavesAround(above[0].left, Ptr(above[0].key, node), above[0].right);
        LeavesConcat(above[0].left, above[0].right);
      }
      node, slot := Leaf([]), 0;
      if above != [] {
        DelLeaf();
      }
    }

    /** Some items stay on the leaf. */
    method KeepRest(items: seq<Item>)
      requires OnLeaf() && items != [] && Space(items) <= leafData && (slot > 0 ==> items[0] == node.items[0])
      requires Sorted(Before(above) + items + After(above)) && slot <= |items|
      requires above != [] ==> FrameLen(above[0]) >= 2
      modifies this`above, this`node, this`slot, this`level
      ensures Valid() && Whole(above, node) == old(Before(above) + items + After(above))
      ensures old(above) == [] ==> level == 0 && above == [] && node == Leaf(items)
      ensures old(above) != []
              ==> && RowOK(old(LeafRow()))
                  && var row := old(LeafRow());
                     var kept := Row(row.blocks[row.at := items], row.at, row.slot);
                     if Space(items) >= leafData / 3 then level == 0 && above != [] && LeafRow() == kept
                     else if |Merged(kept, leafData).blocks| < |row.blocks|
                     then level == 1 && LeavesHere(Merged(kept, leafData).blocks)
                     else level == 0 && above != [] && LeafRow() == Merged(kept, leafData)
    {
      hide Sorted, CtxOK, FlattenPtrs, Before, After, Prefix, Suffix, PathOK, Space, LeavesOf, Merged;
      KeepItems(items);
      if Space(items) < leafData / 3 {
        MergeLeaf();
      }
    }

    /** The leaf keeps only these items; a new first key goes into the separators. */
    method KeepItems(items: seq<Item>)
      requires OnLeaf() && items != [] && Space(items) <= leafData && (slot > 0 ==> items[0] == node.items[0])
      requires Sorted(Before(above) + items + After(above))
      modifies this`above, this`node, this`slot
      ensures OnLeaf() && |above| == |old(above)| && Whole(above, node) == old(Before(above) + items + After(above))
      ensures above != []
              ==> FrameLen(above[0]) == FrameLen(old(above)[0]) && above[0].left == old(above)[0].left
                  && above[0].right == old(above)[0].right
      ensures Before(above) == old(Before(above)) && After(above) == old(After(above))
      ensures above != []
              ==> && RowOK(old(LeafRow()))
                  && LeafRow() == Row(old(LeafRow()).blocks[|above[0].left| := items], |above[0].left|, slot)
      ensures node == Leaf(items) && level == 0 && (old(slot) <= |items| ==> slot == old(slot))
    {
      hide Sorted, CtxOK, FlattenPtrs, Before, After, LeavesOf;
      ghost var was := above;
      if above != [] {
        RowHere();
        LeavesAround(above[0].left, Ptr(above[0].key, node), above[0].right);
      }
      if slot == 0 {
        FixLowOK(above, items[0].key, 0, node.items[0].key, leafData);
        FixLowKeeps(above, items[0].key);
        FixupLowKeys(items[0].key);
      }
      node := Leaf(items);
      slot := if slot <= |items| then slot else |items|;
      if above != [] {
        LeavesAround(above[0].left, Ptr(above[0].key, node), above[0].right);
      }
    }

    /** The item under the slot is replaced by a smaller one, perhaps with another key
        between the same neighbours. */
    method ChangeItem(it: Item)
      requires OnLeaf() && slot < |node.items| && ItemSpace(it) <= ItemSpace(node.items[slot])
      requires Sorted(Pre() + [it] + Post()[1..])
      modifies this`above, this`node, this`slot
      ensures OnLeaf() && node == old(Leaf(node.items[slot := it])) && slot == old(slot)
      ensures Pre() == old(Pre()) && Post() == old([it] + Post()[1..])
    {
      hide Sorted, CtxOK, Before, After, Space, ItemSpace, PathOK;
      ReplacedSpace(node.items, slot, it);
      ReplacedParts(above, node.items, slot, it);
      LeafFits();
      KeepItems(node.items[slot := it]);
    }
  }

  /** A new empty leaf on either side of another one. */
  lemma LeavesBeside(l: seq<Ptr>, p: Ptr, r: seq<Ptr>, key: Key)
    ensures var leaves := LeavesOf(l + [p] + r);
            && LeavesOf(l + [p] + [Ptr(key, Leaf([]))] + r) == leaves[..|l| + 1] + [[]] + leaves[|l| + 1..]
            && LeavesOf(l + [Ptr(key, Leaf([]))] + ([p] + r)) == leaves[..|l|] + [[]] + leaves[|l|..]
  {
    hide LeavesOf;
    var q := Ptr(key, Leaf([]));
    LeavesConcat(l + [p], r);
    LeavesConcat(l, [p]);
    LeavesConcat(l + [p] + [q], r);
    LeavesConcat(l + [p], [q]);
    LeavesConcat(l + [q], [p] + r);
    LeavesConcat(l, [q]);
    LeavesConcat([p], r);
    OneLeaf(p);
    OneLeaf(q);
  }

  lemma LeavesAround(l: seq<Ptr>, p: Ptr, r: seq<Ptr>)
    ensures LeavesOf(l + [p] + r) == LeavesOf(l) + [BlockItems(p.child)] + LeavesOf(r)
  {
    hide LeavesOf;
    LeavesConcat(l + [p], r);
    LeavesConcat(l, [p]);
    OneLeaf(p);
  }

  lemma LeavesOfPair(l: seq<Ptr>, a: seq<Item>, b: seq<Item>, r: seq<Ptr>)
    ensures LeavesOf(Pair(l, Leaf(a), Leaf(b), r)) == LeavesOf(l) + [a, b] + LeavesOf(r)
  {
    hide LeavesOf;
    var p, q := Ptr(Low(Leaf(a)), Leaf(a)), Ptr(Low(Leaf(b)), Leaf(b));
    assert Pair(l, Leaf(a), Leaf(b), r) == (l + [p]) + [q] + r;
    LeavesAround(l + [p], q, r);
    LeavesConcat(l, [p]);
    OneLeaf(p);
  }

  /** A leaf that went into its left neighbour, and into its right one. */
  lemma LeavesJoinedLeft(l: seq<Ptr>, a: seq<Item>, b: seq<Item>, r: seq<Ptr>, slot: nat)
    requires a != [] && b != [] && slot <= |b|
    ensures var row := Row(LeavesOf(Pair(l, Leaf(a), Leaf(b), r)), |l| + 1, slot);
            && RowOK(row) && row.blocks[row.at] == b
            && LeavesOf(l + [Ptr(a[0].key, Leaf(a + b))] + r) == Dropped(GiveLeft(row, |b|).blocks, row.at)
  {
    hide LeavesOf;
    LeavesOfPair(l, a, b, r);
    LeavesAround(l, Ptr(a[0].key, Leaf(a + b)), r);
    assert b[..|b|] == b;
  }

  lemma LeavesJoinedRight(l: seq<Ptr>, a: seq<Item>, b: seq<Item>, r: seq<Ptr>, slot: nat)
    requires a != [] && b != []
    ensures var blocks, at := LeavesOf(Pair(l, Leaf(a), Leaf(b), r)), |l|;
            && at + 1 < |blocks| && blocks[at] == a && blocks[at + 1] == b
            && LeavesOf(l + ([Ptr(a[0].key, Leaf(a + b))] + r)) == Dropped(blocks[at + 1 := a + b], at)
  {
    hide LeavesOf;
    LeavesOfPair(l, a, b, r);
    var p := Ptr(a[0].key, Leaf(a + b));
    assert l + ([p] + r) == l + [p] + r;
    LeavesAround(l, p, r);
  }

  lemma OptLen(a: seq<Ptr>)
    ensures |Opt(a)| == if a == [] then 0 else 1
  {
  }

  lemma OptLens(a: seq<Ptr>, b: seq<Ptr>, c: seq<Ptr>, a': seq<Ptr>, b': seq<Ptr>, c': seq<Ptr>)
    requires (a == [] <==> a' == []) && b != [] && (c == [] ==> c' == [])
    ensures |Opt(a')| == |Opt(a)| && |Opt(b')| == (if b' == [] then 0 else 1)
    ensures |Opt(c')| == |Opt(c)| - (if c' == [] && c != [] then 1 else 0) && |Opt(b)| == 1
    ensures |Opt(c)| == (if c == [] then 0 else 1) && |Opt(a)| == (if a == [] then 0 else 1)
  {
  }

  lemma FrameOf(ps: seq<Ptr>, j: nat, tail: seq<Frame>)
    requires j < |ps|
    ensures var above := FrameAt(ps, j, tail);
            && above != [] && above[1..] == tail && |above| == |tail| + 1 && |above[0].left| == j
            && above[0].left + [Ptr(above[0].key, ps[j].child)] + above[0].right == ps
            && FrameLen(above[0]) == |ps|
  {
  }

  lemma PtrsFit(ps: seq<Ptr>, level: nat, leafData: nat)
    requires level > 0 && PtrsOK(ps, level, leafData)
    ensures forall i :: 0 <= i < |ps| ==> |NodesOf(ps)[i]| <= Capacity(leafData)
  {
    forall i | 0 <= i < |ps| ensures |NodesOf(ps)[i]| <= Capacity(leafData) {
      assert PtrOK(ps[i], level, leafData);
      assert BlockOK(ps[i].child, level, leafData);
    }
  }

  lemma OneNodeOf(p: Ptr)
    ensures NodesOf([p]) == [NodePtrs(p.child)]
  {
  }

  /** The same entries, cut at another place. */
  lemma SplitsAt<T>(a: seq<T>, b: seq<T>, a': seq<T>, b': seq<T>)
    requires a' + b' == a + b
    ensures |a'| >= |a| ==> a' == a + b[..|a'| - |a|] && b' == b[|a'| - |a|..]
    ensures |a'| <= |a| ==> a' == a[..|a'|] && b' == a[|a'|..] + b
  {
    assert a' == (a' + b')[..|a'|] && b' == (a' + b')[|a'|..];
  }

  /** Sound siblings are not empty, and know their lowest keys. */
  lemma PairFull(l: seq<Ptr>, a: Block, b: Block, r: seq<Ptr>, tail: seq<Frame>, level: nat, leafData: nat)
    requires PairOK(l, a, b, r, tail, level, leafData)
    ensures BlockLen(a) > 0 && BlockLen(b) > 0
    ensures a.Leaf? ==> Low(a) == a.items[0].key
    ensures b.Leaf? ==> Low(b) == b.items[0].key
    ensures a.Node? ==> Low(a) == a.ptrs[0].key
    ensures b.Node? ==> Low(b) == b.ptrs[0].key
  {
    PairBlocks(l, a, b, r, tail, level, leafData);
  }

  lemma ReplacedSpace(items: seq<Item>, slot: nat, it: Item)
    requires slot < |items|
    ensures Space(items[slot := it]) == Space(items) - ItemSpace(items[slot]) + ItemSpace(it)
  {
    hide ItemSpace;
    var items' := items[slot := it];
    SpaceSplit(items, slot);
    SpaceSplit(items', slot);
    SpaceOne(items, slot);
    SpaceOne(items', slot);
    assert items[..slot] == items'[..slot] && items[slot + 1..] == items'[slot + 1..];
  }

  lemma ReplacedParts(above: seq<Frame>, items: seq<Item>, slot: nat, it: Item)
    requires slot < |items|
    ensures Prefix(above, Leaf(items[slot := it]), slot) == Prefix(above, Leaf(items), slot)
    ensures Suffix(above, Leaf(items[slot := it]), slot) == [it] + Suffix(above, Leaf(items), slot)[1..]
    ensures Before(above) + items[slot := it] + After(above)
         == Prefix(above, Leaf(items), slot) + [it] + Suffix(above, Leaf(items), slot)[1..]
  {
    hide Before, After;
  }

  /** The edits in the parent give the pointers to the three balanced nodes. */
  lemma BalancedParent(above: seq<Frame>, mid: seq<Ptr>, left': seq<Ptr>, mid': seq<Ptr>, right': seq<Ptr>, level: nat,
      leafData: nat)
    requires above != [] && level > 0 && PathOK(above, Node(mid), level, leafData)
    requires var left := if above[0].left == [] then [] else NodePtrs(LastOf(above[0].left).child);
             var right := if above[0].right == [] then [] else NodePtrs(above[0].right[0].child);
             && left' + mid' + right' == left + mid + right && (left == [] <==> left' == [])
                && (right == [] ==> right' == [])
    ensures var f := above[0]; var ps := f.left + [Ptr(f.key, Node(mid))] + f.right;
            var l := if f.left == [] then [] else InitOf(f.left);
            var r := if f.right == [] then [] else f.right[1..];
            && |l| + |Opt(left')| == |f.left|
            && BalanceEdit(ps, |f.left|, f.left != [], f.right != [], left', mid', right')
               == Children(l, left', mid', right', r)
  {
    hide PathOK, ParentOK, Children, PtrsSorted, BalanceEdit;
    ThreeFromPath(above, mid, level, leafData);
    var left := if above[0].left == [] then [] else NodePtrs(LastOf(above[0].left).child);
    var right := if above[0].right == [] then [] else NodePtrs(above[0].right[0].child);
    if left != [] {
      assert left' + (mid' + right') == left' + mid' + right' && left + (mid + right) == left + mid + right;
      SameFirst(left, mid + right, left', mid' + right');
    }
    BalanceEditIs(if above[0].left == [] then [] else InitOf(above[0].left), left, mid, right, left', mid', right',
                  if above[0].right == [] then [] else above[0].right[1..]);
  }

  /** Bytes an item that is already there is to grow by. */
  function Growth(insLen: int, searchForExtension: bool): int {
    if searchForExtension then insLen else insLen - ITEM_HEADER
  }

  /** Only the item under the slot has the key, so it decides whether it can grow. */
  lemma TooBigHere(above: seq<Frame>, items: seq<Item>, slot: nat, found: int, key: Key, more: int, leafData: nat)
    requires slot <= |items| && Sorted(items) && found in {0, 1}
    requires found == 0 ==> slot < |items| && items[slot].key == key
    requires found == 1 ==> Below(Prefix(above, Leaf(items), slot), key) && Above(key, Suffix(above, Leaf(items), slot))
    ensures TooBig(items, key, more, leafData) <==> found == 0 && more + ItemSpace(items[slot]) > leafData
  {
    hide Prefix, Suffix, Below, Above, ItemSpace;
    forall i | 0 <= i < |items| && (found == 1 || i != slot) ensures items[i].key != key {
      if found == 0 {
        TotalOrder(items[i].key, items[slot].key, key);
      } else {
        NotHere(above, items, slot, key, i);
      }
    }
  }

  lemma NotHere(above: seq<Frame>, items: seq<Item>, slot: nat, key: Key, i: nat)
    requires slot <= |items| && i < |items|
    requires Below(Prefix(above, Leaf(items), slot), key) && Above(key, Suffix(above, Leaf(items), slot))
    ensures items[i].key != key
  {
    hide Before, After, Less;
    TotalOrder(key, key, key);
    if i < slot {
      assert Prefix(above, Leaf(items), slot)[|Before(above)| + i] == items[i];
    } else {
      assert Suffix(above, Leaf(items), slot)[i - slot] == items[i];
    }
  }

  lemma EmptiedLeaf(above: seq<Frame>, items: seq<Item>, leafData: nat)
    requires PathOK(above, Leaf(items), 0, leafData) && Sorted(Before(above) + After(above))
    ensures above != [] ==> CtxOK(above, 0, above[0].key, leafData)
    ensures above == [] ==> PathOK([], Leaf([]), 0, leafData)
    ensures Whole(above, Leaf([])) == Before(above) + After(above)
  {
    assert Before(above) + [] + After(above) == Before(above) + After(above);
  }

  lemma NoRoom(items: seq<Item>, free: int)
    requires items != []
    ensures free < ItemSpace(items[0]) ==> Fits(items, free) == 0
    ensures ItemSpace(items[0]) > 0 && items[0..] == items
  {
  }

  lemma DrainsFirst(items: seq<Item>, slot: nat, free: int, leafData: nat)
    requires items != []
    ensures var push := LeftPush(items, slot, 0, true, free, |items|, leafData);
            && push == Fits(items, free) && (push > 0 ==> Space(items[..push]) <= free)
            && Space(items[..push]) + Space(items[push..]) == Space(items)
  {
    hide Space, ItemSpace, Fits, LeftRun;
    var push := LeftPush(items, slot, 0, true, free, |items|, leafData);
    LeftRunStops(items, 0, slot, 0, true, free, |items|, leafData);
    SpaceSplit(items, push);
    if push > 0 {
      FitsMost(items, free, push);
    }
    if push < |items| {
      FitsMost(items, free, push + 1);
    }
  }

  lemma DrainsAll(items: seq<Item>, slot: nat, free: int, leafData: nat)
    requires items != [] && Space(items) <= free
    ensures RightPush(items, slot, 0, true, free, 0, leafData) == |items|
  {
    hide Space, RightRun;
    var push := RightPush(items, slot, 0, true, free, 0, leafData);
    RightRunStops(items, |items|, slot, 0, true, free, 0, leafData);
    if push < |items| {
      var i := |items| - push - 1;
      SpaceSplit(items, i);
    }
  }

  lemma PairSortedItems(above: seq<Frame>, left: seq<Item>, right: seq<Item>, leafData: nat)
    requires above != [] && above[0].left != [] && PathOK(above, Leaf(right), 0, leafData)
             && LastOf(above[0].left).child == Leaf(left)
    ensures var f := above[0];
            var items := PairItems(InitOf(f.left), Leaf(left), Leaf(right), f.right, above[1..]);
            items == Whole(above, Leaf(right)) && Sorted(items)
  {
    hide Sorted, CtxOK, FlattenPtrs, Before, After;
    PairWithLeft(above, Leaf(right), 0, leafData);
    RightItems(InitOf(above[0].left), Leaf(left), Leaf(right), above[0].right, above[1..]);
  }

  lemma PairSortedItems2(above: seq<Frame>, left: seq<Item>, right: seq<Item>, leafData: nat)
    requires above != [] && above[0].right != [] && PathOK(above, Leaf(left), 0, leafData)
             && above[0].right[0].child == Leaf(right)
    ensures var f := above[0];
            var items := PairItems(f.left, Leaf(left), Leaf(right), f.right[1..], above[1..]);
            items == Whole(above, Leaf(left)) && Sorted(items)
  {
    hide Sorted, CtxOK, FlattenPtrs, Before, After;
    PairWithRight(above, Leaf(left), 0, leafData);
    LeftItems(above[0].left, Leaf(left), Leaf(right), above[0].right[1..], above[1..]);
  }

  lemma RemoveSpace(items: seq<Item>, slot: nat, nr: nat)
    requires slot + nr <= |items|
    ensures Space(items[..slot] + items[slot + nr..]) <= Space(items)
  {
    SpaceSplit(items, slot);
    SpaceConcat(items[..slot], items[slot + nr..]);
    SpaceSplit(items[slot..], nr);
    assert items[slot..][nr..] == items[slot + nr..];
  }

  lemma Regroup7<T>(t: seq<T>, a: seq<T>, m: seq<T>, b: seq<T>, u: seq<T>)
    ensures t + (a + m + b) + u == (t + a) + m + (b + u)
    ensures t + (a + b) + u == (t + a) + (b + u)
  {
  }

  lemma DropFront<T>(m: seq<T>, b: seq<T>, u: seq<T>)
    ensures ((m + b) + u)[|m|..] == b + u
  {
  }

  lemma RemoveWhole(above: seq<Frame>, items: seq<Item>, slot: nat, nr: nat)
    requires slot + nr <= |items| && Sorted(Whole(above, Leaf(items)))
    ensures var rest := Before(above) + (items[..slot] + items[slot + nr..]) + After(above);
            && Sorted(rest)
            && rest == Prefix(above, Leaf(items), slot) + Suffix(above, Leaf(items), slot)[nr..]
  {
    hide Sorted, Before, After;
    var a, m, b := items[..slot], items[slot..slot + nr], items[slot + nr..];
    assert items == a + m + b;
    Regroup7(Before(above), a, m, b, After(above));
    SortedRemove(Before(above) + a, m, b + After(above));
    assert items[slot..] == m + b;
    DropFront(m, b, After(above));
  }

  lemma NodeKeys(t: Block)
    requires KeysInOrder(t)
    ensures forall i :: 0 <= i && i + 1 < BlockLen(t) ==> Less(KeyAt(t, i), KeyAt(t, i + 1))
  {
  }

  /** Items behind the child under the slot. */
  function AfterChild(above: seq<Frame>, ptrs: seq<Ptr>, slot: nat): seq<Item>
    requires slot < |ptrs|
  {
    FlattenPtrs(ptrs[slot + 1..]) + After(above)
  }

  lemma SuffixChild(above: seq<Frame>, ptrs: seq<Ptr>, slot: nat)
    requires slot < |ptrs|
    ensures Suffix(above, Node(ptrs), slot) == Flatten(ptrs[slot].child) + AfterChild(above, ptrs, slot)
    ensures AfterChild(above, ptrs, slot) == Suffix(above, Node(ptrs), slot)[|Flatten(ptrs[slot].child)|..]
  {
    FlattenAt(ptrs, slot);
  }

  lemma ChildSound(above: seq<Frame>, ptrs: seq<Ptr>, slot: nat, level: nat, leafData: nat)
    requires level > 0 && slot < |ptrs| && PathOK(above, Node(ptrs), level, leafData)
    ensures BlockLen(ptrs[slot].child) > 0
    ensures var above' := FrameAt(ptrs, slot, above);
            && PathOK(above', ptrs[slot].child, level - 1, leafData)
            && Low(ptrs[slot].child) == ptrs[slot].key
            && Before(above') == Prefix(above, Node(ptrs), slot) && After(above') == AfterChild(above, ptrs, slot)
            && Whole(above', ptrs[slot].child) == Whole(above, Node(ptrs))
            && Plug(above', ptrs[slot].child) == Plug(above, Node(ptrs))
            && FrameLen(above'[0]) == |ptrs|
  {
    hide Sorted, FlattenPtrs, Before, After, CtxOK;
    assert BlockOK(Node(ptrs), level, leafData);
    assert ParentOK(ptrs, above, level - 1, leafData);
    ParentToPath(ptrs, slot, above, level - 1, leafData);
    ParentItems(ptrs, slot, above);
    assert PtrOK(ptrs[slot], level - 1, leafData);
    var above' := FrameAt(ptrs, slot, above);
    assert above'[1..] == above;
    assert ptrs[..slot] + [Ptr(ptrs[slot].key, ptrs[slot].child)] + ptrs[slot + 1..] == ptrs;
  }

  lemma NodeInOrder(above: seq<Frame>, node: Block, level: nat, leafData: nat)
    requires level > 0 && PathOK(above, node, level, leafData)
    ensures node.Node? && node.ptrs != [] && |node.ptrs| <= Capacity(leafData) && KeysInOrder(node)
            && Low(node) == KeyAt(node, 0)
  {
    hide Sorted, FlattenPtrs;
    assert BlockOK(node, level, leafData);
    SortedMiddle(Before(above), FlattenPtrs(node.ptrs), After(above));
    KeysSorted(node.ptrs, level - 1, leafData);
  }

  lemma RightPlace(ptrs: seq<Ptr>, slot: nat, key: Key, level: nat, leafData: nat)
    requires level > 0 && slot + 1 < |ptrs| && PtrsOK(ptrs, level - 1, leafData) && Sorted(FlattenPtrs(ptrs))
    requires Less(key, ptrs[slot + 1].key)
    ensures Above(key, FlattenPtrs(ptrs[slot + 1..]))
  {
    hide Sorted, PtrsOK;
    SeparatorBounds(ptrs, slot + 1, level - 1, leafData);
    FlattenSplit(ptrs, slot + 1);
    SortedParts(FlattenPtrs(ptrs[..slot + 1]), FlattenPtrs(ptrs[slot + 1..]));
    AboveRight(key, ptrs[slot + 1].key, FlattenPtrs(ptrs[slot + 1..]));
  }

  /** What the slot found in a node says about the whole tree. */
  lemma NodePlace(above: seq<Frame>, ptrs: seq<Ptr>, slot: nat, key: Key, ret: int, level: nat, leafData: nat)
    requires level > 0 && slot < |ptrs| && PathOK(above, Node(ptrs), level, leafData)
    requires Below(Before(above), key) && Above(key, After(above))
    requires ret == 0 ==> ptrs[slot].key == key
    requires ret != 0 ==> (Less(ptrs[slot].key, key) || slot == 0)
    requires ret != 0 && slot + 1 < |ptrs| ==> Less(key, ptrs[slot + 1].key)
    ensures Below(Prefix(above, Node(ptrs), slot), key)
    ensures Above(key, AfterChild(above, ptrs, slot))
  {
    hide CtxOK, Sorted, PtrsOK, Before, After;
    assert BlockOK(Node(ptrs), level, leafData);
    assert Flatten(Node(ptrs)) == FlattenPtrs(ptrs);
    SortedMiddle(Before(above), FlattenPtrs(ptrs), After(above));
    SeparatorBounds(ptrs, slot, level - 1, leafData);
    BelowLeft(FlattenPtrs(ptrs[..slot]), ptrs[slot].key, key, slot == 0 || ret == 0);
    if slot + 1 < |ptrs| {
      KeysSorted(ptrs, level - 1, leafData);
      RightPlace(ptrs, slot, key, level, leafData);
    }
  }

  lemma BelowLeft(items: seq<Item>, sep: Key, key: Key, trivial: bool)
    requires Below(items, sep)
    requires trivial ==> items == [] || sep == key
    requires !trivial ==> Less(sep, key)
    ensures Below(items, key)
  {
    forall i | 0 <= i < |items| ensures Less(items[i].key, key) {
      TotalOrder(items[i].key, sep, key);
    }
  }

  lemma AboveRight(key: Key, sep: Key, items: seq<Item>)
    requires Less(key, sep) && Sorted(items) && items != [] && items[0].key == sep
    ensures Above(key, items)
  {
    forall i | 0 <= i < |items| ensures Less(key, items[i].key) {
      TotalOrder(key, sep, items[i].key);
    }
  }

  lemma BlockBottom(above: seq<Frame>, node: Block, leafData: nat)
    requires PathOK(above, node, 0, leafData)
    ensures node.Leaf? && Space(node.items) <= leafData && (above != [] ==> node.items != [])
  {
  }

  lemma InsertSpace(items: seq<Item>, slot: nat, batch: seq<Item>)
    requires slot <= |items|
    ensures Space(items[..slot] + batch + items[slot..]) == Space(items) + Space(batch)
  {
    SpaceSplit(items, slot);
    SpaceConcat(items[..slot], batch);
    SpaceConcat(items[..slot] + batch, items[slot..]);
  }

  lemma LeafInOrder(above: seq<Frame>, items: seq<Item>)
    requires Sorted(Whole(above, Leaf(items)))
    ensures Sorted(items) && KeysInOrder(Leaf(items))
  {
    SortedMiddle(Before(above), items, After(above));
  }

  /** What the slot found in a leaf says about the whole tree. */
  lemma LeafPlace(above: seq<Frame>, items: seq<Item>, slot: nat, key: Key, ret: int)
    requires slot <= |items| && Sorted(items)
    requires Below(Before(above), key) && Above(key, After(above))
    requires ret == 1 && slot < |items| ==> Less(key, items[slot].key)
    requires ret == 1 && slot > 0 ==> Less(items[slot - 1].key, key)
    ensures ret == 1 ==> Below(Prefix(above, Leaf(items), slot), key) && Above(key, Suffix(above, Leaf(items), slot))
  {
    if ret == 1 {
      forall i | 0 <= i < slot ensures Less(items[i].key, key) {
        if i < slot - 1 {
          TotalOrder(items[i].key, items[slot - 1].key, key);
        }
      }
      forall i | slot <= i < |items| ensures Less(key, items[i].key) {
        if i > slot {
          TotalOrder(key, items[slot].key, items[i].key);
        }
      }
    }
  }

  lemma PromoteOnly(c: seq<Ptr>, level: nat, leafData: nat)
    requires level > 0 && |c| == 1 && PathOK([], Node(c), level, leafData)
    ensures PathOK([], c[0].child, level - 1, leafData)
    ensures Flatten(Node(c)) == Flatten(c[0].child)
  {
    assert BlockOK(Node(c), level, leafData);
    assert PtrsOK(c, level - 1, leafData);
    assert PtrOK(c[0], level - 1, leafData);
    FlattenOne(c[0]);
    assert c == [c[0]];
  }

  /** Cutting a node in two under a parent that has room for one more pointer. */
  lemma SplitSound(above: seq<Frame>, c: seq<Ptr>, mid: nat, level: nat, leafData: nat)
    requires above != [] && level > 0 && PathOK(above, Node(c), level, leafData)
    requires 0 < mid < |c| && FrameLen(above[0]) < Capacity(leafData)
    ensures PairOK(above[0].left, Node(c[..mid]), Node(c[mid..]), above[0].right, above[1..], level, leafData)
  {
    hide Sorted, PtrsOK, FlattenPtrs, Before, After;
    PtrsOKSplit(c, mid, level - 1, leafData);
    FlattenSplit(c, mid);
    FrameSides(above);
    var f := above[0];
    var a, b := Node(c[..mid]), Node(c[mid..]);
    Regroup(Before(above[1..]), FlattenPtrs(f.left), Flatten(a), Flatten(b), FlattenPtrs(f.right), After(above[1..]));
    assert PairItems(f.left, a, b, f.right, above[1..]) == Whole(above, Node(c));
  }

  lemma SplitPosition(above: seq<Frame>, c: seq<Ptr>, mid: nat, slot: nat)
    requires above != [] && mid <= |c| && slot <= |c|
    ensures PairPrefix(above[0].left, c, above[1..], slot) == Prefix(above, Node(c), slot)
    ensures PairSuffix(c, above[0].right, above[1..], slot) == Suffix(above, Node(c), slot)
  {
    Regroup4(FlattenPtrs(c[slot..]), FlattenPtrs(above[0].right), After(above[1..]));
  }
}
