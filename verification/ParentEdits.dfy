/** What happens in a parent when its children change: single keys are written, single
    pointers are inserted or deleted, and all other separators are left alone. */
module ParentEdits {
  import opened Keys
  import opened Tree
  import opened Context
  import opened Siblings
  import opened Balance
  import opened Rows

  /** btrfs_set_node_key */
  function SetKey(ps: seq<Ptr>, i: nat, key: Key): (r: seq<Ptr>)
    requires i < |ps|
    ensures |r| == |ps|
  {
    ps[i := Ptr(key, ps[i].child)]
  }

  /** The child under a pointer was edited in place. */
  function SetChild(ps: seq<Ptr>, i: nat, child: Block): (r: seq<Ptr>)
    requires i < |ps|
    ensures |r| == |ps|
  {
    ps[i := Ptr(ps[i].key, child)]
  }

  /** btrfs_del_ptr */
  function DelPtr(ps: seq<Ptr>, i: nat): seq<Ptr>
    requires i < |ps|
  {
    ps[..i] + ps[i + 1..]
  }

  /** insert_ptr */
  function InsPtr(ps: seq<Ptr>, i: nat, p: Ptr): seq<Ptr>
    requires i <= |ps|
  {
    ps[..i] + [p] + ps[i..]
  }

  // ----- two siblings -----

  /** After a push between children j and j + 1: the right key is written, the left is not. */
  function PushEdit(ps: seq<Ptr>, j: nat, a: Block, b: Block): seq<Ptr>
    requires j + 1 < |ps|
  {
    SetKey(SetChild(SetChild(ps, j, a), j + 1, b), j + 1, Low(b))
  }

  /** After child j gave its upper part to a new block b. */
  function SplitEdit(ps: seq<Ptr>, j: nat, a: Block, b: Block): seq<Ptr>
    requires j < |ps|
  {
    InsPtr(SetChild(ps, j, a), j + 1, Ptr(Low(b), b))
  }

  function Pair(l: seq<Ptr>, a: Block, b: Block, r: seq<Ptr>): seq<Ptr> {
    l + [Ptr(Low(a), a), Ptr(Low(b), b)] + r
  }

  lemma PushEditIs(l: seq<Ptr>, a: Block, b: Block, a': Block, b': Block, r: seq<Ptr>)
    requires Low(a') == Low(a)
    ensures PushEdit(Pair(l, a, b, r), |l|, a', b') == Pair(l, a', b', r)
  {
  }

  lemma SplitEditIs(l: seq<Ptr>, c: Block, a: Block, b: Block, r: seq<Ptr>)
    requires Low(a) == Low(c)
    ensures SplitEdit(l + [Ptr(Low(c), c)] + r, |l|, a, b) == Pair(l, a, b, r)
  {
    assert (l + [Ptr(Low(c), c)] + r)[|l| + 1..] == r;
  }

  /** Standing in the left or the right of two children. */
  lemma PairFrames(l: seq<Ptr>, a: Block, b: Block, r: seq<Ptr>, tail: seq<Frame>)
    ensures FrameAt(Pair(l, a, b, r), |l|, tail) == OnLeft(l, Low(a), Ptr(Low(b), b), r, tail)
    ensures FrameAt(Pair(l, a, b, r), |l| + 1, tail) == OnRight(l, Ptr(Low(a), a), Low(b), r, tail)
  {
    var ps := Pair(l, a, b, r);
    assert ps[..|l|] == l && ps[|l| + 1..] == [Ptr(Low(b), b)] + r;
    assert ps[..|l| + 1] == l + [Ptr(Low(a), a)] && ps[|l| + 2..] == r;
  }

  /** Both views of a pair show the same parent. */
  lemma PairParents(l: seq<Ptr>, a: Block, b: Block, r: seq<Ptr>)
    ensures l + [Ptr(Low(a), a)] + ([Ptr(Low(b), b)] + r) == Pair(l, a, b, r)
    ensures (l + [Ptr(Low(a), a)]) + [Ptr(Low(b), b)] + r == Pair(l, a, b, r)
  {
  }

  lemma SameFirst<T>(a: seq<T>, b: seq<T>, a': seq<T>, b': seq<T>)
    requires a' + b' == a + b && a != [] && a' != []
    ensures a'[0] == a[0]
  {
    assert a'[0] == (a' + b')[0] && a[0] == (a + b)[0];
  }

  /** The separator of the block of a path is its lowest key. */
  lemma KeyIsLow(above: seq<Frame>, node: Block, level: nat, leafData: nat)
    requires above != [] && PathOK(above, node, level, leafData)
    ensures above[0].key == Low(node)
  {
    FrameSound(above, level, Low(node), leafData);
  }

  // ----- three siblings -----

  /** The edits of balance_level in the parent, in its order: the right child's pointer goes
      when it was emptied or else gets a new key, then the same for the middle child; the
      left key is left alone. */
  function BalanceEdit(ps: seq<Ptr>, j: nat, hasLeft: bool, hasRight: bool, a: seq<Ptr>, b: seq<Ptr>,
      c: seq<Ptr>): seq<Ptr>
    requires j < |ps| && (hasLeft ==> j > 0) && (hasRight ==> j + 1 < |ps|)
  {
    var ps1 := if hasLeft then SetChild(ps, j - 1, Node(a)) else ps;
    var ps2 := SetChild(ps1, j, Node(b));
    var ps3 := if !hasRight then ps2
               else if c == [] then DelPtr(ps2, j + 1) else SetKey(SetChild(ps2, j + 1, Node(c)), j + 1, c[0].key);
    if b == [] then DelPtr(ps3, j) else SetKey(ps3, j, b[0].key)
  }

  /** An edit at a pointer with x before it and y behind it. */
  lemma EditAt(x: seq<Ptr>, p: Ptr, y: seq<Ptr>, key: Key, child: Block)
    ensures SetKey(x + [p] + y, |x|, key) == x + [Ptr(key, p.child)] + y
    ensures SetChild(x + [p] + y, |x|, child) == x + [Ptr(p.key, child)] + y
    ensures DelPtr(x + [p] + y, |x|) == x + y
  {
    assert (x + [p] + y)[|x| + 1..] == y && (x + [p] + y)[..|x|] == x;
  }

  /** The right child is emptied or shortened. */
  lemma RightEdit(x: seq<Ptr>, c: seq<Ptr>, c': seq<Ptr>, r: seq<Ptr>)
    requires c != []
    ensures (if c' == [] then DelPtr(x + Opt(c) + r, |x|)
            else SetKey(SetChild(x + Opt(c) + r, |x|, Node(c')), |x|, c'[0].key))
         == x + Opt(c') + r
  {
    EditAt(x, Opt(c)[0], r, Opt(c)[0].key, Node(c'));
    assert x + [] + r == x + r;
    if c' != [] {
      EditAt(x, Ptr(Opt(c)[0].key, Node(c')), r, c'[0].key, Node(c'));
    }
  }

  /** The left child is filled up; its key stays right. */
  lemma LeftEdit(l: seq<Ptr>, a: seq<Ptr>, a': seq<Ptr>, y: seq<Ptr>)
    requires (a == [] <==> a' == []) && (a != [] ==> a'[0].key == a[0].key)
    ensures (if a != [] then SetChild(l + Opt(a) + y, |l| + |Opt(a)| - 1, Node(a')) else l + Opt(a) + y)
            == l + Opt(a') + y
    ensures |l + Opt(a)| == |l| + |Opt(a)| == |l + Opt(a')|
  {
    if a != [] {
      EditAt(l, Opt(a)[0], y, a[0].key, Node(a'));
    }
  }

  /** The middle child changes; later it is given up or gets its key. */
  lemma MidEdit(x: seq<Ptr>, b: seq<Ptr>, b': seq<Ptr>, y: seq<Ptr>, z: seq<Ptr>)
    requires b != []
    ensures SetChild(x + Opt(b) + y, |x|, Node(b')) == x + [Ptr(b[0].key, Node(b'))] + y
    ensures var ps := x + [Ptr(b[0].key, Node(b'))] + z;
            (if b' == [] then DelPtr(ps, |x|) else SetKey(ps, |x|, b'[0].key)) == x + Opt(b') + z
  {
    EditAt(x, Opt(b)[0], y, b[0].key, Node(b'));
    EditAt(x, Ptr(b[0].key, Node(b')), z, if b' == [] then b[0].key else b'[0].key, Node(b'));
    assert x + [] + z == x + z;
  }

  /** They leave exactly the pointers that should be there. */
  lemma BalanceEditIs(l: seq<Ptr>, a: seq<Ptr>, b: seq<Ptr>, c: seq<Ptr>, a': seq<Ptr>, b': seq<Ptr>, c': seq<Ptr>,
      r: seq<Ptr>)
    requires b != [] && (a == [] <==> a' == []) && (a != [] ==> a'[0].key == a[0].key) && (c == [] ==> c' == [])
    ensures |Children(l, a, b, c, r)| == |l| + |Opt(a)| + 1 + |Opt(c)| + |r|
    ensures BalanceEdit(Children(l, a, b, c, r), |l| + |Opt(a)|, a != [], c != [], a', b', c')
            == Children(l, a', b', c', r)
  {
    hide SetKey, SetChild, DelPtr;
    var x, q := l + Opt(a'), Ptr(b[0].key, Node(b'));
    LeftEdit(l, a, a', Opt(b) + Opt(c) + r);
    MidEdit(x, b, b', Opt(c) + r, Opt(c') + r);
    Shift5(l, Opt(a), Opt(b), Opt(c), r);
    Shift5(l, Opt(a'), Opt(b), Opt(c), r);
    Shift5(l, Opt(a'), [q], Opt(c), r);
    Shift5(l, Opt(a'), [q], Opt(c'), r);
    Shift5(l, Opt(a'), Opt(b'), Opt(c'), r);
    if c != [] {
      RightEdit(x + [q], c, c', r);
    }
  }

  lemma Shift5<T>(l: seq<T>, a: seq<T>, b: seq<T>, c: seq<T>, r: seq<T>)
    ensures l + a + b + c + r == l + a + (b + c + r) == (l + a) + b + (c + r) == ((l + a) + b) + c + r
  {
  }

  // ----- a row of leaves -----

  function BlockItems(t: Block): seq<Item> {
    match t
    case Leaf(items) => items
    case Node(_) => []
  }

  /** The leaves under a parent. */
  function LeavesOf(ps: seq<Ptr>): (r: seq<seq<Item>>)
    ensures |r| == |ps|
  {
    seq(|ps|, i requires 0 <= i < |ps| => BlockItems(ps[i].child))
  }

  /** The nodes under a parent. */
  function NodesOf(ps: seq<Ptr>): (r: seq<seq<Ptr>>)
    ensures |r| == |ps|
  {
    seq(|ps|, i requires 0 <= i < |ps| => NodePtrs(ps[i].child))
  }

  lemma NodesAfterPush(ps: seq<Ptr>, j: nat, a: seq<Ptr>, b: seq<Ptr>)
    requires j + 1 < |ps|
    ensures NodesOf(PushEdit(ps, j, Node(a), Node(b))) == NodesOf(ps)[j := a][j + 1 := b]
  {
  }

  lemma NodesAfterSplit(ps: seq<Ptr>, j: nat, a: seq<Ptr>, b: seq<Ptr>)
    requires j < |ps|
    ensures NodesOf(SplitEdit(ps, j, Node(a), Node(b))) == NodesOf(ps)[..j] + [a, b] + NodesOf(ps)[j + 1..]
  {
    var qs := SplitEdit(ps, j, Node(a), Node(b));
    assert forall i :: j + 2 <= i < |qs| ==> qs[i] == ps[i - 1];
  }

  lemma NodesConcat(a: seq<Ptr>, b: seq<Ptr>)
    ensures NodesOf(a + b) == NodesOf(a) + NodesOf(b)
  {
  }

  lemma NodesOfChildren(l: seq<Ptr>, a: seq<Ptr>, b: seq<Ptr>, c: seq<Ptr>, r: seq<Ptr>)
    ensures NodesOf(Children(l, a, b, c, r)) == NodesOf(l) + Only(a) + Only(b) + Only(c) + NodesOf(r)
  {
    hide NodesOf, Opt;
    NodesConcat(l + Opt(a) + Opt(b) + Opt(c), r);
    NodesConcat(l + Opt(a) + Opt(b), Opt(c));
    NodesConcat(l + Opt(a), Opt(b));
    NodesConcat(l, Opt(a));
    OneNode(a);
    OneNode(b);
    OneNode(c);
  }

  lemma OneNode(a: seq<Ptr>)
    ensures NodesOf(Opt(a)) == Only(a)
  {
  }

  lemma LeavesAfterPush(ps: seq<Ptr>, j: nat, a: seq<Item>, b: seq<Item>)
    requires j + 1 < |ps|
    ensures LeavesOf(PushEdit(ps, j, Leaf(a), Leaf(b))) == LeavesOf(ps)[j := a][j + 1 := b]
  {
  }

  lemma LeavesAfterSplit(ps: seq<Ptr>, j: nat, a: seq<Item>, b: seq<Item>)
    requires j < |ps|
    ensures LeavesOf(SplitEdit(ps, j, Leaf(a), Leaf(b))) == LeavesOf(ps)[..j] + [a, b] + LeavesOf(ps)[j + 1..]
  {
    var qs := SplitEdit(ps, j, Leaf(a), Leaf(b));
    assert forall i :: j + 2 <= i < |qs| ==> qs[i] == ps[i - 1];
  }

  lemma LeavesConcat(a: seq<Ptr>, b: seq<Ptr>)
    ensures LeavesOf(a + b) == LeavesOf(a) + LeavesOf(b)
  {
  }

  lemma OneLeaf(p: Ptr)
    ensures LeavesOf([p]) == [BlockItems(p.child)]
  {
  }
}
