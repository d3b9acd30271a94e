/** Two neighbouring children of one parent: the same pair of blocks seen from a
    path through the left one and from a path through the right one, and what an
    exchange of contents between them keeps. */
module Siblings {
  import opened Keys
  import opened Tree
  import opened Context
  import opened NodeOps

  /** A parent frame whose hole and right neighbour are the pair (a, b). */
  function OnLeft(l: seq<Ptr>, lk: Key, b: Ptr, r: seq<Ptr>, tail: seq<Frame>): seq<Frame> {
    [Frame(l, lk, [b] + r)] + tail
  }

  /** A parent frame whose left neighbour and hole are the pair (a, b). */
  function OnRight(l: seq<Ptr>, a: Ptr, rk: Key, r: seq<Ptr>, tail: seq<Frame>): seq<Frame> {
    [Frame(l + [a], rk, r)] + tail
  }

  function HeadKey(l: seq<Ptr>, k: Key): Key {
    if l == [] then k else l[0].key
  }

  ghost predicate PairOK(l: seq<Ptr>, a: Block, b: Block, r: seq<Ptr>, tail: seq<Frame>, level: nat, leafData: nat) {
    && BlockOK(a, level, leafData)
    && BlockOK(b, level, leafData)
    && |l| + 2 + |r| <= Capacity(leafData)
    && PtrsOK(l, level, leafData)
    && PtrsOK(r, level, leafData)
    && CtxOK(tail, level + 1, HeadKey(l, Low(a)), leafData)
    && Sorted(PairItems(l, a, b, r, tail))
  }

  function PairItems(l: seq<Ptr>, a: Block, b: Block, r: seq<Ptr>, tail: seq<Frame>): seq<Item> {
    Before(tail) + FlattenPtrs(l) + (Flatten(a) + Flatten(b)) + FlattenPtrs(r) + After(tail)
  }

  lemma PairBlocks(l: seq<Ptr>, a: Block, b: Block, r: seq<Ptr>, tail: seq<Frame>, level: nat, leafData: nat)
    requires PairOK(l, a, b, r, tail, level, leafData)
    ensures BlockOK(a, level, leafData) && BlockOK(b, level, leafData)
  {
  }

  lemma LeftItems(l: seq<Ptr>, a: Block, b: Block, r: seq<Ptr>, tail: seq<Frame>)
    ensures var above := OnLeft(l, Low(a), Ptr(Low(b), b), r, tail);
            && Before(above) == Before(tail) + FlattenPtrs(l)
            && After(above) == Flatten(b) + FlattenPtrs(r) + After(tail)
            && Whole(above, a) == PairItems(l, a, b, r, tail)
  {
    var p := Ptr(Low(b), b);
    var above := OnLeft(l, Low(a), p, r, tail);
    assert above[1..] == tail;
    FlattenConcat([p], r);
    FlattenOne(p);
    hide FlattenPtrs, Flatten;
    assert After(above) == Flatten(b) + FlattenPtrs(r) + After(tail);
    Regroup5(Before(tail) + FlattenPtrs(l), Flatten(a), Flatten(b), FlattenPtrs(r), After(tail));
  }

  lemma LeftView(l: seq<Ptr>, a: Block, b: Block, r: seq<Ptr>, tail: seq<Frame>, level: nat, leafData: nat)
    ensures PathOK(OnLeft(l, Low(a), Ptr(Low(b), b), r, tail), a, level, leafData)
       <==> PairOK(l, a, b, r, tail, level, leafData)
  {
    var p := Ptr(Low(b), b);
    var above := OnLeft(l, Low(a), p, r, tail);
    LeftItems(l, a, b, r, tail);
    PtrsOKConcat([p], r, level, leafData);
    assert PtrsOK([p], level, leafData) <==> PtrOK([p][0], level, leafData);
    var f := above[0];
    assert CtxOK(above, level, Low(a), leafData) <==>
      (f.key == Low(a) && FrameLen(f) <= Capacity(leafData) && PtrsOK(f.left, level, leafData)
       && PtrsOK(f.right, level, leafData) && CtxOK(tail, level + 1, FrameLow(f), leafData)) by
    {
      assert above[1..] == tail;
    }
  }

  lemma Regroup<T>(t: seq<T>, l: seq<T>, a: seq<T>, b: seq<T>, r: seq<T>, u: seq<T>)
    ensures t + (l + a) + b + (r + u) == t + l + (a + b) + r + u
    ensures t + (l + a) == t + l + a
  {
  }

  lemma Regroup5<T>(p: seq<T>, a: seq<T>, b: seq<T>, r: seq<T>, u: seq<T>)
    ensures p + a + (b + r + u) == p + (a + b) + r + u
  {
  }

  lemma RightItems(l: seq<Ptr>, a: Block, b: Block, r: seq<Ptr>, tail: seq<Frame>)
    ensures var above := OnRight(l, Ptr(Low(a), a), Low(b), r, tail);
            && Before(above) == Before(tail) + FlattenPtrs(l) + Flatten(a)
            && After(above) == FlattenPtrs(r) + After(tail)
            && Whole(above, b) == PairItems(l, a, b, r, tail)
  {
    var p := Ptr(Low(a), a);
    var above := OnRight(l, p, Low(b), r, tail);
    assert above[1..] == tail;
    FlattenConcat(l, [p]);
    FlattenOne(p);
    hide FlattenPtrs, Flatten;
    Regroup(Before(tail), FlattenPtrs(l), Flatten(a), Flatten(b), FlattenPtrs(r), After(tail));
  }

  lemma RightView(l: seq<Ptr>, a: Block, b: Block, r: seq<Ptr>, tail: seq<Frame>, level: nat, leafData: nat)
    ensures PathOK(OnRight(l, Ptr(Low(a), a), Low(b), r, tail), b, level, leafData)
       <==> PairOK(l, a, b, r, tail, level, leafData)
  {
    var p := Ptr(Low(a), a);
    var above := OnRight(l, p, Low(b), r, tail);
    RightItems(l, a, b, r, tail);
    PtrsOKConcat(l, [p], level, leafData);
    assert PtrsOK([p], level, leafData) <==> PtrOK([p][0], level, leafData);
    var f := above[0];
    assert FrameLow(f) == HeadKey(l, Low(a));
    assert CtxOK(above, level, Low(b), leafData) <==>
      (f.key == Low(b) && FrameLen(f) <= Capacity(leafData) && PtrsOK(f.left, level, leafData)
       && PtrsOK(f.right, level, leafData) && CtxOK(tail, level + 1, FrameLow(f), leafData)) by
    {
      assert above[1..] == tail;
    }
  }

  /** Contents may move freely between the two as long as their concatenation stays. */
  lemma Exchange(l: seq<Ptr>, a: Block, b: Block, a': Block, b': Block, r: seq<Ptr>, tail: seq<Frame>, level: nat,
      leafData: nat)
    requires PairOK(l, a, b, r, tail, level, leafData)
    requires BlockOK(a', level, leafData) && BlockOK(b', level, leafData)
    requires Flatten(a') + Flatten(b') == Flatten(a) + Flatten(b)
    ensures PairOK(l, a', b', r, tail, level, leafData) && Low(a') == Low(a)
    ensures PairItems(l, a', b', r, tail) == PairItems(l, a, b, r, tail)
  {
    LowIsFirst(a, level, leafData);
    LowIsFirst(a', level, leafData);
    assert Low(a) == (Flatten(a) + Flatten(b))[0].key == Low(a');
  }

  /** Node siblings exchanging pointers. */
  lemma NodeExchange(a: seq<Ptr>, b: seq<Ptr>, a': seq<Ptr>, b': seq<Ptr>, level: nat, leafData: nat)
    requires BlockOK(Node(a), level, leafData) && BlockOK(Node(b), level, leafData)
    requires a' + b' == a + b
    ensures Flatten(Node(a')) + Flatten(Node(b')) == Flatten(Node(a)) + Flatten(Node(b))
    ensures 1 <= |a'| <= Capacity(leafData) ==> BlockOK(Node(a'), level, leafData)
    ensures 1 <= |b'| <= Capacity(leafData) ==> BlockOK(Node(b'), level, leafData)
  {
    FlattenConcat(a, b);
    FlattenConcat(a', b');
    PtrsOKConcat(a, b, level - 1, leafData);
    PtrsOKConcat(a', b', level - 1, leafData);
  }

  /** A pointer at index g of a + b seen through the left or the right node. */
  lemma NodePosition(a: seq<Ptr>, b: seq<Ptr>, a': seq<Ptr>, b': seq<Ptr>, g: nat)
    requires a' + b' == a + b && g <= |a| + |b|
    ensures FlattenPtrs((a + b)[..g]) + FlattenPtrs((a + b)[g..]) == FlattenPtrs(a) + FlattenPtrs(b)
    ensures g <= |a'| ==> FlattenPtrs(a'[..g]) == FlattenPtrs((a + b)[..g])
    ensures g <= |a'| ==> FlattenPtrs(a'[g..]) + FlattenPtrs(b') == FlattenPtrs((a + b)[g..])
    ensures g >= |a'| ==> FlattenPtrs(a') + FlattenPtrs(b'[..g - |a'|]) == FlattenPtrs((a + b)[..g])
    ensures g >= |a'| ==> FlattenPtrs(b'[g - |a'|..]) == FlattenPtrs((a + b)[g..])
  {
    FlattenSplit(a + b, g);
    FlattenConcat(a, b);
    if g <= |a'| {
      assert a'[..g] == (a + b)[..g];
      assert (a + b)[g..] == a'[g..] + b';
      FlattenConcat(a'[g..], b');
    }
    if g >= |a'| {
      assert (a + b)[..g] == a' + b'[..g - |a'|];
      assert (a + b)[g..] == b'[g - |a'|..];
      FlattenConcat(a', b'[..g - |a'|]);
    }
  }

  /** Node siblings of a sound tree are in key order, so check_sibling_keys passes. */
  lemma SiblingOrder(l: seq<Ptr>, a: seq<Ptr>, b: seq<Ptr>, r: seq<Ptr>, tail: seq<Frame>, level: nat, leafData: nat)
    requires PairOK(l, Node(a), Node(b), r, tail, level, leafData)
    ensures a != [] && b != [] && Less(a[|a| - 1].key, b[0].key)
  {
    hide Sorted, PtrsOK, CtxOK, Before, After, FlattenPtrs;
    PtrsOKConcat(a, b, level - 1, leafData);
    FlattenConcat(a, b);
    var pre, post := Before(tail) + FlattenPtrs(l), FlattenPtrs(r) + After(tail);
    assert PairItems(l, Node(a), Node(b), r, tail) == pre + FlattenPtrs(a + b) + post;
    SortedMiddle(pre, FlattenPtrs(a + b), post);
    KeysSorted(a + b, level - 1, leafData);
    assert (a + b)[|a| - 1] == a[|a| - 1] && (a + b)[|a|] == b[0];
  }

  // ----- reading a path as a pair -----

  function InitOf(s: seq<Ptr>): seq<Ptr>
    requires s != []
  {
    s[..|s| - 1]
  }

  function LastOf(s: seq<Ptr>): Ptr
    requires s != []
  {
    s[|s| - 1]
  }

  lemma PairWithLeft(above: seq<Frame>, node: Block, level: nat, leafData: nat)
    requires above != [] && above[0].left != [] && PathOK(above, node, level, leafData)
    ensures var f := above[0]; var p := LastOf(f.left);
            && p.key == Low(p.child)
            && above == OnRight(InitOf(f.left), p, Low(node), f.right, above[1..])
            && PairOK(InitOf(f.left), p.child, node, f.right, above[1..], level, leafData)
  {
    var f := above[0];
    var p := LastOf(f.left);
    assert PtrOK(f.left[|f.left| - 1], level, leafData);
    assert f.left == InitOf(f.left) + [p];
    assert above == OnRight(InitOf(f.left), p, Low(node), f.right, above[1..]);
    RightView(InitOf(f.left), p.child, node, f.right, above[1..], level, leafData);
  }

  lemma PairWithRight(above: seq<Frame>, node: Block, level: nat, leafData: nat)
    requires above != [] && above[0].right != [] && PathOK(above, node, level, leafData)
    ensures var f := above[0]; var p := f.right[0];
            && p.key == Low(p.child)
            && above == OnLeft(f.left, Low(node), p, f.right[1..], above[1..])
            && PairOK(f.left, node, p.child, f.right[1..], above[1..], level, leafData)
  {
    var f := above[0];
    var p := f.right[0];
    assert PtrOK(f.right[0], level, leafData);
    assert f.right == [p] + f.right[1..];
    assert above == OnLeft(f.left, Low(node), p, f.right[1..], above[1..]);
    LeftView(f.left, node, p.child, f.right[1..], above[1..], level, leafData);
  }

  /** An exchange between node siblings leaves a sound tree on either view. */
  lemma NodePairSound(l: seq<Ptr>, a: seq<Ptr>, b: seq<Ptr>, a': seq<Ptr>, b': seq<Ptr>, r: seq<Ptr>, tail: seq<Frame>,
                      level: nat, leafData: nat)
    requires PairOK(l, Node(a), Node(b), r, tail, level, leafData)
    requires a' + b' == a + b && 1 <= |a'| <= Capacity(leafData) && 1 <= |b'| <= Capacity(leafData)
    ensures PairOK(l, Node(a'), Node(b'), r, tail, level, leafData)
    ensures PathOK(OnLeft(l, a'[0].key, Ptr(b'[0].key, Node(b')), r, tail), Node(a'), level, leafData)
    ensures PathOK(OnRight(l, Ptr(a'[0].key, Node(a')), b'[0].key, r, tail), Node(b'), level, leafData)
  {
    NodeExchange(a, b, a', b', level, leafData);
    Exchange(l, Node(a), Node(b), Node(a'), Node(b'), r, tail, level, leafData);
    LeftView(l, Node(a'), Node(b'), r, tail, level, leafData);
    RightView(l, Node(a'), Node(b'), r, tail, level, leafData);
  }

  /** Position of pointer g of a + b among all items of the tree. */
  function PairPrefix(l: seq<Ptr>, ab: seq<Ptr>, tail: seq<Frame>, g: nat): seq<Item>
    requires g <= |ab|
  {
    Before(tail) + FlattenPtrs(l) + FlattenPtrs(ab[..g])
  }

  function PairSuffix(ab: seq<Ptr>, r: seq<Ptr>, tail: seq<Frame>, g: nat): seq<Item>
    requires g <= |ab|
  {
    FlattenPtrs(ab[g..]) + FlattenPtrs(r) + After(tail)
  }

  lemma PositionOnLeft(l: seq<Ptr>, a: seq<Ptr>, b: seq<Ptr>, r: seq<Ptr>, tail: seq<Frame>, g: nat)
    requires g <= |a| && a != [] && b != []
    ensures var above := OnLeft(l, a[0].key, Ptr(b[0].key, Node(b)), r, tail);
            && Prefix(above, Node(a), g) == PairPrefix(l, a + b, tail, g)
            && Suffix(above, Node(a), g) == PairSuffix(a + b, r, tail, g)
  {
    LeftItems(l, Node(a), Node(b), r, tail);
    NodePosition(a, b, a, b, g);
    Regroup3(FlattenPtrs(a[g..]), FlattenPtrs(b), FlattenPtrs(r), After(tail));
  }

  lemma PositionOnRight(l: seq<Ptr>, a: seq<Ptr>, b: seq<Ptr>, r: seq<Ptr>, tail: seq<Frame>, g: nat)
    requires |a| <= g <= |a| + |b| && a != [] && b != []
    ensures var above := OnRight(l, Ptr(a[0].key, Node(a)), b[0].key, r, tail);
            && Prefix(above, Node(b), g - |a|) == PairPrefix(l, a + b, tail, g)
            && Suffix(above, Node(b), g - |a|) == PairSuffix(a + b, r, tail, g)
  {
    RightItems(l, Node(a), Node(b), r, tail);
    NodePosition(a, b, a, b, g);
    Regroup4(Before(tail) + FlattenPtrs(l), FlattenPtrs(a), FlattenPtrs(b[..g - |a|]));
    Regroup4(FlattenPtrs(b[g - |a|..]), FlattenPtrs(r), After(tail));
  }

  lemma Regroup3<T>(a: seq<T>, b: seq<T>, c: seq<T>, d: seq<T>)
    ensures a + (b + c + d) == (a + b) + c + d
    ensures a + (c + d) == a + c + d
  {
  }

  lemma Regroup4<T>(a: seq<T>, b: seq<T>, c: seq<T>)
    ensures a + b + c == a + (b + c)
  {
  }

  /** A path through a node, read as a position in the pair with its left sibling. */
  lemma NodePairFromRight(above: seq<Frame>, ptrs: seq<Ptr>, slot: nat, level: nat, leafData: nat)
    requires above != [] && above[0].left != [] && level > 0 && slot < |ptrs|
    requires PathOK(above, Node(ptrs), level, leafData)
    ensures LastOf(above[0].left).child.Node?
    ensures var f := above[0]; var left := LastOf(f.left).child.ptrs;
            && PairOK(InitOf(f.left), Node(left), Node(ptrs), f.right, above[1..], level, leafData)
            && 1 <= |left| <= Capacity(leafData) && |ptrs| <= Capacity(leafData) && !BadNodeOrder(left, ptrs)
            && Prefix(above, Node(ptrs), slot) == PairPrefix(InitOf(f.left), left + ptrs, above[1..], |left| + slot)
            && Suffix(above, Node(ptrs), slot) == PairSuffix(left + ptrs, f.right, above[1..], |left| + slot)
            && (left + ptrs)[|left| + slot] == ptrs[slot]
  {
    hide Sorted, CtxOK, FlattenPtrs, PairPrefix, PairSuffix, Prefix, Suffix, PathOK, PtrsOK;
    PairWithLeft(above, Node(ptrs), level, leafData);
    var f := above[0];
    var left := LastOf(f.left).child.ptrs;
    SiblingOrder(InitOf(f.left), left, ptrs, f.right, above[1..], level, leafData);
    TotalOrder(LastOf(left).key, ptrs[0].key, ptrs[0].key);
    PositionOnRight(InitOf(f.left), left, ptrs, f.right, above[1..], |left| + slot);
    assert OnRight(InitOf(f.left), LastOf(f.left), ptrs[0].key, f.right, above[1..]) == above;
  }

  /** The same with the right sibling. */
  lemma NodePairFromLeft(above: seq<Frame>, ptrs: seq<Ptr>, slot: nat, level: nat, leafData: nat)
    requires above != [] && above[0].right != [] && level > 0 && slot < |ptrs|
    requires PathOK(above, Node(ptrs), level, leafData)
    ensures above[0].right[0].child.Node?
    ensures var f := above[0]; var right := f.right[0].child.ptrs;
            && PairOK(f.left, Node(ptrs), Node(right), f.right[1..], above[1..], level, leafData)
            && 1 <= |right| <= Capacity(leafData) && |ptrs| <= Capacity(leafData) && !BadNodeOrder(ptrs, right)
            && Prefix(above, Node(ptrs), slot) == PairPrefix(f.left, ptrs + right, above[1..], slot)
            && Suffix(above, Node(ptrs), slot) == PairSuffix(ptrs + right, f.right[1..], above[1..], slot)
            && (ptrs + right)[slot] == ptrs[slot]
  {
    hide Sorted, CtxOK, FlattenPtrs, PairPrefix, PairSuffix, Prefix, Suffix, PathOK, PtrsOK;
    PairWithRight(above, Node(ptrs), level, leafData);
    var f := above[0];
    var right := f.right[0].child.ptrs;
    SiblingOrder(f.left, ptrs, right, f.right[1..], above[1..], level, leafData);
    TotalOrder(LastOf(ptrs).key, right[0].key, right[0].key);
    PositionOnLeft(f.left, ptrs, right, f.right[1..], above[1..], slot);
    assert OnLeft(f.left, ptrs[0].key, f.right[0], f.right[1..], above[1..]) == above;
  }

  // ----- a parent with all its children -----

  /** The path through child j of a parent. */
  function FrameAt(ps: seq<Ptr>, j: nat, tail: seq<Frame>): seq<Frame>
    requires j < |ps|
  {
    [Frame(ps[..j], ps[j].key, ps[j + 1..])] + tail
  }

  ghost predicate ParentOK(ps: seq<Ptr>, tail: seq<Frame>, level: nat, leafData: nat) {
    && 1 <= |ps| <= Capacity(leafData)
    && PtrsOK(ps, level, leafData)
    && CtxOK(tail, level + 1, ps[0].key, leafData)
    && Sorted(Before(tail) + FlattenPtrs(ps) + After(tail))
  }

  lemma ParentItems(ps: seq<Ptr>, j: nat, tail: seq<Frame>)
    requires j < |ps|
    ensures Before(FrameAt(ps, j, tail)) == Before(tail) + FlattenPtrs(ps[..j])
    ensures After(FrameAt(ps, j, tail)) == FlattenPtrs(ps[j + 1..]) + After(tail)
    ensures Whole(FrameAt(ps, j, tail), ps[j].child) == Before(tail) + FlattenPtrs(ps) + After(tail)
  {
    var above := FrameAt(ps, j, tail);
    assert above[1..] == tail;
    FrameSides(above);
    FlattenAt(ps, j);
    hide FlattenPtrs, Flatten, Before, After;
    Regroup(Before(tail), FlattenPtrs(ps[..j]), Flatten(ps[j].child), FlattenPtrs(ps[j + 1..]), [], After(tail));
    Regroup6(Before(tail), FlattenPtrs(ps[..j]), Flatten(ps[j].child), FlattenPtrs(ps[j + 1..]), After(tail));
  }

  lemma Regroup6<T>(t: seq<T>, l: seq<T>, a: seq<T>, r: seq<T>, u: seq<T>)
    ensures (t + l) + a + (r + u) == t + (l + a + r) + u
  {
  }

  lemma ParentToPath(ps: seq<Ptr>, j: nat, tail: seq<Frame>, level: nat, leafData: nat)
    requires j < |ps| && ParentOK(ps, tail, level, leafData)
    ensures PathOK(FrameAt(ps, j, tail), ps[j].child, level, leafData)
  {
    hide Sorted, FlattenPtrs, Flatten, Before, After;
    ParentItems(ps, j, tail);
    PtrsOKSplit(ps, j, level, leafData);
    PtrsOKSplit(ps, j + 1, level, leafData);
    assert PtrOK(ps[j], level, leafData);
    var above := FrameAt(ps, j, tail);
    assert above[1..] == tail;
    assert FrameLow(above[0]) == ps[0].key;
  }

  lemma PathToParent(above: seq<Frame>, node: Block, level: nat, leafData: nat)
    requires above != [] && PathOK(above, node, level, leafData)
    ensures var f := above[0]; var ps := f.left + [Ptr(f.key, node)] + f.right;
            ParentOK(ps, above[1..], level, leafData) && FrameAt(ps, |f.left|, above[1..]) == above
            && ps[..|f.left|] == f.left && ps[|f.left|] == Ptr(f.key, node) && ps[|f.left| + 1..] == f.right
  {
    hide Sorted, FlattenPtrs, Flatten, Before, After;
    var f := above[0];
    var p := Ptr(f.key, node);
    var ps := f.left + [p] + f.right;
    assert ps[..|f.left|] == f.left && ps[|f.left| + 1..] == f.right;
    assert FrameAt(ps, |f.left|, above[1..]) == above;
    ParentItems(ps, |f.left|, above[1..]);
    assert PtrsOK([p], level, leafData) <==> PtrOK([p][0], level, leafData);
    PtrsOKConcat(f.left, [p], level, leafData);
    PtrsOKConcat(f.left + [p], f.right, level, leafData);
    FrameSound(above, level, Low(node), leafData);
    assert FrameLow(f) == ps[0].key;
  }
}
