/** Three neighbouring nodes of one parent, as balance_level sees them; an empty
    pointer sequence stands for a sibling that does not exist. */
module Balance {
  import opened Keys
  import opened Tree
  import opened Context
  import opened Siblings
  import opened NodeOps

  /** The parent's pointer to a node, or none when the node is empty. */
  function Opt(ps: seq<Ptr>): seq<Ptr> {
    if ps == [] then [] else [Ptr(ps[0].key, Node(ps))]
  }

  function Children(l: seq<Ptr>, a: seq<Ptr>, b: seq<Ptr>, c: seq<Ptr>, r: seq<Ptr>): seq<Ptr> {
    l + Opt(a) + Opt(b) + Opt(c) + r
  }

  lemma ChildrenLen(l: seq<Ptr>, a: seq<Ptr>, b: seq<Ptr>, c: seq<Ptr>, r: seq<Ptr>)
    ensures |Children(l, a, b, c, r)| == |l| + |Opt(a)| + |Opt(b)| + |Opt(c)| + |r|
  {
  }

  lemma OptFlatten(ps: seq<Ptr>)
    ensures FlattenPtrs(Opt(ps)) == FlattenPtrs(ps)
  {
    if ps != [] {
      FlattenOne(Opt(ps)[0]);
    }
  }

  lemma OptOK(ps: seq<Ptr>, level: nat, leafData: nat)
    requires level > 0
    ensures PtrsOK(Opt(ps), level, leafData) <==> PtrsOK(ps, level - 1, leafData) && |ps| <= Capacity(leafData)
  {
    if ps != [] {
      assert PtrsOK(Opt(ps), level, leafData) <==> PtrOK(Opt(ps)[0], level, leafData);
    }
  }

  lemma FlattenThree(a: seq<Ptr>, b: seq<Ptr>, c: seq<Ptr>)
    ensures FlattenPtrs(a + b + c) == FlattenPtrs(a) + FlattenPtrs(b) + FlattenPtrs(c)
  {
    FlattenConcat(a + b, c);
    FlattenConcat(a, b);
  }

  lemma ChildrenFlatten(l: seq<Ptr>, a: seq<Ptr>, b: seq<Ptr>, c: seq<Ptr>, r: seq<Ptr>)
    ensures FlattenPtrs(Children(l, a, b, c, r)) == FlattenPtrs(l) + FlattenPtrs(a + b + c) + FlattenPtrs(r)
  {
    hide FlattenPtrs;
    FlattenConcat(l + Opt(a) + Opt(b) + Opt(c), r);
    assert l + Opt(a) + Opt(b) + Opt(c) == l + (Opt(a) + Opt(b) + Opt(c));
    FlattenConcat(l, Opt(a) + Opt(b) + Opt(c));
    FlattenThree(Opt(a), Opt(b), Opt(c));
    FlattenThree(a, b, c);
    OptFlatten(a);
    OptFlatten(b);
    OptFlatten(c);
  }

  lemma ChildrenOK(l: seq<Ptr>, a: seq<Ptr>, b: seq<Ptr>, c: seq<Ptr>, r: seq<Ptr>, level: nat, leafData: nat)
    requires level > 0
    ensures PtrsOK(Children(l, a, b, c, r), level, leafData) <==>
            PtrsOK(l, level, leafData) && PtrsOK(r, level, leafData) && PtrsOK(a + b + c, level - 1, leafData)
            && |a| <= Capacity(leafData) && |b| <= Capacity(leafData) && |c| <= Capacity(leafData)
  {
    hide PtrsOK;
    PtrsOKConcat(l + Opt(a) + Opt(b) + Opt(c), r, level, leafData);
    PtrsOKConcat(l + Opt(a) + Opt(b), Opt(c), level, leafData);
    PtrsOKConcat(l + Opt(a), Opt(b), level, leafData);
    PtrsOKConcat(l, Opt(a), level, leafData);
    PtrsOKConcat(a + b, c, level - 1, leafData);
    PtrsOKConcat(a, b, level - 1, leafData);
    OptOK(a, level, leafData);
    OptOK(b, level, leafData);
    OptOK(c, level, leafData);
  }

  /** Redistributing the pointers of three siblings keeps the parent sound. */
  lemma ThreeSound(l: seq<Ptr>, a: seq<Ptr>, b: seq<Ptr>, c: seq<Ptr>, a': seq<Ptr>, b': seq<Ptr>, c': seq<Ptr>,
                   r: seq<Ptr>, tail: seq<Frame>, level: nat, leafData: nat)
    requires level > 0 && ParentOK(Children(l, a, b, c, r), tail, level, leafData)
    requires a' + b' + c' == a + b + c && b != []
    requires a == [] ==> a' == []
    requires c == [] ==> c' == []
    requires a' != [] || b' != []
    requires |a'| <= Capacity(leafData) && |b'| <= Capacity(leafData) && |c'| <= Capacity(leafData)
    ensures ParentOK(Children(l, a', b', c', r), tail, level, leafData)
  {
    hide PtrsOK, FlattenPtrs, Sorted;
    ChildrenOK(l, a, b, c, r, level, leafData);
    ChildrenOK(l, a', b', c', r, level, leafData);
    ChildrenFlatten(l, a, b, c, r);
    ChildrenFlatten(l, a', b', c', r);
    ChildrenHead(l, a, b, c, r);
    ChildrenHead(l, a', b', c', r);
  }

  lemma ChildrenHead(l: seq<Ptr>, a: seq<Ptr>, b: seq<Ptr>, c: seq<Ptr>, r: seq<Ptr>)
    requires a != [] || b != []
    ensures Children(l, a, b, c, r) != []
    ensures Children(l, a, b, c, r)[0].key == if l != [] then l[0].key else (a + b + c)[0].key
  {
    if l != [] {
      assert Children(l, a, b, c, r)[0] == l[0];
    } else if a != [] {
      assert Children(l, a, b, c, r)[0] == Opt(a)[0];
    } else {
      assert Children(l, a, b, c, r)[0] == Opt(b)[0];
    }
  }

  /** Items before and from pointer g of the three nodes together. */
  function ThreePrefix(l: seq<Ptr>, abc: seq<Ptr>, tail: seq<Frame>, g: nat): seq<Item>
    requires g <= |abc|
  {
    Before(tail) + FlattenPtrs(l) + FlattenPtrs(abc[..g])
  }

  lemma FirstChild(l: seq<Ptr>, a: seq<Ptr>, b: seq<Ptr>, c: seq<Ptr>, r: seq<Ptr>)
    requires a != []
    ensures var ps := Children(l, a, b, c, r);
            |l| < |ps| && ps[|l|] == Ptr(a[0].key, Node(a)) && ps[..|l|] == l && ps[|l| + 1..] == Opt(b) + Opt(c) + r
  {
  }

  lemma SecondChild(l: seq<Ptr>, a: seq<Ptr>, b: seq<Ptr>, c: seq<Ptr>, r: seq<Ptr>)
    requires b != []
    ensures var ps, j := Children(l, a, b, c, r), |l| + |Opt(a)|;
            j < |ps| && ps[j] == Ptr(b[0].key, Node(b)) && ps[..j] == l + Opt(a) && ps[j + 1..] == Opt(c) + r
  {
  }

  lemma CutFirst<T>(a: seq<T>, b: seq<T>, c: seq<T>, g: nat)
    requires g <= |a|
    ensures (a + b + c)[..g] == a[..g] && (a + b + c)[g..] == a[g..] + b + c
  {
  }

  lemma CutSecond<T>(a: seq<T>, b: seq<T>, c: seq<T>, g: nat)
    requires |a| <= g <= |a| + |b|
    ensures (a + b + c)[..g] == a + b[..g - |a|] && (a + b + c)[g..] == b[g - |a|..] + c
  {
  }

  function ThreeSuffix(abc: seq<Ptr>, r: seq<Ptr>, tail: seq<Frame>, g: nat): seq<Item>
    requires g <= |abc|
  {
    FlattenPtrs(abc[g..]) + FlattenPtrs(r) + After(tail)
  }

  lemma PositionInFirst(l: seq<Ptr>, a: seq<Ptr>, b: seq<Ptr>, c: seq<Ptr>, r: seq<Ptr>, tail: seq<Frame>, g: nat)
    requires g < |a|
    ensures |l| < |Children(l, a, b, c, r)|
    ensures Children(l, a, b, c, r)[|l|] == Ptr(a[0].key, Node(a))
    ensures var above := FrameAt(Children(l, a, b, c, r), |l|, tail);
            && Prefix(above, Node(a), g) == ThreePrefix(l, a + b + c, tail, g)
            && Suffix(above, Node(a), g) == ThreeSuffix(a + b + c, r, tail, g)
  {
    hide FlattenPtrs, Before, After, Children, Opt;
    var ps := Children(l, a, b, c, r);
    FirstChild(l, a, b, c, r);
    ParentItems(ps, |l|, tail);
    FlattenThree(Opt(b), Opt(c), r);
    OptFlatten(b);
    OptFlatten(c);
    CutFirst(a, b, c, g);
    FlattenThree(a[g..], b, c);
    Assoc(FlattenPtrs(a[g..]), FlattenPtrs(b), FlattenPtrs(c), FlattenPtrs(r), After(tail));
  }

  lemma Assoc<T>(a: seq<T>, b: seq<T>, c: seq<T>, d: seq<T>, e: seq<T>)
    ensures a + (b + c + d + e) == a + b + c + d + e
  {
  }

  lemma PositionInSecond(l: seq<Ptr>, a: seq<Ptr>, b: seq<Ptr>, c: seq<Ptr>, r: seq<Ptr>, tail: seq<Frame>, g: nat)
    requires |a| <= g < |a| + |b|
    ensures |l| + |Opt(a)| < |Children(l, a, b, c, r)|
    ensures Children(l, a, b, c, r)[|l| + |Opt(a)|] == Ptr(b[0].key, Node(b))
    ensures var above := FrameAt(Children(l, a, b, c, r), |l| + |Opt(a)|, tail);
            && Prefix(above, Node(b), g - |a|) == ThreePrefix(l, a + b + c, tail, g)
            && Suffix(above, Node(b), g - |a|) == ThreeSuffix(a + b + c, r, tail, g)
  {
    hide FlattenPtrs, Before, After, Children, Opt;
    var ps := Children(l, a, b, c, r);
    var j := |l| + |Opt(a)|;
    SecondChild(l, a, b, c, r);
    ParentItems(ps, j, tail);
    FlattenConcat(l, Opt(a));
    FlattenConcat(Opt(c), r);
    OptFlatten(a);
    OptFlatten(c);
    CutSecond(a, b, c, g);
    FlattenConcat(a, b[..g - |a|]);
    FlattenConcat(b[g - |a|..], c);
    AssocPre(Before(tail), FlattenPtrs(l), FlattenPtrs(a), FlattenPtrs(b[..g - |a|]));
    Assoc(FlattenPtrs(b[g - |a|..]), FlattenPtrs(c), [], FlattenPtrs(r), After(tail));
  }

  lemma AssocPre<T>(t: seq<T>, l: seq<T>, a: seq<T>, b: seq<T>)
    ensures t + (l + a) + b == t + l + (a + b)
  {
  }

  /** The node in the middle with its existing neighbours, read from a path. */
  lemma ThreeFromPath(above: seq<Frame>, mid: seq<Ptr>, level: nat, leafData: nat)
    requires above != [] && level > 0 && PathOK(above, Node(mid), level, leafData)
    ensures var f := above[0];
            var left := if f.left == [] then [] else NodePtrs(LastOf(f.left).child);
            var right := if f.right == [] then [] else NodePtrs(f.right[0].child);
            var l := if f.left == [] then [] else InitOf(f.left);
            var r := if f.right == [] then [] else f.right[1..];
            && (f.left != [] ==> left != []) && (f.right != [] ==> right != [])
            && |left| <= Capacity(leafData) && 1 <= |mid| <= Capacity(leafData) && |right| <= Capacity(leafData)
            && ParentOK(Children(l, left, mid, right, r), above[1..], level, leafData)
            && PtrsSorted(left + mid + right)
            && FrameAt(Children(l, left, mid, right, r), |l| + |Opt(left)|, above[1..]) == above
            && |l| + |Opt(left)| == |f.left|
               && Children(l, left, mid, right, r) == f.left + [Ptr(f.key, Node(mid))] + f.right
  {
    hide PtrsOK, Sorted, FlattenPtrs, Before, After;
    PathToParent(above, Node(mid), level, leafData);
    FrameSound(above, level, Low(Node(mid)), leafData);
    var f := above[0];
    var ps := f.left + [Ptr(f.key, Node(mid))] + f.right;
    LeftNeighbour(f.left, level, leafData);
    RightNeighbour(f.right, level, leafData);
    var left := if f.left == [] then [] else NodePtrs(LastOf(f.left).child);
    var right := if f.right == [] then [] else NodePtrs(f.right[0].child);
    var l := if f.left == [] then [] else InitOf(f.left);
    var r := if f.right == [] then [] else f.right[1..];
    assert Opt(mid) == [Ptr(f.key, Node(mid))];
    assert Children(l, left, mid, right, r) == l + Opt(left) + Opt(mid) + (Opt(right) + r) == ps;
    ThreeSorted(l, left, mid, right, r, above[1..], level, leafData);
  }

  lemma LeftNeighbour(ps: seq<Ptr>, level: nat, leafData: nat)
    requires level > 0 && PtrsOK(ps, level, leafData)
    ensures ps != [] ==> NodePtrs(LastOf(ps).child) != [] && InitOf(ps) + Opt(NodePtrs(LastOf(ps).child)) == ps
  {
    if ps != [] {
      assert PtrOK(ps[|ps| - 1], level, leafData);
      assert BlockOK(LastOf(ps).child, level, leafData);
      assert ps == InitOf(ps) + [LastOf(ps)];
    }
  }

  lemma RightNeighbour(ps: seq<Ptr>, level: nat, leafData: nat)
    requires level > 0 && PtrsOK(ps, level, leafData)
    ensures ps != [] ==> NodePtrs(ps[0].child) != [] && Opt(NodePtrs(ps[0].child)) + ps[1..] == ps
  {
    if ps != [] {
      assert PtrOK(ps[0], level, leafData);
      assert BlockOK(ps[0].child, level, leafData);
      assert ps == [ps[0]] + ps[1..];
    }
  }

  function NodePtrs(t: Block): seq<Ptr> {
    if t.Node? then t.ptrs else []
  }

  lemma ThreeSorted(l: seq<Ptr>, a: seq<Ptr>, b: seq<Ptr>, c: seq<Ptr>, r: seq<Ptr>, tail: seq<Frame>, level: nat,
      leafData: nat)
    requires level > 0 && ParentOK(Children(l, a, b, c, r), tail, level, leafData)
    ensures PtrsSorted(a + b + c)
    ensures |a| <= Capacity(leafData) && |b| <= Capacity(leafData) && |c| <= Capacity(leafData)
  {
    hide Sorted, FlattenPtrs, PtrsOK;
    ChildrenOK(l, a, b, c, r, level, leafData);
    ChildrenFlatten(l, a, b, c, r);
    var pre, post := Before(tail) + FlattenPtrs(l), FlattenPtrs(r) + After(tail);
    assert Before(tail) + FlattenPtrs(Children(l, a, b, c, r)) + After(tail) == pre + FlattenPtrs(a + b + c) + post;
    SortedMiddle(pre, FlattenPtrs(a + b + c), post);
    KeysSorted(a + b + c, level - 1, leafData);
  }
}
