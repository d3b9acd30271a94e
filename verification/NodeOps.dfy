/** Moving pointers between two sibling nodes. */
module NodeOps {
  import opened Keys
  import opened Tree

  const EUCLEAN := 117
  const EOVERFLOW := 75
  const EEXIST := 17

  /** check_sibling_keys on nodes: true when something is wrong. */
  predicate BadNodeOrder(left: seq<Ptr>, right: seq<Ptr>) {
    |left| > 0 && |right| > 0 && Compare(left[|left| - 1].key, right[0].key) >= 0
  }

  /** push_node_left refuses to move anything. */
  predicate LeftPushRefused(dst: nat, src: nat, empty: bool, cap: nat) {
    || (!empty && src <= 8)
    || dst >= cap
    || (empty && cap - dst < src && src - (cap - dst) < 8 && cap - dst <= 8)
  }

  /** How many pointers push_node_left moves when it may empty the source. */
  function Drained(dst: nat, src: nat, cap: nat): (push: nat)
    requires dst <= cap
    ensures push <= src && dst + push <= cap
  {
    if dst + src <= cap then src
    else if dst + src >= cap + 8 then cap - dst
    else if cap - dst <= 8 then 0 else cap - dst - 8
  }

  /** Move pointers from src to the end of its left sibling dst.  With empty, src
      either drains completely or keeps at least 8 pointers. */
  method PushNodeLeft(dst: seq<Ptr>, src: seq<Ptr>, empty: bool, cap: nat)
    returns (ret: int, dst': seq<Ptr>, src': seq<Ptr>)
    requires |dst| <= cap && |src| <= cap
    ensures dst' + src' == dst + src
    ensures |dst| <= |dst'| <= cap
    ensures ret == 1 <==> LeftPushRefused(|dst|, |src|, empty, cap)
    ensures ret == -EUCLEAN <==> !LeftPushRefused(|dst|, |src|, empty, cap) && BadNodeOrder(dst, src)
    ensures ret != 0 ==> ret in {1, -EUCLEAN} && dst' == dst && src' == src
    ensures ret == 0 ==> (empty && src' == []) || |src'| >= 8
    ensures ret == 0 && src != [] ==> |src'| < |src|
    ensures ret == 0 && empty ==> (src' == [] <==> |dst| + |src| <= cap)
    ensures ret == 0 && src' != []
            ==> |dst'| == cap || (!empty && |src'| == 8) || (empty && |dst'| == cap - 8 && |src'| < 16)
    ensures ret == 0 && !empty ==> |dst'| == if cap - |dst| < |src| - 8 then cap else |dst| + |src| - 8
    ensures ret != -EUCLEAN && empty ==> |dst'| == |dst| + Drained(|dst|, |src|, cap)
  {
    dst', src' := dst, src;
    var push := cap - |dst|;
    if !empty && |src| <= 8 {
      return 1, dst, src;
    }
    if push <= 0 {
      return 1, dst, src;
    }
    if empty {
      push := if |src| < push then |src| else push;
      if push < |src| {
        if |src| - push < 8 {
          if push <= 8 {
            return 1, dst, src;
          }
          push := push - 8;
        }
      }
    } else {
      push := if |src| - 8 < push then |src| - 8 else push;
    }
    if BadNodeOrder(dst, src) {
      return -EUCLEAN, dst, src;
    }
    dst' := dst + src[..push];
    src' := src[push..];
    ret := 0;
  }

  /** Move pointers from src to the front of its right sibling dst, at most half
      of src plus one, never all of it. */
  method BalanceNodeRight(dst: seq<Ptr>, src: seq<Ptr>, cap: nat)
    returns (ret: int, dst': seq<Ptr>, src': seq<Ptr>)
    requires |dst| <= cap && |src| <= cap
    ensures src' + dst' == src + dst
    ensures |dst| <= |dst'| <= cap
    ensures ret == 1 <==> |dst| == cap || |src| < 4
    ensures ret == -EUCLEAN <==> !(|dst| == cap || |src| < 4) && BadNodeOrder(src, dst)
    ensures ret != 0 ==> ret in {1, -EUCLEAN} && dst' == dst && src' == src
    ensures ret == 0 ==> 1 <= |src'| < |src| && (|dst'| == cap || |src'| == |src| - |src| / 2 - 1)
    ensures ret == 0 ==> |dst'| == if cap - |dst| < |src| / 2 + 1 then cap else |dst| + |src| / 2 + 1
  {
    dst', src' := dst, src;
    var push := cap - |dst|;
    if push <= 0 {
      return 1, dst, src;
    }
    if |src| < 4 {
      return 1, dst, src;
    }
    var maxPush := |src| / 2 + 1;
    if maxPush >= |src| {
      return 1, dst, src;
    }
    if maxPush < push {
      push := maxPush;
    }
    if BadNodeOrder(src, dst) {
      return -EUCLEAN, dst, src;
    }
    dst' := src[|src| - push..] + dst;
    src' := src[..|src| - push];
    ret := 0;
  }

  ghost predicate PtrsSorted(ps: seq<Ptr>) {
    forall i, j :: 0 <= i < j < |ps| ==> Less(ps[i].key, ps[j].key)
  }

  /** Where the pointers of the three nodes are cut by balance_level. */
  function Balanced(left: nat, mid: nat, right: nat, cap: nat): (nat, nat)
    requires left <= cap && mid <= cap
  {
    var p := if left == 0 then 0 else Drained(left, mid, cap);
    var q := if right == 0 then 0 else Drained(mid - p, right, cap);
    var l, m := left + p, mid - p + q;
    var x := if m != 1 then l else if l < 4 then l + 1 else if l / 2 + 1 < cap - 1 then l - l / 2 - 1
             else if l >= cap - 1 then l - (cap - 1) else 0;
    (x, l + m)
  }

  lemma CutsAre(left: nat, mid: nat, right: nat, cap: nat, left': nat, mid': nat)
    requires left <= cap && mid <= cap
    requires var p := if left == 0 then 0 else Drained(left, mid, cap);
             var q := if right == 0 then 0 else Drained(mid - p, right, cap);
             var l, m := left + p, mid - p + q;
             && left' == (if m != 1 then l else if l < 4 then l + 1 else if l / 2 + 1 < cap - 1 then l - l / 2 - 1
                          else l - (cap - 1))
             && left' + mid' == l + m
    ensures (left', left' + mid') == Balanced(left, mid, right, cap)
  {
  }

  /** The pointer movements of balance_level among a node, its left sibling (empty
      when absent) and its right sibling (empty when absent).  The node never ends
      with one pointer, so both BUG_ONs on that are unreachable. */
  method BalanceThree(left: seq<Ptr>, mid: seq<Ptr>, right: seq<Ptr>, cap: nat)
    returns (left': seq<Ptr>, mid': seq<Ptr>, right': seq<Ptr>)
    requires 16 <= cap && |left| <= cap && 1 <= |mid| <= cap && |right| <= cap
    requires left != [] || right != []
    requires PtrsSorted(left + mid + right)
    ensures left' + mid' + right' == left + mid + right
    ensures |left'| <= cap && |mid'| <= cap && |right'| <= |right|
    ensures left != [] ==> left' != []
    ensures left == [] ==> left' == []
    ensures |mid'| != 1 && (mid' == [] ==> left' != [])
    ensures |left'| + |mid'| >= |left| + |mid|
    ensures |left'| > |left| ==> |left'| >= 2
    ensures left != [] && |left| + |mid| <= cap ==> right' == [] && (right == [] ==> mid' == [])
    ensures left == [] && |mid| + |right| <= cap ==> right' == []
    // first the left node is filled, then the middle one; a middle node of one pointer gets
    // half of the left one and one more, or gives up its own
    ensures var p := if left == [] then 0 else Drained(|left|, |mid|, cap);
            var q := if right == [] then 0 else Drained(|mid| - p, |right|, cap);
            var l, m := |left| + p, |mid| - p + q;
            && |right'| == |right| - q
            && |left'| == (if m != 1 then l else if l < 4 then l + 1 else if l / 2 + 1 < cap - 1 then l - l / 2 - 1
                           else l - (cap - 1))
            && |left'| + |mid'| == l + m
  {
    hide PtrsSorted, BadNodeOrder;
    left', mid', right' := left, mid, right;
    var wret;
    PtrsOrdered(left, mid, right);
    if left != [] {
      wret, left', mid' := PushNodeLeft(left, mid, true, cap);
    }
    if right != [] {
      PtrsOrdered(left', mid', right);
      ghost var m := mid';
      wret, mid', right' := PushNodeLeft(mid', right, true, cap);
      Regather(left', m, right, mid', right');
    }
    if |mid'| == 1 {
      // without a left sibling the right one would have given some
      assert left != [];
      PtrsOrdered(left', mid', right');
      wret, mid', left' := BalanceNodeRight(mid', left', cap);
      if wret == 1 {
        wret, left', mid' := PushNodeLeft(left', mid', true, cap);
      }
      assert wret != 1;
    }
  }

  lemma Regather<T>(l: seq<T>, m: seq<T>, r: seq<T>, m': seq<T>, r': seq<T>)
    requires m' + r' == m + r
    ensures l + m' + r' == l + m + r
  {
    assert l + m' + r' == l + (m' + r');
  }

  lemma PtrsOrdered(left: seq<Ptr>, mid: seq<Ptr>, right: seq<Ptr>)
    requires PtrsSorted(left + mid + right)
    ensures !BadNodeOrder(left, mid) && !BadNodeOrder(mid, right)
  {
    var s := left + mid + right;
    if left != [] && mid != [] {
      assert s[|left| - 1] == left[|left| - 1] && s[|left|] == mid[0];
    }
    if mid != [] && right != [] {
      assert s[|left| + |mid| - 1] == mid[|mid| - 1] && s[|left| + |mid|] == right[0];
    }
  }
}
