/** The part of the tree around a block that a search path holds: one frame per
    ancestor, nearest first.  Frame i stands for path->nodes[level + 1 + i] and
    path->slots[level + 1 + i]; the slot is the number of pointers on its left. */
module Context {
  import opened Keys
  import opened Tree

  datatype Frame = Frame(left: seq<Ptr>, key: Key, right: seq<Ptr>)

  /** nritems of the ancestor. */
  function FrameLen(f: Frame): nat {
    |f.left| + 1 + |f.right|
  }

  function FrameLow(f: Frame): Key {
    if f.left == [] then f.key else f.left[0].key
  }

  function Before(above: seq<Frame>): seq<Item> {
    if above == [] then [] else Before(above[1..]) + FlattenPtrs(above[0].left)
  }

  function After(above: seq<Frame>): seq<Item> {
    if above == [] then [] else FlattenPtrs(above[0].right) + After(above[1..])
  }

  lemma FrameSides(above: seq<Frame>)
    requires above != []
    ensures Before(above) == Before(above[1..]) + FlattenPtrs(above[0].left)
    ensures After(above) == FlattenPtrs(above[0].right) + After(above[1..])
  {
  }

  /** The frames fit around a block of this level whose separator is low. */
  ghost predicate CtxOK(above: seq<Frame>, level: nat, low: Key, leafData: nat)
    decreases |above|
  {
    above == [] ||
    var f := above[0];
    && f.key == low
    && FrameLen(f) <= Capacity(leafData)
    && PtrsOK(f.left, level, leafData)
    && PtrsOK(f.right, level, leafData)
    && CtxOK(above[1..], level + 1, FrameLow(f), leafData)
  }

  lemma FrameSound(above: seq<Frame>, level: nat, low: Key, leafData: nat)
    requires above != [] && CtxOK(above, level, low, leafData)
    ensures var f := above[0];
            f.key == low && FrameLen(f) <= Capacity(leafData) && PtrsOK(f.left, level, leafData)
              && PtrsOK(f.right, level, leafData)
            && CtxOK(above[1..], level + 1, FrameLow(f), leafData)
  {
  }

  /** The whole tree, with the block put back in its place. */
  function Plug(above: seq<Frame>, node: Block): Block
    decreases |above|
  {
    if above == [] then node
    else Plug(above[1..], Node(above[0].left + [Ptr(above[0].key, node)] + above[0].right))
  }

  lemma PlugFlatten(above: seq<Frame>, node: Block)
    ensures Flatten(Plug(above, node)) == Before(above) + Flatten(node) + After(above)
    decreases |above|
  {
    if above != [] {
      var f := above[0];
      var ps := f.left + [Ptr(f.key, node)] + f.right;
      PlugFlatten(above[1..], Node(ps));
      FlattenConcat(f.left + [Ptr(f.key, node)], f.right);
      FlattenConcat(f.left, [Ptr(f.key, node)]);
      FlattenOne(Ptr(f.key, node));
      assert Flatten(Node(ps)) == FlattenPtrs(f.left) + Flatten(node) + FlattenPtrs(f.right);
    }
  }

  lemma PlugOK(above: seq<Frame>, node: Block, level: nat, leafData: nat)
    requires CtxOK(above, level, Low(node), leafData) && BlockOK(node, level, leafData)
    ensures BlockOK(Plug(above, node), level + |above|, leafData)
    decreases |above|
  {
    if above != [] {
      var f := above[0];
      var ps := f.left + [Ptr(f.key, node)] + f.right;
      assert PtrsOK(ps, level, leafData) by {
        forall i | 0 <= i < |ps| ensures PtrOK(ps[i], level, leafData) {
          if i < |f.left| {
            assert ps[i] == f.left[i];
          } else if i > |f.left| {
            assert ps[i] == f.right[i - |f.left| - 1];
          }
        }
      }
      PlugOK(above[1..], Node(ps), level + 1, leafData);
    }
  }

  // ----- separators of the leftmost spine -----

  /** What fixup_low_keys leaves: the separators from the nearest ancestor up to
      and including the first one that is not at slot 0 become key. */
  function FixLow(above: seq<Frame>, key: Key): seq<Frame> {
    if above == [] then []
    else
      var f := above[0].(key := key);
      if f.left != [] then [f] + above[1..] else [f] + FixLow(above[1..], key)
  }

  lemma {:induction false} FixLowOK(above: seq<Frame>, key: Key, level: nat, low: Key, leafData: nat)
    requires CtxOK(above, level, low, leafData)
    ensures CtxOK(FixLow(above, key), level, key, leafData)
    decreases |above|
  {
    if above != [] {
      var f := above[0].(key := key);
      if f.left != [] {
        assert ([f] + above[1..])[1..] == above[1..];
      } else {
        FixLowOK(above[1..], key, level + 1, FrameLow(above[0]), leafData);
        assert ([f] + FixLow(above[1..], key))[1..] == FixLow(above[1..], key);
      }
    }
  }

  lemma {:induction false} FixLowKeeps(above: seq<Frame>, key: Key)
    ensures |FixLow(above, key)| == |above|
    ensures Before(FixLow(above, key)) == Before(above) && After(FixLow(above, key)) == After(above)
    ensures above != [] ==> FixLow(above, key)[0] == above[0].(key := key)
    decreases |above|
  {
    if above != [] {
      var f := above[0].(key := key);
      if f.left != [] {
        assert ([f] + above[1..])[1..] == above[1..];
      } else {
        FixLowKeeps(above[1..], key);
        assert ([f] + FixLow(above[1..], key))[1..] == FixLow(above[1..], key);
      }
    }
  }

  /** One round of the loop in fixup_low_keys. */
  lemma FixLowStep(done: seq<Frame>, rest: seq<Frame>, key: Key)
    requires rest != []
    ensures var f := rest[0].(key := key);
            if f.left != [] then done + FixLow(rest, key) == done + [f] + rest[1..]
            else done + FixLow(rest, key) == (done + [f]) + FixLow(rest[1..], key)
  {
    var f := rest[0].(key := key);
    var t := if f.left != [] then rest[1..] else FixLow(rest[1..], key);
    assert FixLow(rest, key) == [f] + t;
    Prepend(done, f, t);
  }

  lemma Prepend<T>(done: seq<T>, f: T, t: seq<T>)
    ensures done + ([f] + t) == done + [f] + t
  {
  }

  // ----- whole trees -----

  function Height(t: Block): nat {
    match t
    case Leaf(_) => 0
    case Node(ptrs) => if ptrs == [] then 1 else 1 + HeightPtr(ptrs[0])
  }

  function HeightPtr(p: Ptr): nat
    decreases p
  {
    Height(p.child)
  }

  /** A root may be an empty leaf; every other block obeys BlockOK. */
  ghost predicate RootOK(t: Block, level: nat, leafData: nat) {
    if level == 0 then t.Leaf? && Space(t.items) <= leafData
    else BlockOK(t, level, leafData)
  }

  ghost predicate TreeOK(t: Block, leafData: nat) {
    RootOK(t, Height(t), leafData) && Sorted(Flatten(t))
  }

  lemma HeightOfBlock(t: Block, level: nat, leafData: nat)
    requires BlockOK(t, level, leafData)
    ensures Height(t) == level
    decreases level
  {
    if level > 0 {
      assert PtrOK(t.ptrs[0], level - 1, leafData);
      HeightOfBlock(t.ptrs[0].child, level - 1, leafData);
    }
  }

  // ----- the position of a path -----

  /** nritems of a block. */
  function BlockLen(t: Block): nat {
    match t
    case Leaf(items) => |items|
    case Node(ptrs) => |ptrs|
  }

  function BlockPre(t: Block, slot: nat): seq<Item>
    requires slot <= BlockLen(t)
  {
    match t
    case Leaf(items) => items[..slot]
    case Node(ptrs) => FlattenPtrs(ptrs[..slot])
  }

  function BlockPost(t: Block, slot: nat): seq<Item>
    requires slot <= BlockLen(t)
  {
    match t
    case Leaf(items) => items[slot..]
    case Node(ptrs) => FlattenPtrs(ptrs[slot..])
  }

  lemma BlockPrePost(t: Block, slot: nat)
    requires slot <= BlockLen(t)
    ensures Flatten(t) == BlockPre(t, slot) + BlockPost(t, slot)
  {
    match t
    case Leaf(items) =>
    case Node(ptrs) => FlattenSplit(ptrs, slot);
  }

  /** Items strictly before the slot, in the whole tree. */
  function Prefix(above: seq<Frame>, node: Block, slot: nat): seq<Item>
    requires slot <= BlockLen(node)
  {
    Before(above) + BlockPre(node, slot)
  }

  /** Items at or after the slot, in the whole tree. */
  function Suffix(above: seq<Frame>, node: Block, slot: nat): seq<Item>
    requires slot <= BlockLen(node)
  {
    BlockPost(node, slot) + After(above)
  }

  /** All items of the tree that the path belongs to. */
  function Whole(above: seq<Frame>, node: Block): seq<Item> {
    Before(above) + Flatten(node) + After(above)
  }

  lemma PrefixSuffix(above: seq<Frame>, node: Block, slot: nat)
    requires slot <= BlockLen(node)
    ensures Prefix(above, node, slot) + Suffix(above, node, slot) == Whole(above, node)
  {
    BlockPrePost(node, slot);
  }

  /** The path holds a sound tree. */
  ghost predicate PathOK(above: seq<Frame>, node: Block, level: nat, leafData: nat) {
    && (if above == [] then RootOK(node, level, leafData) else BlockOK(node, level, leafData))
    && CtxOK(above, level, Low(node), leafData)
    && Sorted(Whole(above, node))
  }

  lemma PtrsOKConcat(a: seq<Ptr>, b: seq<Ptr>, level: nat, leafData: nat)
    ensures PtrsOK(a + b, level, leafData) <==> PtrsOK(a, level, leafData) && PtrsOK(b, level, leafData)
  {
    if PtrsOK(a + b, level, leafData) {
      assert forall i :: 0 <= i < |a| ==> a[i] == (a + b)[i];
      assert forall i :: 0 <= i < |b| ==> b[i] == (a + b)[|a| + i];
    }
  }

  lemma PtrsOKSplit(s: seq<Ptr>, i: nat, level: nat, leafData: nat)
    requires i <= |s|
    ensures PtrsOK(s, level, leafData) <==> PtrsOK(s[..i], level, leafData) && PtrsOK(s[i..], level, leafData)
  {
    assert s == s[..i] + s[i..];
    PtrsOKConcat(s[..i], s[i..], level, leafData);
  }
}
