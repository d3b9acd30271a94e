/** Leaf-level decisions: where a key goes, and how many items a push may move. */
module LeafOps {
  import opened Keys
  import opened Tree
  import opened Context
  import opened Siblings
  import opened Rows

  // ----- binary search -----

  function KeyAt(t: Block, i: nat): Key
    requires i < BlockLen(t)
  {
    match t
    case Leaf(items) => items[i].key
    case Node(ptrs) => ptrs[i].key
  }

  ghost predicate KeysInOrder(t: Block) {
    forall i, j :: 0 <= i < j < BlockLen(t) ==> Less(KeyAt(t, i), KeyAt(t, j))
  }

  const EINVAL := 22

  /** btrfs_bin_search: 0 and the slot of the key, or 1 and its insertion slot. */
  method BinSearch(t: Block, first: nat, key: Key) returns (ret: int, slot: nat)
    requires KeysInOrder(t)
    ensures ret in {0, 1, -EINVAL} && (ret == -EINVAL <==> first > BlockLen(t))
    ensures ret == 0 ==> first <= slot < BlockLen(t) && KeyAt(t, slot) == key
    ensures ret == 1 ==> first <= slot <= BlockLen(t)
    ensures ret == 1 ==> forall i :: first <= i < slot ==> Less(KeyAt(t, i), key)
    ensures ret == 1 ==> forall i :: slot <= i < BlockLen(t) ==> Less(key, KeyAt(t, i))
  {
    var low, high := first, BlockLen(t);
    if low > high {
      return -EINVAL, 0;
    }
    while low < high
      invariant first <= low <= high <= BlockLen(t)
      invariant forall i :: first <= i < low ==> Less(KeyAt(t, i), key)
      invariant forall i :: high <= i < BlockLen(t) ==> Less(key, KeyAt(t, i))
    {
      var mid := (low + high) / 2;
      var c := Compare(KeyAt(t, mid), key);
      TotalOrder(KeyAt(t, mid), key, key);
      if c < 0 {
        forall i | low <= i <= mid ensures Less(KeyAt(t, i), key) {
          TotalOrder(KeyAt(t, i), KeyAt(t, mid), key);
        }
        low := mid + 1;
      } else if c > 0 {
        forall i | mid <= i < high ensures Less(key, KeyAt(t, i)) {
          TotalOrder(key, KeyAt(t, mid), KeyAt(t, i));
        }
        high := mid;
      } else {
        return 0, mid;
      }
    }
    return 1, low;
  }

  /** search_for_key_slot: an exact match in the parent means slot 0 here. */
  method SearchForKeySlot(t: Block, first: nat, key: Key, prevCmp: int) returns (ret: int, slot: nat)
    requires KeysInOrder(t) && first <= BlockLen(t)
    requires prevCmp == 0 ==> first == 0 && BlockLen(t) > 0 && KeyAt(t, 0) == key
    ensures ret in {0, 1}
    ensures ret == 0 ==> first <= slot < BlockLen(t) && KeyAt(t, slot) == key
    ensures ret == 1 ==> first <= slot <= BlockLen(t)
    ensures ret == 1 ==> forall i :: first <= i < slot ==> Less(KeyAt(t, i), key)
    ensures ret == 1 ==> forall i :: slot <= i < BlockLen(t) ==> Less(key, KeyAt(t, i))
  {
    if prevCmp == 0 {
      return 0, 0;
    }
    ret, slot := BinSearch(t, first, key);
  }

  /** The pointer a search for key goes through: the last one whose key is not above
      it, or the first. */
  function Pick(ptrs: seq<Ptr>, key: Key): (i: nat)
    requires ptrs != []
    ensures i < |ptrs|
  {
    if |ptrs| == 1 || !Less(key, ptrs[|ptrs| - 1].key) then |ptrs| - 1 else Pick(ptrs[..|ptrs| - 1], key)
  }

  /** In an ordered node the neighbours of a pointer tell that it is the one. */
  lemma {:induction false} PickIs(ptrs: seq<Ptr>, key: Key, i: nat)
    requires KeysInOrder(Node(ptrs)) && i < |ptrs|
    requires i > 0 ==> !Less(key, ptrs[i].key)
    requires i + 1 < |ptrs| ==> Less(key, ptrs[i + 1].key)
    ensures Pick(ptrs, key) == i
  {
    var n := |ptrs| - 1;
    if i < n {
      assert KeyAt(Node(ptrs), i + 1) == ptrs[i + 1].key && KeyAt(Node(ptrs), n) == ptrs[n].key;
      TotalOrder(key, ptrs[i + 1].key, ptrs[n].key);
      forall a, b | 0 <= a < b < n ensures Less(KeyAt(Node(ptrs[..n]), a), KeyAt(Node(ptrs[..n]), b)) {
        assert KeyAt(Node(ptrs[..n]), a) == KeyAt(Node(ptrs), a) && KeyAt(Node(ptrs[..n]), b) == KeyAt(Node(ptrs), b);
      }
      PickIs(ptrs[..n], key, i);
    }
  }

  /** The items of the leaf in which a search for key ends. */
  function LeafFor(t: Block, key: Key): seq<Item>
    decreases t
  {
    match t
    case Leaf(items) => items
    case Node(ptrs) => if ptrs == [] then [] else LeafFor(ptrs[Pick(ptrs, key)].child, key)
  }

  /** The items from the one with this key on. */
  function From(items: seq<Item>, key: Key): (r: seq<Item>)
    ensures |r| <= |items|
  {
    if items == [] || items[0].key == key then items else From(items[1..], key)
  }

  lemma {:induction false} FromIs(items: seq<Item>, slot: nat, key: Key)
    requires slot <= |items| && (slot < |items| ==> items[slot].key == key)
    requires forall i :: 0 <= i < slot ==> items[i].key != key
    ensures From(items, key) == items[slot..]
  {
    if slot > 0 {
      FromIs(items[1..], slot - 1, key);
      assert items[1..][slot - 1..] == items[slot..];
    }
  }

  // ----- pushing items between leaves -----

  function Free(items: seq<Item>, leafData: nat): int {
    leafData - Space(items)
  }

  /** Bytes counted against the right leaf once items[i..] are to move there. */
  function RightNeed(items: seq<Item>, i: nat, slot: nat, dataSize: nat): nat
    requires i <= |items|
  {
    Space(items[i..]) + if slot >= i then dataSize else 0
  }

  /** Why the scan for pushable items stops in front of item i. */
  predicate RightStops(items: seq<Item>, i: nat, slot: nat, dataSize: nat, empty: bool, rightFree: int, leafData: nat)
    requires i < |items|
  {
    || (!empty && i + 1 < |items| && slot > i)
    || (!empty && i + 1 < |items| && slot == i && Free(items, leafData) + 2 * Space(items[i + 1..]) > rightFree)
    || RightNeed(items, i, slot, dataSize) > rightFree
  }

  lemma NoSpace(items: seq<Item>)
    ensures Space(items[..0]) == 0 && Space(items[|items|..]) == 0
  {
  }

  function FirstPushable(empty: bool, minSlot: nat): (first: nat)
    ensures !empty ==> first > 0
  {
    if empty then 0 else if minSlot > 1 then minSlot else 1
  }

  /** How many items the scan takes that goes down from item i. */
  function RightRun(items: seq<Item>, i: nat, slot: nat, dataSize: nat, empty: bool, rightFree: int, minSlot: nat,
      leafData: nat): (push: nat)
    requires i <= |items|
    ensures push <= i
  {
    if i <= FirstPushable(empty, minSlot) || RightStops(items, i - 1, slot, dataSize, empty, rightFree, leafData) then 0
    else 1 + RightRun(items, i - 1, slot, dataSize, empty, rightFree, minSlot, leafData)
  }

  function RightPush(items: seq<Item>, slot: nat, dataSize: nat, empty: bool, rightFree: int, minSlot: nat,
      leafData: nat): (push: nat)
    ensures push <= |items|
  {
    RightRun(items, |items|, slot, dataSize, empty, rightFree, minSlot, leafData)
  }

  lemma {:induction false} RightRunIs(items: seq<Item>, i: nat, push: nat, slot: nat, dataSize: nat, empty: bool,
      rightFree: int, minSlot: nat, leafData: nat)
    requires push <= i <= |items| && (push > 0 ==> i - push >= FirstPushable(empty, minSlot))
    requires forall j :: i - push <= j < i ==> !RightStops(items, j, slot, dataSize, empty, rightFree, leafData)
    requires i - push > FirstPushable(empty, minSlot)
             ==> RightStops(items, i - push - 1, slot, dataSize, empty, rightFree, leafData)
    ensures RightRun(items, i, slot, dataSize, empty, rightFree, minSlot, leafData) == push
  {
    hide RightStops, FirstPushable;
    if push > 0 {
      RightRunIs(items, i - 1, push - 1, slot, dataSize, empty, rightFree, minSlot, leafData);
    }
  }

  /** The run fits and goes up to the first item that stops it. */
  lemma {:induction false} RightRunStops(items: seq<Item>, i: nat, slot: nat, dataSize: nat, empty: bool,
      rightFree: int, minSlot: nat, leafData: nat)
    requires i <= |items|
    ensures var push := RightRun(items, i, slot, dataSize, empty, rightFree, minSlot, leafData);
            && (push > 0
               ==> i - push >= FirstPushable(empty, minSlot) && RightNeed(items, i - push, slot, dataSize) <= rightFree)
            && (i - push > FirstPushable(empty, minSlot)
               ==> RightStops(items, i - push - 1, slot, dataSize, empty, rightFree, leafData))
  {
    hide FirstPushable, RightNeed;
    if i > FirstPushable(empty, minSlot) && !RightStops(items, i - 1, slot, dataSize, empty, rightFree, leafData) {
      RightRunStops(items, i - 1, slot, dataSize, empty, rightFree, minSlot, leafData);
    }
  }

  lemma {:induction false} RightRunGoesOn(items: seq<Item>, i: nat, slot: nat, dataSize: nat, empty: bool,
      rightFree: int, minSlot: nat, leafData: nat)
    requires i <= |items|
    ensures var push := RightRun(items, i, slot, dataSize, empty, rightFree, minSlot, leafData);
            forall j :: i - push <= j < i ==> !RightStops(items, j, slot, dataSize, empty, rightFree, leafData)
  {
    hide FirstPushable, RightStops;
    if i > FirstPushable(empty, minSlot) && !RightStops(items, i - 1, slot, dataSize, empty, rightFree, leafData) {
      RightRunGoesOn(items, i - 1, slot, dataSize, empty, rightFree, minSlot, leafData);
    }
  }

  /** The scan of __push_leaf_right, item by item from the last one down: which items move, and
      why the next one does not. */
  lemma RightPushIs(items: seq<Item>, slot: nat, dataSize: nat, empty: bool, rightFree: int, minSlot: nat,
      leafData: nat) returns (k: nat)
    ensures k <= |items| && RightPush(items, slot, dataSize, empty, rightFree, minSlot, leafData) == |items| - k
    ensures k < |items| && !empty ==> minSlot <= k && 1 <= k
    ensures forall j :: k <= j < |items| ==> Space(items[j..]) + (if j <= slot then dataSize else 0) <= rightFree
    ensures !empty && k < |items| - 1
            ==> slot <= k && (slot == k ==> leafData - Space(items) + 2 * Space(items[k + 1..]) <= rightFree)
    ensures k > 0 && (!empty ==> k > minSlot && k > 1)
            ==> var j := k - 1;
                || Space(items[j..]) + (if j <= slot then dataSize else 0) > rightFree
                || (!empty && j < |items| - 1 && slot > j)
                || (!empty && j < |items| - 1 && slot == j
                    && leafData - Space(items) + 2 * Space(items[j + 1..]) > rightFree)
  {
    hide Space, RightRun;
    k := |items| - RightPush(items, slot, dataSize, empty, rightFree, minSlot, leafData);
    RightRunStops(items, |items|, slot, dataSize, empty, rightFree, minSlot, leafData);
    RightRunGoesOn(items, |items|, slot, dataSize, empty, rightFree, minSlot, leafData);
    forall j | k <= j < |items| ensures Space(items[j..]) + (if j <= slot then dataSize else 0) <= rightFree {
      assert !RightStops(items, j, slot, dataSize, empty, rightFree, leafData);
    }
    assert k < |items| ==> !RightStops(items, k, slot, dataSize, empty, rightFree, leafData);
  }

  /** Something moves exactly when the scan goes past the last item. */
  lemma RightPushSome(items: seq<Item>, slot: nat, dataSize: nat, empty: bool, rightFree: int, minSlot: nat,
      leafData: nat)
    requires items != []
    ensures var push := RightPush(items, slot, dataSize, empty, rightFree, minSlot, leafData);
            push > 0
            <==> FirstPushable(empty, minSlot) < |items|
                 && !RightStops(items, |items| - 1, slot, dataSize, empty, rightFree, leafData)
    ensures var push := RightPush(items, slot, dataSize, empty, rightFree, minSlot, leafData);
            push > 0
            ==> |items| - push >= FirstPushable(empty, minSlot)
                && RightNeed(items, |items| - push, slot, dataSize) <= rightFree
  {
    hide FirstPushable, RightStops, RightNeed;
    RightRunStops(items, |items|, slot, dataSize, empty, rightFree, minSlot, leafData);
  }

  /** Bytes counted against the left leaf once items[..i] are to move there. */
  function LeftNeed(items: seq<Item>, i: nat, slot: nat, dataSize: nat): nat
    requires i <= |items|
  {
    Space(items[..i]) + if slot < i then dataSize else 0
  }

  predicate LeftStops(items: seq<Item>, i: nat, slot: nat, dataSize: nat, empty: bool, leftFree: int, leafData: nat)
    requires i < |items|
  {
    || (!empty && i > 0 && slot < i)
    || (!empty && i > 0 && slot == i && Free(items, leafData) + 2 * Space(items[..i]) > leftFree)
    || LeftNeed(items, i + 1, slot, dataSize) > leftFree
  }

  /** Where the scan of __push_leaf_left ends at the latest. */
  function LastPushable(n: nat, empty: bool, maxSlot: nat): nat {
    var nr := if empty || n == 0 then n else n - 1;
    if maxSlot < nr then maxSlot else nr
  }

  /** How many items the scan takes that goes up from item i. */
  function LeftRun(items: seq<Item>, i: nat, slot: nat, dataSize: nat, empty: bool, leftFree: int, maxSlot: nat,
      leafData: nat): (push: nat)
    requires i <= |items|
    ensures i + push <= |items|
    decreases |items| - i
  {
    if i >= LastPushable(|items|, empty, maxSlot) || LeftStops(items, i, slot, dataSize, empty, leftFree, leafData)
        then 0
    else 1 + LeftRun(items, i + 1, slot, dataSize, empty, leftFree, maxSlot, leafData)
  }

  function LeftPush(items: seq<Item>, slot: nat, dataSize: nat, empty: bool, leftFree: int, maxSlot: nat,
      leafData: nat): (push: nat)
    ensures push <= |items|
  {
    LeftRun(items, 0, slot, dataSize, empty, leftFree, maxSlot, leafData)
  }

  lemma {:induction false} LeftRunIs(items: seq<Item>, i: nat, push: nat, slot: nat, dataSize: nat, empty: bool,
      leftFree: int, maxSlot: nat, leafData: nat)
    requires i <= push <= LastPushable(|items|, empty, maxSlot)
    requires forall j :: i <= j < push ==> !LeftStops(items, j, slot, dataSize, empty, leftFree, leafData)
    requires push < LastPushable(|items|, empty, maxSlot)
             ==> LeftStops(items, push, slot, dataSize, empty, leftFree, leafData)
    ensures i + LeftRun(items, i, slot, dataSize, empty, leftFree, maxSlot, leafData) == push
    decreases push - i
  {
    hide LeftStops;
    if i < push {
      LeftRunIs(items, i + 1, push, slot, dataSize, empty, leftFree, maxSlot, leafData);
    }
  }

  lemma {:induction false} LeftRunStops(items: seq<Item>, i: nat, slot: nat, dataSize: nat, empty: bool, leftFree: int,
      maxSlot: nat, leafData: nat)
    requires i <= |items|
    ensures var push := i + LeftRun(items, i, slot, dataSize, empty, leftFree, maxSlot, leafData);
            && (push > i
               ==> push <= LastPushable(|items|, empty, maxSlot) && LeftNeed(items, push, slot, dataSize) <= leftFree)
            && (push < LastPushable(|items|, empty, maxSlot)
               ==> LeftStops(items, push, slot, dataSize, empty, leftFree, leafData))
    decreases |items| - i
  {
    hide LeftNeed;
    if i < LastPushable(|items|, empty, maxSlot) && !LeftStops(items, i, slot, dataSize, empty, leftFree, leafData) {
      LeftRunStops(items, i + 1, slot, dataSize, empty, leftFree, maxSlot, leafData);
    }
  }

  lemma {:induction false} LeftRunGoesOn(items: seq<Item>, i: nat, slot: nat, dataSize: nat, empty: bool, leftFree: int,
      maxSlot: nat, leafData: nat)
    requires i <= |items|
    ensures var push := i + LeftRun(items, i, slot, dataSize, empty, leftFree, maxSlot, leafData);
            forall j :: i <= j < push ==> !LeftStops(items, j, slot, dataSize, empty, leftFree, leafData)
    decreases |items| - i
  {
    hide LeftStops;
    if i < LastPushable(|items|, empty, maxSlot) && !LeftStops(items, i, slot, dataSize, empty, leftFree, leafData) {
      LeftRunGoesOn(items, i + 1, slot, dataSize, empty, leftFree, maxSlot, leafData);
    }
  }

  /** The scan of __push_leaf_left, item by item from the first one up. */
  lemma LeftPushIs(items: seq<Item>, slot: nat, dataSize: nat, empty: bool, leftFree: int, maxSlot: nat,
      leafData: nat) returns (k: nat)
    ensures k <= |items| && LeftPush(items, slot, dataSize, empty, leftFree, maxSlot, leafData) == k
    ensures k > 0 ==> k <= maxSlot && (!empty ==> k < |items|)
    ensures forall j :: 0 < j <= k ==> Space(items[..j]) + (if slot < j then dataSize else 0) <= leftFree
    ensures !empty && k > 1
            ==> slot >= k - 1 && (slot == k - 1 ==> leafData - Space(items) + 2 * Space(items[..k - 1]) <= leftFree)
    ensures k < maxSlot && k < (if empty then |items| else |items| - 1)
            ==> || Space(items[..k + 1]) + (if slot <= k then dataSize else 0) > leftFree
                || (!empty && k > 0 && slot < k)
                || (!empty && k > 0 && slot == k && leafData - Space(items) + 2 * Space(items[..k]) > leftFree)
  {
    hide Space, LeftRun;
    k := LeftPush(items, slot, dataSize, empty, leftFree, maxSlot, leafData);
    LeftRunStops(items, 0, slot, dataSize, empty, leftFree, maxSlot, leafData);
    LeftRunGoesOn(items, 0, slot, dataSize, empty, leftFree, maxSlot, leafData);
    forall j | 0 < j <= k ensures Space(items[..j]) + (if slot < j then dataSize else 0) <= leftFree {
      assert !LeftStops(items, j - 1, slot, dataSize, empty, leftFree, leafData);
    }
    assert k > 0 ==> !LeftStops(items, k - 1, slot, dataSize, empty, leftFree, leafData);
  }

  lemma LeftPushSome(items: seq<Item>, slot: nat, dataSize: nat, empty: bool, leftFree: int, maxSlot: nat,
      leafData: nat)
    requires items != []
    ensures var push := LeftPush(items, slot, dataSize, empty, leftFree, maxSlot, leafData);
            push > 0
            <==> 0 < LastPushable(|items|, empty, maxSlot)
                 && !LeftStops(items, 0, slot, dataSize, empty, leftFree, leafData)
    ensures var push := LeftPush(items, slot, dataSize, empty, leftFree, maxSlot, leafData);
            push > 0
            ==> push <= LastPushable(|items|, empty, maxSlot) && LeftNeed(items, push, slot, dataSize) <= leftFree
  {
    hide LeftStops, LeftNeed;
    LeftRunStops(items, 0, slot, dataSize, empty, leftFree, maxSlot, leafData);
  }

  /** How many of the first items fit into so many bytes. */
  function Fits(items: seq<Item>, free: int): (k: nat)
    ensures k <= |items|
  {
    if items == [] || ItemSpace(items[0]) > free then 0 else 1 + Fits(items[1..], free - ItemSpace(items[0]))
  }

  /** Exactly the prefixes up to that length fit. */
  lemma {:induction false} FitsMost(items: seq<Item>, free: int, k: nat)
    requires 0 < k <= |items|
    ensures Space(items[..k]) <= free <==> k <= Fits(items, free)
  {
    assert items[..k][0] == items[0] && items[..k][1..] == items[1..][..k - 1];
    if k > 1 {
      FitsMost(items[1..], free - ItemSpace(items[0]), k - 1);
    }
  }

  // ----- a row of leaves -----

  function MovedRight(row: Row<Item>, dataSize: nat, minSlot: nat, leafData: nat): (r: Row<Item>)
    requires RowOK(row) && row.at + 1 < |row.blocks|
    ensures RowOK(r) && |r.blocks| == |row.blocks|
  {
    var k := RightPush(row.blocks[row.at], row.slot, dataSize, false, Free(row.blocks[row.at + 1], leafData), minSlot,
        leafData);
    if k == 0 then row else GiveRight(row, k)
  }

  /** push_leaf_right without draining */
  function PushedRight(row: Row<Item>, minDataSize: nat, dataSize: nat, minSlot: nat, leafData: nat): (r: Row<Item>)
    requires RowOK(row)
    ensures RowOK(r) && |r.blocks| == |row.blocks|
  {
    if row.at + 1 == |row.blocks| || Free(row.blocks[row.at + 1], leafData) < dataSize then row
    else if row.slot == |row.blocks[row.at]| then Row(row.blocks, row.at + 1, 0)
    else MovedRight(row, minDataSize, minSlot, leafData)
  }

  function MovedLeft(row: Row<Item>, dataSize: nat, maxSlot: nat, leafData: nat): (r: Row<Item>)
    requires RowOK(row) && row.at > 0
    ensures RowOK(r) && |r.blocks| == |row.blocks|
  {
    var k := LeftPush(row.blocks[row.at], row.slot, dataSize, false, Free(row.blocks[row.at - 1], leafData), maxSlot,
        leafData);
    if k == 0 then row else GiveLeft(row, k)
  }

  /** push_leaf_left without draining */
  function PushedLeft(row: Row<Item>, minDataSize: nat, dataSize: nat, maxSlot: nat, leafData: nat): (r: Row<Item>)
    requires RowOK(row)
    ensures RowOK(r) && |r.blocks| == |row.blocks|
  {
    if row.at == 0 || Free(row.blocks[row.at - 1], leafData) < dataSize then row
    else MovedLeft(row, minDataSize, maxSlot, leafData)
  }

  /** The room asked of a sibling: a slot inside the leaf makes up for part of it. */
  function Ask(items: seq<Item>, dataSize: nat, inside: bool, leafData: nat): nat {
    if inside && dataSize > Free(items, leafData) then dataSize - Free(items, leafData) else if inside then 0
        else dataSize
  }

  /** The two pushes that split_leaf tries before it adds a leaf. */
  function PushedAside(row: Row<Item>, dataSize: nat, leafData: nat): (r: Row<Item>)
    requires RowOK(row)
    ensures RowOK(r) && |r.blocks| == |row.blocks|
  {
    var cur := row.blocks[row.at];
    var right, left := Ask(cur, dataSize, row.slot < |cur|, leafData), Ask(cur, dataSize, row.slot > 0, leafData);
    var r := PushedRight(row, right, right, 0, leafData);
    if r != row then r else PushedLeft(row, left, left, |cur|, leafData)
  }

  /** push_for_double_split: first what is behind the slot goes right; then, if the slot is
      still inside a leaf without enough room, what is before it goes left. */
  function PushedApart(row: Row<Item>, dataSize: nat, leafData: nat): (r: Row<Item>)
    requires RowOK(row)
    ensures RowOK(r) && |r.blocks| == |row.blocks|
  {
    var cur := row.blocks[row.at];
    var mid := PushedRight(row, 1, Ask(cur, dataSize, row.slot < |cur|, leafData), row.slot, leafData);
    var items := mid.blocks[mid.at];
    if mid.slot in {0, |items|} || Free(items, leafData) >= dataSize then mid
    else PushedLeft(mid, 1, Ask(items, dataSize, true, leafData), mid.slot, leafData)
  }

  /** What push_leaf_right does to the leaves: nothing when there is no right leaf or it lacks
      the room, no items when the path stands behind the last one, else the last items. */
  lemma PushedRightIs(row: Row<Item>, minDataSize: nat, dataSize: nat, minSlot: nat, leafData: nat) returns (k: nat)
    requires RowOK(row)
    ensures var r, cur := PushedRight(row, minDataSize, dataSize, minSlot, leafData), row.blocks[row.at];
            if row.at + 1 == |row.blocks| || leafData - Space(row.blocks[row.at + 1]) < dataSize then r == row
            else if row.slot == |cur| then r == Row(row.blocks, row.at + 1, 0)
            else
              && k == RightPush(cur, row.slot, minDataSize, false, leafData - Space(row.blocks[row.at + 1]), minSlot,
                       leafData)
              && |r.blocks| == |row.blocks|
              && (forall i :: 0 <= i < |r.blocks| && i != row.at && i != row.at + 1 ==> r.blocks[i] == row.blocks[i])
              && r.blocks[row.at] == cur[..|cur| - k]
              && r.blocks[row.at + 1] == cur[|cur| - k..] + row.blocks[row.at + 1]
              && r.at == (if row.slot < |cur| - k then row.at else row.at + 1)
              && r.slot == (if row.slot < |cur| - k then row.slot else row.slot - (|cur| - k))
  {
    k := 0;
    if row.at + 1 < |row.blocks| {
      k := RightPush(row.blocks[row.at], row.slot, minDataSize, false, leafData - Space(row.blocks[row.at + 1]),
        minSlot,
        leafData);
    }
  }

  /** push_leaf_left: nothing when there is no left leaf or it lacks the room, else the first
      items. */
  lemma PushedLeftIs(row: Row<Item>, minDataSize: nat, dataSize: nat, maxSlot: nat, leafData: nat) returns (k: nat)
    requires RowOK(row)
    ensures var r, cur := PushedLeft(row, minDataSize, dataSize, maxSlot, leafData), row.blocks[row.at];
            if row.at == 0 || leafData - Space(row.blocks[row.at - 1]) < dataSize then r == row
            else
              && k == LeftPush(cur, row.slot, minDataSize, false, leafData - Space(row.blocks[row.at - 1]), maxSlot,
                       leafData)
              && |r.blocks| == |row.blocks|
              && (forall i :: 0 <= i < |r.blocks| && i != row.at && i != row.at - 1 ==> r.blocks[i] == row.blocks[i])
              && r.blocks[row.at - 1] == row.blocks[row.at - 1] + cur[..k]
              && r.blocks[row.at] == cur[k..]
              && r.at == (if row.slot < k then row.at - 1 else row.at)
              && r.slot == (if row.slot < k then |row.blocks[row.at - 1]| + row.slot else row.slot - k)
  {
    k := 0;
    if row.at > 0 {
      k := LeftPush(row.blocks[row.at], row.slot, minDataSize, false, leafData - Space(row.blocks[row.at - 1]), maxSlot,
        leafData);
    }
  }

  /** The two pushes in front of a split, for a leaf without the room.  The right leaf is asked
      first.  It is asked for all the bytes when the path stands behind the last item, else only
      for those the leaf itself lacks, and the left leaf likewise. */
  lemma PushedAsideIs(row: Row<Item>, dataSize: nat, leafData: nat)
    requires RowOK(row) && Space(row.blocks[row.at]) <= leafData < Space(row.blocks[row.at]) + dataSize
    ensures var cur := row.blocks[row.at];
            var lacks := Space(cur) + dataSize - leafData;
            var right := if row.slot < |cur| then lacks else dataSize;
            var left := if row.slot > 0 then lacks else dataSize;
            var r, l := PushedRight(row, right, right, 0, leafData), PushedLeft(row, left, left, |cur|, leafData);
            PushedAside(row, dataSize, leafData) == if r != row then r else l
  {
  }

  /** The pushes in front of a double split: what is behind the slot goes right; then, when the
      path is still inside a leaf without the room, what is before the slot goes left. */
  lemma PushedApartIs(row: Row<Item>, dataSize: nat, leafData: nat)
    requires RowOK(row) && Space(row.blocks[row.at]) <= leafData < Space(row.blocks[row.at]) + dataSize
    requires 0 < row.slot < |row.blocks[row.at]|
    ensures var lacks := Space(row.blocks[row.at]) + dataSize - leafData;
            var r := PushedRight(row, 1, lacks, row.slot, leafData);
            var cur := r.blocks[r.at];
            PushedApart(row, dataSize, leafData)
            == if r.slot == 0 || r.slot == |cur| || Space(cur) + dataSize <= leafData then r
               else PushedLeft(r, 1, Space(cur) + dataSize - leafData, r.slot, leafData)
  {
  }

  /** What a sparse leaf and its neighbours become: as many of its first items as fit go to the
      left leaf; then all that is left goes to the right one, if that has the room and the path
      stays behind; an emptied leaf goes. */
  function Merged(row: Row<Item>, leafData: nat): (r: Row<Item>)
    requires RowOK(row)
  {
    var cur, at := row.blocks[row.at], row.at;
    var k := if at == 0 then 0 else Fits(cur, Free(row.blocks[at - 1], leafData));
    var r := if k == 0 then row else GiveLeft(row, k);
    if k == |cur| then Row(Dropped(r.blocks, at), at, 0)
    else if k <= row.slot && at + 1 < |row.blocks| && Space(r.blocks[at]) <= Free(r.blocks[at + 1], leafData)
    then Row(Dropped(r.blocks[at + 1 := r.blocks[at] + r.blocks[at + 1]], at), at, 0)
    else r
  }

  lemma MergedIs(row: Row<Item>, leafData: nat) returns (k: nat)
    requires RowOK(row) && row.blocks[row.at] != []
    ensures var r, cur, at := Merged(row, leafData), row.blocks[row.at], row.at;
            && k <= |cur|
            // how many of the first items go to the left leaf
            && (at == 0 ==> k == 0)
            && (0 < k ==> Space(row.blocks[at - 1]) + Space(cur[..k]) <= leafData)
            && (0 < at && k < |cur| ==> Space(row.blocks[at - 1]) + Space(cur[..k + 1]) > leafData)
            // where the rest goes
            && (if k == |cur| then
                  |r.blocks| == |row.blocks| - 1 && r.blocks[at..] == row.blocks[at + 1..]
                else if k <= row.slot && at + 1 < |row.blocks|
                        && Space(cur[k..]) + Space(row.blocks[at + 1]) <= leafData then
                  && |r.blocks| == |row.blocks| - 1
                  && r.blocks[at..] == [cur[k..] + row.blocks[at + 1]] + row.blocks[at + 2..]
                else
                  && r.blocks[at..] == [cur[k..]] + row.blocks[at + 1..]
                  && r.at == (if row.slot < k then at - 1 else at)
                  && r.slot == (if row.slot < k then |row.blocks[at - 1]| + row.slot else row.slot - k))
            && (0 < at ==> r.blocks[..at] == row.blocks[..at - 1] + [row.blocks[at - 1] + cur[..k]])
  {
    hide Space, Fits, GiveLeft, Dropped;
    var cur, at := row.blocks[row.at], row.at;
    k := if at == 0 then 0 else Fits(cur, Free(row.blocks[at - 1], leafData));
    var r := if k == 0 then row else GiveLeft(row, k);
    if 0 < at && 0 < k {
      FitsMost(cur, Free(row.blocks[at - 1], leafData), k);
    }
    if 0 < at && k < |cur| {
      FitsMost(cur, Free(row.blocks[at - 1], leafData), k + 1);
    }
    GivenLeft(row, k);
    DroppedIs(r.blocks, at);
    if at + 1 < |row.blocks| {
      assert r.blocks[at + 1] == r.blocks[at..][1] == row.blocks[at + 1..][0];
      assert r.blocks[at + 2..] == row.blocks[at + 2..] by {
        assert r.blocks[at + 2..] == r.blocks[at..][2..] && row.blocks[at + 2..] == row.blocks[at + 1..][1..];
      }
      DroppedFor(r.blocks, at, r.blocks[at] + r.blocks[at + 1]);
    }
    assert r.blocks[at] == r.blocks[at..][0];
  }

  /** Why split_leaf gives up: the leaf is too full for need more bytes, and they do not
      fit into any leaf together with the item that has the key. */
  ghost predicate Overflows(items: seq<Item>, key: Key, need: int, leafData: nat) {
    Free(items, leafData) < need && TooBig(items, key, need, leafData)
  }

  lemma OverflowsIs(items: seq<Item>, key: Key, need: int, leafData: nat)
    ensures Overflows(items, key, need, leafData)
            <==> && Space(items) + need > leafData
                 && exists i :: 0 <= i < |items| && items[i].key == key && need + 25 + |items[i].data| > leafData
  {
    hide Space;
  }

  // ----- where to cut a leaf -----

  datatype Plan = PushFirst | NewLeaf | CutLeaf(mid: nat, again: bool)

  /** What PlanSplit decides. */
  function PlanOf(items: seq<Item>, slot: nat, dataSize: nat, extend: bool, tried: bool, leafData: nat): (p: Plan)
    ensures p.CutLeaf? ==> p.mid <= |items|
  {
    var m := (|items| + 1) / 2;
    if (if m <= slot then |items| > 1 && Space(items[m..]) + dataSize <= leafData
        else Space(items[..m]) + dataSize <= leafData) then CutLeaf(m, false)
    else if slot >= |items| then NewLeaf
    else if slot == 0 then if extend then CutLeaf(1, false) else NewLeaf
    else if Space(items[slot..]) + dataSize <= leafData then CutLeaf(slot, false)
    else if tried then CutLeaf(slot, true)
    else PushFirst
  }

  /** The branches of split_leaf that choose mid and the kind of split: 0 for a new
      empty leaf, 1 for a plain split, 2 for the first half of a double split, or a
      request to push items away first. */
  method PlanSplit(items: seq<Item>, slot: nat, dataSize: nat, extend: bool, triedAvoidDouble: bool, leafData: nat)
    returns (split: int, mid: nat, pushFirst: bool)
    requires items != [] && slot <= |items| && 0 <= Free(items, leafData) < dataSize <= leafData
    requires extend ==> slot < |items| && dataSize + ItemSpace(items[slot]) <= leafData
    ensures split in {0, 1, 2}
    ensures pushFirst ==> !triedAvoidDouble
    ensures pushFirst || split == 2 ==> 0 < slot < |items| && Space(items[slot..]) + dataSize > leafData
    ensures !pushFirst && split == 0 ==> slot == |items| || (slot == 0 && !extend)
    ensures !pushFirst && split == 1 ==> 0 < mid < |items|
    ensures !pushFirst && split == 1
            ==> (if slot < mid then Space(items[..mid]) else Space(items[mid..])) + dataSize <= leafData
    ensures !pushFirst && split == 2 ==> mid == slot
    ensures PlanOf(items, slot, dataSize, extend, triedAvoidDouble, leafData)
         == if pushFirst then PushFirst else if split == 0 then NewLeaf else CutLeaf(mid, split == 2)
    // the middle, if the side of the slot then has room
    ensures var m := (|items| + 1) / 2;
            var middle := if m <= slot then |items| > 1 && Space(items[m..]) + dataSize <= leafData
                          else Space(items[..m]) + dataSize <= leafData;
            && (middle ==> !pushFirst && split == 1 && mid == m)
            && (!middle && slot == |items| ==> !pushFirst && split == 0)
            && (!middle && slot == 0 && !extend ==> !pushFirst && split == 0)
            && (!middle && slot == 0 && extend ==> !pushFirst && split == 1 && mid == 1)
            // else the slot, in two steps when what follows it is still too much
            && (!middle && 0 < slot < |items| ==>
                  if Space(items[slot..]) + dataSize <= leafData then !pushFirst && split == 1 && mid == slot
                  else if triedAvoidDouble then !pushFirst && split == 2 && mid == slot
                  else pushFirst)
  {
    var nritems := |items|;
    split, pushFirst, mid := 1, false, (nritems + 1) / 2;
    if mid == nritems {
      assert items[..mid] == items;
    }
    if mid <= slot {
      if nritems == 1 || Space(items[mid..]) + dataSize > leafData {
        if slot >= nritems {
          split := 0;
        } else {
          mid := slot;
          if mid != nritems && Space(items[mid..]) + dataSize > leafData {
            if dataSize > 0 && !triedAvoidDouble {
              pushFirst := true;
            } else {
              split := 2;
            }
          }
        }
      }
    } else {
      if Space(items[..mid]) + dataSize > leafData {
        if !extend && dataSize > 0 && slot == 0 {
          split := 0;
        } else if (extend || dataSize == 0) && slot == 0 {
          mid := 1;
          assert items[..mid] == [items[slot]] && [items[slot]][1..] == [];
          assert Space(items[..mid]) == ItemSpace(items[slot]);
        } else {
          mid := slot;
          if mid != nritems && Space(items[mid..]) + dataSize > leafData {
            if dataSize > 0 && !triedAvoidDouble {
              pushFirst := true;
            } else {
              split := 2;
            }
          }
        }
      }
    }
  }

  /** The leaves after some rounds of split_leaf; tried says that pushing to both sides was
      tried before. */
  function SplitRow(row: Row<Item>, dataSize: nat, extend: bool, tried: bool, rounds: nat, leafData: nat): Row<Item>
    requires RowOK(row)
    decreases rounds
  {
    if rounds == 0 then row
    else
      match PlanOf(row.blocks[row.at], row.slot, dataSize, extend, tried, leafData)
      case PushFirst =>
        var r := PushedApart(row, dataSize, leafData);
        if Free(r.blocks[r.at], leafData) >= dataSize then r
        else SplitRow(r, dataSize, extend, true, rounds - 1, leafData)
      case NewLeaf => WithEmpty(row)
      case CutLeaf(mid, again) =>
        var r := CutAt(row, mid);
        if again then SplitRow(r, dataSize, extend, tried, rounds - 1, leafData) else r
  }

  lemma SplitRowStep(row: Row<Item>, dataSize: nat, extend: bool, tried: bool, rounds: nat, leafData: nat)
    requires RowOK(row) && rounds > 0
    ensures var r, p := SplitRow(row, dataSize, extend, tried, rounds, leafData),
                PlanOf(row.blocks[row.at], row.slot, dataSize, extend, tried, leafData);
            && (p.PushFirst? ==>
                  var apart := PushedApart(row, dataSize, leafData);
                  r == if Free(apart.blocks[apart.at], leafData) >= dataSize then apart
                       else SplitRow(apart, dataSize, extend, true, rounds - 1, leafData))
            && (p.NewLeaf? ==> r == WithEmpty(row))
            && (p.CutLeaf? && p.again ==>
                  r == SplitRow(CutAt(row, p.mid), dataSize, extend, tried, rounds - 1, leafData))
            && (p.CutLeaf? && !p.again ==> r == CutAt(row, p.mid))
  {
    hide PushedApart, PlanOf, CutAt, WithEmpty;
  }

  /** What split_leaf does to the row of leaves when no push makes the room. */
  lemma SplitRowIs(row: Row<Item>, dataSize: nat, extend: bool, tried: bool, rounds: nat, leafData: nat)
    requires RowOK(row) && rounds > 0
    ensures var cur, slot := row.blocks[row.at], row.slot;
            var m := (|cur| + 1) / 2;
            var r := SplitRow(row, dataSize, extend, tried, rounds, leafData);
            // the middle, when the half with the slot has the room
            if m <= slot && |cur| > 1 && Space(cur[m..]) + dataSize <= leafData then r == CutAt(row, m)
            else if slot < m && Space(cur[..m]) + dataSize <= leafData then r == CutAt(row, m)
            // at an end of the leaf nothing is cut but the item to extend
            else if slot == |cur| || (slot == 0 && !extend) then r == WithEmpty(row)
            else if slot == 0 then r == CutAt(row, 1)
            // inside, the slot, when what follows leaves the room
            else if Space(cur[slot..]) + dataSize <= leafData then r == CutAt(row, slot)
            // else the neighbours once more, and as the last resort a second split
            else if tried then r == SplitRow(CutAt(row, slot), dataSize, extend, tried, rounds - 1, leafData)
            else
              var apart := PushedApart(row, dataSize, leafData);
              r == if Space(apart.blocks[apart.at]) + dataSize <= leafData then apart
                   else SplitRow(apart, dataSize, extend, true, rounds - 1, leafData)
  {
    hide PushedApart;
  }

  // ----- leaf pairs -----

  /** check_sibling_keys on leaves: true when something is wrong. */
  predicate BadLeafOrder(left: seq<Item>, right: seq<Item>) {
    |left| > 0 && |right| > 0 && Compare(left[|left| - 1].key, right[0].key) >= 0
  }

  lemma LeafSiblingOrder(l: seq<Ptr>, a: seq<Item>, b: seq<Item>, r: seq<Ptr>, tail: seq<Frame>, leafData: nat)
    requires PairOK(l, Leaf(a), Leaf(b), r, tail, 0, leafData)
    ensures !BadLeafOrder(a, b)
  {
    var pre, post := Before(tail) + FlattenPtrs(l), FlattenPtrs(r) + After(tail);
    assert PairItems(l, Leaf(a), Leaf(b), r, tail) == pre + (a + b) + post;
    SortedMiddle(pre, a + b, post);
    SortedParts(a, b);
    TotalOrder(a[|a| - 1].key, b[0].key, b[0].key);
  }

  function LeafPairPrefix(l: seq<Ptr>, ab: seq<Item>, tail: seq<Frame>, g: nat): seq<Item>
    requires g <= |ab|
  {
    Before(tail) + FlattenPtrs(l) + ab[..g]
  }

  function LeafPairSuffix(ab: seq<Item>, r: seq<Ptr>, tail: seq<Frame>, g: nat): seq<Item>
    requires g <= |ab|
  {
    ab[g..] + FlattenPtrs(r) + After(tail)
  }

  lemma LeafPositionOnLeft(l: seq<Ptr>, a: seq<Item>, b: seq<Item>, r: seq<Ptr>, tail: seq<Frame>, g: nat)
    requires g <= |a| && a != [] && b != []
    ensures var above := OnLeft(l, a[0].key, Ptr(b[0].key, Leaf(b)), r, tail);
            && Prefix(above, Leaf(a), g) == LeafPairPrefix(l, a + b, tail, g)
            && Suffix(above, Leaf(a), g) == LeafPairSuffix(a + b, r, tail, g)
  {
    LeftItems(l, Leaf(a), Leaf(b), r, tail);
    assert (a + b)[..g] == a[..g] && (a + b)[g..] == a[g..] + b;
    Regroup3(a[g..], b, FlattenPtrs(r), After(tail));
  }

  lemma LeafPositionOnRight(l: seq<Ptr>, a: seq<Item>, b: seq<Item>, r: seq<Ptr>, tail: seq<Frame>, g: nat)
    requires |a| <= g <= |a| + |b| && a != [] && b != []
    ensures var above := OnRight(l, Ptr(a[0].key, Leaf(a)), b[0].key, r, tail);
            && Prefix(above, Leaf(b), g - |a|) == LeafPairPrefix(l, a + b, tail, g)
            && Suffix(above, Leaf(b), g - |a|) == LeafPairSuffix(a + b, r, tail, g)
  {
    RightItems(l, Leaf(a), Leaf(b), r, tail);
    assert (a + b)[..g] == a + b[..g - |a|] && (a + b)[g..] == b[g - |a|..];
    Regroup4(Before(tail) + FlattenPtrs(l), a, b[..g - |a|]);
    Regroup4(b[g - |a|..], FlattenPtrs(r), After(tail));
  }

  /** Moving k items between leaf siblings keeps the pair sound. */
  lemma LeafPairSound(l: seq<Ptr>, a: seq<Item>, b: seq<Item>, a': seq<Item>, b': seq<Item>, r: seq<Ptr>,
      tail: seq<Frame>, leafData: nat)
    requires PairOK(l, Leaf(a), Leaf(b), r, tail, 0, leafData)
    requires a' + b' == a + b && a' != [] && b' != [] && Space(a') <= leafData && Space(b') <= leafData
    ensures PairOK(l, Leaf(a'), Leaf(b'), r, tail, 0, leafData)
  {
    Exchange(l, Leaf(a), Leaf(b), Leaf(a'), Leaf(b'), r, tail, 0, leafData);
  }

  /** The last items of the left leaf move to the front of the right one. */
  lemma LeafMoveRight(l: seq<Ptr>, a: seq<Item>, b: seq<Item>, k: nat, r: seq<Ptr>, tail: seq<Frame>, leafData: nat)
    requires PairOK(l, Leaf(a), Leaf(b), r, tail, 0, leafData)
    requires 0 < k <= |a| && Space(a[k..]) + Space(b) <= leafData
    ensures PairOK(l, Leaf(a[..k]), Leaf(a[k..] + b), r, tail, 0, leafData)
    ensures a[..k] + (a[k..] + b) == a + b
    ensures Space(a[k..] + b) == Space(a[k..]) + Space(b)
  {
    SpaceSplit(a, k);
    SpaceConcat(a[k..], b);
    LeafPairSound(l, a, b, a[..k], a[k..] + b, r, tail, leafData);
  }

  /** The first items of the right leaf move to the end of the left one. */
  lemma LeafMoveLeft(l: seq<Ptr>, a: seq<Item>, b: seq<Item>, k: nat, r: seq<Ptr>, tail: seq<Frame>, leafData: nat)
    requires PairOK(l, Leaf(a), Leaf(b), r, tail, 0, leafData)
    requires 0 <= k < |b| && Space(a) + Space(b[..k]) <= leafData
    ensures PairOK(l, Leaf(a + b[..k]), Leaf(b[k..]), r, tail, 0, leafData)
    ensures (a + b[..k]) + b[k..] == a + b
    ensures Space(a + b[..k]) == Space(a) + Space(b[..k])
  {
    SpaceSplit(b, k);
    SpaceConcat(a, b[..k]);
    LeafPairSound(l, a, b, a + b[..k], b[k..], r, tail, leafData);
  }

  /** A path through a leaf, read as a position in the pair with its left sibling. */
  lemma LeafPairFromRight(above: seq<Frame>, items: seq<Item>, slot: nat, leafData: nat)
    requires above != [] && above[0].left != [] && PathOK(above, Leaf(items), 0, leafData) && slot <= |items|
    ensures LastOf(above[0].left).child.Leaf? && LastOf(above[0].left).child.items != []
    ensures var f := above[0]; var left := LastOf(f.left).child.items;
            && PairOK(InitOf(f.left), Leaf(left), Leaf(items), f.right, above[1..], 0, leafData)
            && Prefix(above, Leaf(items), slot)
               == LeafPairPrefix(InitOf(f.left), left + items, above[1..], slot + |left|)
            && Suffix(above, Leaf(items), slot) == LeafPairSuffix(left + items, f.right, above[1..], slot + |left|)
  {
    hide PairOK, LeafPairPrefix, LeafPairSuffix, Prefix, Suffix, Sorted, CtxOK, FlattenPtrs;
    PairWithLeft(above, Leaf(items), 0, leafData);
    PairBlocks(InitOf(above[0].left), LastOf(above[0].left).child, Leaf(items), above[0].right, above[1..], 0,
      leafData);
    var f := above[0];
    LeafPositionOnRight(InitOf(f.left), LastOf(f.left).child.items, items, f.right, above[1..],
      slot + |LastOf(f.left).child.items|);
    assert OnRight(InitOf(f.left), LastOf(f.left), items[0].key, f.right, above[1..]) == above;
  }

  /** The same with the right sibling. */
  lemma LeafPairFromLeft(above: seq<Frame>, items: seq<Item>, slot: nat, leafData: nat)
    requires above != [] && above[0].right != [] && PathOK(above, Leaf(items), 0, leafData) && slot <= |items|
    ensures above[0].right[0].child.Leaf? && above[0].right[0].child.items != []
    ensures var f := above[0]; var right := f.right[0].child.items;
            && PairOK(f.left, Leaf(items), Leaf(right), f.right[1..], above[1..], 0, leafData)
            && Prefix(above, Leaf(items), slot) == LeafPairPrefix(f.left, items + right, above[1..], slot)
            && Suffix(above, Leaf(items), slot) == LeafPairSuffix(items + right, f.right[1..], above[1..], slot)
  {
    hide PairOK, LeafPairPrefix, LeafPairSuffix, Prefix, Suffix, Sorted, CtxOK, FlattenPtrs;
    PairWithRight(above, Leaf(items), 0, leafData);
    PairBlocks(above[0].left, Leaf(items), above[0].right[0].child, above[0].right[1..], above[1..], 0, leafData);
    var f := above[0];
    LeafPositionOnLeft(f.left, items, f.right[0].child.items, f.right[1..], above[1..], slot);
    assert OnLeft(f.left, items[0].key, f.right[0], f.right[1..], above[1..]) == above;
  }

  /** Cutting a leaf in two under a parent with room for one more pointer. */
  lemma LeafSplitSound(above: seq<Frame>, items: seq<Item>, mid: nat, leafData: nat)
    requires above != [] && PathOK(above, Leaf(items), 0, leafData)
    requires 0 < mid < |items| && FrameLen(above[0]) < Capacity(leafData)
    ensures PairOK(above[0].left, Leaf(items[..mid]), Leaf(items[mid..]), above[0].right, above[1..], 0, leafData)
  {
    hide Sorted, PtrsOK, FlattenPtrs, Before, After, Prefix, Suffix, LeafPairPrefix, LeafPairSuffix, CtxOK;
    var f := above[0];
    var a, b := items[..mid], items[mid..];
    SpaceSplit(items, mid);
    assert a + b == items;
    LeafInFrame(above, items, mid);
    assert PairItems(f.left, Leaf(a), Leaf(b), f.right, above[1..]) == Whole(above, Leaf(items));
    FrameSound(above, 0, items[0].key, leafData);
  }

  lemma LeafInFrame(above: seq<Frame>, items: seq<Item>, slot: nat)
    requires above != [] && slot <= |items|
    ensures Prefix(above, Leaf(items), slot) == LeafPairPrefix(above[0].left, items, above[1..], slot)
    ensures Suffix(above, Leaf(items), slot) == LeafPairSuffix(items, above[0].right, above[1..], slot)
    ensures Whole(above, Leaf(items)) == Before(above[1..]) + FlattenPtrs(above[0].left) + items
            + FlattenPtrs(above[0].right) + After(above[1..])
  {
    hide Before, After, FlattenPtrs;
    var f := above[0];
    FrameSides(above);
    Regroup4(Before(above[1..]) + FlattenPtrs(f.left) + items, FlattenPtrs(f.right), After(above[1..]));
    Regroup4(items[slot..], FlattenPtrs(f.right), After(above[1..]));
  }

  /** A new empty leaf to the right of a full one, for a key beyond its last item. */
  lemma EmptyLeafAfter(above: seq<Frame>, items: seq<Item>, key: Key, leafData: nat)
    requires above != [] && PathOK(above, Leaf(items), 0, leafData) && FrameLen(above[0]) < Capacity(leafData)
    ensures var f := above[0];
            var above' := [Frame(f.left + [Ptr(f.key, Leaf(items))], key, f.right)] + above[1..];
            && CtxOK(above', 0, key, leafData)
            && Before(above') == Before(above) + items && After(above') == After(above)
            && above'[1..] == above[1..]
  {
    var f := above[0];
    var p := Ptr(f.key, Leaf(items));
    var above' := [Frame(f.left + [p], key, f.right)] + above[1..];
    assert above'[1..] == above[1..];
    FlattenConcat(f.left, [p]);
    FlattenOne(p);
    PtrsOKConcat(f.left, [p], 0, leafData);
    assert PtrOK([p][0], 0, leafData);
    assert FrameLow(above'[0]) == FrameLow(f);
    Regroup4(Before(above[1..]), FlattenPtrs(f.left), items);
  }

  /** A new empty leaf to the left of a full one, for a key before its first item. */
  lemma EmptyLeafBefore(above: seq<Frame>, items: seq<Item>, key: Key, leafData: nat)
    requires above != [] && PathOK(above, Leaf(items), 0, leafData) && FrameLen(above[0]) < Capacity(leafData)
    ensures var f := above[0];
            var above' := [Frame(f.left, key, [Ptr(f.key, Leaf(items))] + f.right)] + above[1..];
            && (f.left != [] ==> CtxOK(above', 0, key, leafData))
            && CtxOK(FixLow(above', key), 0, key, leafData)
            && Before(above') == Before(above) && After(above') == items + After(above)
            && above'[1..] == above[1..]
  {
    var f := above[0];
    var p := Ptr(f.key, Leaf(items));
    var asWas := [Frame(f.left, f.key, [p] + f.right)] + above[1..];
    var above' := [Frame(f.left, key, [p] + f.right)] + above[1..];
    assert above'[1..] == above[1..] == asWas[1..];
    FlattenConcat([p], f.right);
    FlattenOne(p);
    PtrsOKConcat([p], f.right, 0, leafData);
    assert PtrOK([p][0], 0, leafData);
    assert CtxOK(asWas, 0, f.key, leafData);
    FixLowOK(asWas, key, 0, f.key, leafData);
    assert FixLow(asWas, key) == FixLow(above', key);
    Regroup4(items, FlattenPtrs(f.right), After(above[1..]));
  }

  // ----- emptying a leaf -----

  /** All items of a leaf moved to its left sibling: what is left around the leaf. */
  lemma DrainedLeft(l: seq<Ptr>, a: seq<Item>, b: seq<Item>, k: Key, r: seq<Ptr>, tail: seq<Frame>, leafData: nat)
    requires PairOK(l, Leaf(a), Leaf(b), r, tail, 0, leafData) && Space(a) + Space(b) <= leafData
    ensures var above := [Frame(l + [Ptr(a[0].key, Leaf(a + b))], k, r)] + tail;
            && CtxOK(above, 0, k, leafData) && above[1..] == tail
            && Before(above) + After(above) == PairItems(l, Leaf(a), Leaf(b), r, tail)
  {
    hide Sorted, Before, After, FlattenPtrs, PtrsOK;
    var p := Ptr(a[0].key, Leaf(a + b));
    var above := [Frame(l + [p], k, r)] + tail;
    assert above[1..] == tail;
    SpaceConcat(a, b);
    SinglePtr(p, leafData);
    PtrsOKConcat(l, [p], 0, leafData);
    FlattenConcat(l, [p]);
    FrameSides(above);
    assert FrameLow(above[0]) == HeadKey(l, a[0].key);
    DrainRegroup(Before(tail), FlattenPtrs(l), a + b, FlattenPtrs(r), After(tail));
  }

  /** All items of a leaf moved to its right sibling. */
  lemma DrainedRight(l: seq<Ptr>, a: seq<Item>, b: seq<Item>, k: Key, r: seq<Ptr>, tail: seq<Frame>, leafData: nat)
    requires PairOK(l, Leaf(a), Leaf(b), r, tail, 0, leafData) && Space(a) + Space(b) <= leafData && k == a[0].key
    ensures var above := [Frame(l, k, [Ptr(a[0].key, Leaf(a + b))] + r)] + tail;
            && CtxOK(above, 0, k, leafData) && above[1..] == tail
            && Before(above) + After(above) == PairItems(l, Leaf(a), Leaf(b), r, tail)
  {
    hide Sorted, Before, After, FlattenPtrs, PtrsOK;
    var p := Ptr(a[0].key, Leaf(a + b));
    var above := [Frame(l, k, [p] + r)] + tail;
    assert above[1..] == tail;
    SpaceConcat(a, b);
    SinglePtr(p, leafData);
    PtrsOKConcat([p], r, 0, leafData);
    FlattenConcat([p], r);
    FrameSides(above);
    assert FrameLow(above[0]) == HeadKey(l, a[0].key);
    DrainRegroup2(Before(tail), FlattenPtrs(l), a + b, FlattenPtrs(r), After(tail));
  }

  lemma SinglePtr(p: Ptr, leafData: nat)
    requires p.child.Leaf? && p.child.items != [] && Space(p.child.items) <= leafData && p.key == p.child.items[0].key
    ensures PtrsOK([p], 0, leafData) && FlattenPtrs([p]) == p.child.items
  {
    assert PtrOK(p, 0, leafData);
    FlattenOne(p);
  }

  lemma DrainRegroup<T>(t: seq<T>, l: seq<T>, ab: seq<T>, r: seq<T>, u: seq<T>)
    ensures (t + (l + ab)) + (r + u) == t + l + ab + r + u
  {
  }

  lemma DrainRegroup2<T>(t: seq<T>, l: seq<T>, ab: seq<T>, r: seq<T>, u: seq<T>)
    ensures (t + l) + ((ab + r) + u) == t + l + ab + r + u
  {
  }

  /** The pointer to an emptied leaf removed from its parent. */
  lemma HoleRemoved(above: seq<Frame>, leafData: nat)
    requires above != [] && FrameLen(above[0]) >= 2 && CtxOK(above, 0, above[0].key, leafData)
    requires Sorted(Before(above) + After(above))
    ensures var f := above[0];
            var node := Node(f.left + f.right);
            var tail := if f.left == [] then FixLow(above[1..], f.right[0].key) else above[1..];
            PathOK(tail, node, 1, leafData) && Whole(tail, node) == Before(above) + After(above)
  {
    hide Sorted, Before, After, FlattenPtrs, PtrsOK;
    var f := above[0];
    var ps := f.left + f.right;
    FrameSides(above);
    FlattenConcat(f.left, f.right);
    PtrsOKConcat(f.left, f.right, 0, leafData);
    if f.left == [] {
      FixLowOK(above[1..], f.right[0].key, 1, FrameLow(f), leafData);
      FixLowKeeps(above[1..], f.right[0].key);
    }
    var tail := if f.left == [] then FixLow(above[1..], f.right[0].key) else above[1..];
    HoleRegroup(Before(above[1..]), FlattenPtrs(f.left), FlattenPtrs(f.right), After(above[1..]));
    assert Whole(tail, Node(ps)) == Before(above) + After(above);
  }

  lemma HoleRegroup<T>(t: seq<T>, l: seq<T>, r: seq<T>, u: seq<T>)
    ensures t + (l + r) + u == (t + l) + (r + u)
  {
  }
}
