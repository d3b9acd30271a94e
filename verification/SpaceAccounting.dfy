/** Counters kept twice, in each block group and in the space info they share: they agree
    through every transition. */
module SpaceAccounting {

  const ENOSPC := 28
  const ETXTBSY := 26
  const EAGAIN := 11
  const ENOENT := 2

  /** What one block group holds, and what the totals of a space info are made of. */
  datatype Group = Group(length: nat, used: nat, reserved: nat, pinned: nat, bytesSuper: nat, ro: nat)
  datatype Totals = Totals(total: int, used: int, reserved: int, pinned: int, readonly: int)

  /** Bytes that nobody uses, reserves or pins. */
  function Unused(g: Group): int {
    g.length - g.reserved - g.pinned - g.bytesSuper - g.used
  }

  predicate Sound(g: Group) {
    Unused(g) >= 0
  }

  /** The share of a block group in the totals: a read-only group also counts its unused
      bytes as read-only. */
  function Share(g: Group): Totals {
    Totals(g.length, g.used, g.reserved, g.pinned, g.bytesSuper + if g.ro > 0 then Unused(g) else 0)
  }

  function Plus(a: Totals, b: Totals): Totals {
    Totals(a.total + b.total, a.used + b.used, a.reserved + b.reserved, a.pinned + b.pinned, a.readonly + b.readonly)
  }

  function Minus(a: Totals, b: Totals): Totals {
    Totals(a.total - b.total, a.used - b.used, a.reserved - b.reserved, a.pinned - b.pinned, a.readonly - b.readonly)
  }

  const NOTHING := Totals(0, 0, 0, 0, 0)

  /** The kind of allocation a data group is kept for. */
  datatype SizeClass = Unset | Small | Medium | Large

  const SZ_128K := 0x2_0000
  const SZ_8M := 0x80_0000

  /** btrfs_calc_block_group_size_class */
  function SizeClassFor(size: nat): (c: SizeClass)
    ensures c != Unset
    ensures (c == Small <==> size <= 128 * 1024) && (c == Large <==> size > 8 * 1024 * 1024)
  {
    if size <= SZ_128K then Small else if size <= SZ_8M then Medium else Large
  }

  class SpaceInfo {
    const data: bool
    const metadata: bool
    var total: nat
    var used: nat
    var reserved: nat
    var pinned: nat
    var readonly: nat
    var mayUse: nat

    constructor (data: bool, metadata: bool)
      ensures Counters() == NOTHING && mayUse == 0
    {
      this.data, this.metadata := data, metadata;
      total, used, reserved, pinned, readonly, mayUse := 0, 0, 0, 0, 0, 0;
    }

    function Counters(): Totals
      reads this
    {
      Totals(total, used, reserved, pinned, readonly)
    }

    /** btrfs_space_info_used, with may_use included */
    function UsedOrPromised(): nat
      reads this
    {
      used + reserved + pinned + readonly + mayUse
    }
  }

  class BlockGroup {
    const start: nat
    const length: nat
    const bytesSuper: nat
    const space: SpaceInfo
    var used: nat
    var reserved: nat
    var pinned: nat
    var ro: nat
    var swapExtents: nat
    var delallocBytes: nat
    var sizeClass: SizeClass

    constructor (start: nat, length: nat, used: nat, bytesSuper: nat, space: SpaceInfo)
      ensures this.start == start && this.length == length && this.space == space
      ensures State() == Group(length, used, 0, 0, bytesSuper, 0)
    {
      this.start, this.length, this.used, this.bytesSuper, this.space := start, length, used, bytesSuper, space;
      reserved, pinned, ro, swapExtents, delallocBytes := 0, 0, 0, 0, 0;
      sizeClass := Unset;
    }

    function State(): Group
      reads this
    {
      Group(length, used, reserved, pinned, bytesSuper, ro)
    }

    /** The space info changed by exactly what this group's share changed. */
    twostate predicate InStep()
      reads this, space
    {
      space.Counters() == Plus(Minus(old(space.Counters()), Share(old(State()))), Share(State()))
    }

    /** The group's share is part of the totals. */
    predicate Counted()
      reads this, space
    {
      && Sound(State())
      && used <= space.used && reserved <= space.reserved && pinned <= space.pinned && length <= space.total
      && Share(State()).readonly <= space.readonly
    }

    /** inc_block_group_ro; canOvercommit is what btrfs_can_overcommit answers. */
    method IncRo(force: bool, canOvercommit: bool) returns (ret: int)
      requires Counted()
      modifies this`ro, space`readonly
      ensures Sound(State()) && InStep()
      ensures ret == if swapExtents > 0 then -ETXTBSY
                     else if old(ro) > 0 || force then 0
                     else if space.data then (if old(space.used + space.reserved + space.pinned + space.readonly
                       + space.mayUse + (length - used - reserved - pinned - bytesSuper)) <= space.total
                       then 0 else -ENOSPC)
                     else if canOvercommit then 0 else -ENOSPC
      ensures space.readonly == old(space.readonly)
              + if ret == 0 && old(ro) == 0 then length - used - reserved - pinned - bytesSuper else 0
      ensures ro == if ret == 0 then old(ro) + 1 else old(ro)
    {
      ret := -ENOSPC;
      if swapExtents > 0 {
        return -ETXTBSY;
      }
      if ro > 0 {
        ro := ro + 1;
        return 0;
      }
      var numBytes := length - reserved - pinned - bytesSuper - used;
      if force {
        ret := 0;
      } else if space.data {
        if space.UsedOrPromised() + numBytes <= space.total {
          ret := 0;
        }
      } else if canOvercommit {
        ret := 0;
      }
      if ret == 0 {
        space.readonly := space.readonly + numBytes;
        ro := ro + 1;
      }
    }

    /** btrfs_dec_block_group_ro */
    method DecRo()
      requires Counted() && ro > 0
      modifies this`ro, space`readonly
      ensures Sound(State()) && InStep() && ro == old(ro) - 1
      ensures space.readonly == old(space.readonly)
              - if ro == 0 then length - used - reserved - pinned - bytesSuper else 0
    {
      ro := ro - 1;
      if ro == 0 {
        var numBytes := length - reserved - pinned - bytesSuper - used;
        space.readonly := space.readonly - numBytes;
      }
    }

    /** btrfs_block_group_should_use_size_class, without zoned devices */
    predicate HasSizeClass() {
      space.data && !space.metadata
    }

    /** btrfs_use_block_group_size_class: the first allocation sets the class, a later one
        of another class is refused unless it is forced. */
    method UseSizeClass(wanted: SizeClass, force: bool) returns (ret: int)
      requires wanted != Unset
      modifies this`sizeClass
      ensures ret == if force || old(sizeClass) in {Unset, wanted} then 0 else -EAGAIN
      ensures sizeClass == if old(sizeClass) == Unset then wanted else old(sizeClass)
    {
      if sizeClass == wanted {
        return 0;
      }
      if sizeClass != Unset {
        if force {
          return 0;
        }
        return -EAGAIN;
      }
      sizeClass := wanted;
      ret := 0;
    }

    /** The group takes no reservation of this size: it is read-only, or kept for another size class. */
    predicate Refuses(numBytes: nat, force: bool)
      reads this
    {
      ro > 0 || (HasSizeClass() && !force && sizeClass !in {Unset, SizeClassFor(numBytes)})
    }

    /** btrfs_add_reserved_bytes: the allocator has found numBytes free in the group. */
    method AddReservedBytes(ramBytes: nat, numBytes: nat, delalloc: bool, force: bool) returns (ret: int)
      requires Counted() && numBytes <= Unused(State()) && ramBytes <= space.mayUse
      modifies this`reserved, this`delallocBytes, this`sizeClass, space`reserved, space`mayUse
      ensures Sound(State()) && InStep()
      ensures ret == if old(Refuses(numBytes, force)) then -EAGAIN else 0
      ensures ret == -EAGAIN <==>
              || ro > 0
              || (space.data && !space.metadata && !force && match old(sizeClass) {
                    case Unset => false
                    case Small => numBytes > 128 * 1024
                    case Medium => numBytes <= 128 * 1024 || numBytes > 8 * 1024 * 1024
                    case Large => numBytes <= 8 * 1024 * 1024
                  })
      ensures sizeClass == if ret == 0 && HasSizeClass() && old(sizeClass) == Unset then SizeClassFor(numBytes)
              else old(sizeClass)
      ensures delallocBytes == old(delallocBytes) + if ret == 0 && delalloc then numBytes else 0
      ensures ret == 0 ==> reserved == old(reserved) + numBytes && space.mayUse == old(space.mayUse) - ramBytes
      ensures space.reserved == old(space.reserved) + if ret == 0 then numBytes else 0
      ensures ret != 0 ==> State() == old(State()) && space.mayUse == old(space.mayUse)
    {
      if ro > 0 {
        return -EAGAIN;
      }
      if HasSizeClass() {
        ret := UseSizeClass(SizeClassFor(numBytes), force);
        if ret != 0 {
          return;
        }
      }
      reserved := reserved + numBytes;
      space.reserved := space.reserved + numBytes;
      space.mayUse := space.mayUse - ramBytes;
      if delalloc {
        delallocBytes := delallocBytes + numBytes;
      }
      ret := 0;
    }

    /** btrfs_free_reserved_bytes */
    method FreeReservedBytes(numBytes: nat, delalloc: bool)
      requires Counted() && numBytes <= reserved && (delalloc ==> numBytes <= delallocBytes)
      modifies this`reserved, this`delallocBytes, space`reserved, space`readonly
      ensures Sound(State()) && InStep() && reserved == old(reserved) - numBytes
      ensures delallocBytes == old(delallocBytes) - if delalloc then numBytes else 0
      ensures space.reserved == old(space.reserved) - numBytes
      ensures space.readonly == old(space.readonly) + if ro > 0 then numBytes else 0
    {
      if ro > 0 {
        space.readonly := space.readonly + numBytes;
      }
      reserved := reserved - numBytes;
      space.reserved := space.reserved - numBytes;
      if delalloc {
        delallocBytes := delallocBytes - numBytes;
      }
    }

    /** One turn of btrfs_update_block_group: reserved bytes become used, or used ones pinned. */
    method UpdateOne(numBytes: nat, alloc: bool)
      requires Counted() && numBytes <= if alloc then reserved else used
      modifies this`used, this`reserved, this`pinned, space`used, space`reserved, space`pinned
      ensures Sound(State()) && InStep()
      ensures State() == if alloc then old(State()).(used := old(used) + numBytes, reserved := old(reserved) - numBytes)
                         else old(State()).(used := old(used) - numBytes, pinned := old(pinned) + numBytes)
      ensures alloc ==> space.used == old(space.used) + numBytes && space.reserved == old(space.reserved) - numBytes
                        && space.pinned == old(space.pinned)
      ensures !alloc ==> space.used == old(space.used) - numBytes && space.pinned == old(space.pinned) + numBytes
                         && space.reserved == old(space.reserved)
    {
      if alloc {
        used := used + numBytes;
        reserved := reserved - numBytes;
        space.reserved := space.reserved - numBytes;
        space.used := space.used + numBytes;
      } else {
        used := used - numBytes;
        pinned := pinned + numBytes;
        space.pinned := space.pinned + numBytes;
        space.used := space.used - numBytes;
      }
    }

    /** The counters of unpin_extent_range. */
    method Unpin(numBytes: nat)
      requires Counted() && numBytes <= pinned
      modifies this`pinned, space`pinned, space`readonly
      ensures Sound(State()) && InStep() && pinned == old(pinned) - numBytes
      ensures space.pinned == old(space.pinned) - numBytes
      ensures space.readonly == old(space.readonly) + if ro > 0 then numBytes else 0
    {
      pinned := pinned - numBytes;
      space.pinned := space.pinned - numBytes;
      if ro > 0 {
        space.readonly := space.readonly + numBytes;
      }
    }

    /** Before an unused group is deleted, what is still pinned is dropped; the group has
        been made read-only by then. */
    method ResetPinned()
      requires Counted() && ro > 0
      modifies this`pinned, space`pinned, space`readonly
      ensures Sound(State()) && InStep() && pinned == 0
      ensures space.pinned == old(space.pinned) - old(pinned) && space.readonly == old(space.readonly) + old(pinned)
    {
      space.pinned := space.pinned - pinned;
      space.readonly := space.readonly + pinned;
      pinned := 0;
    }

    /** Any of these transitions of the group. */
    method Step(op: Op) returns (ret: int)
      requires Counted() && Allowed(this, op)
      modifies this, space
      ensures Sound(State()) && InStep()
      ensures State() == After(old(State()), op, ret == 0)
      ensures op.AddReserved? ==> (ret == 0 <==> !old(Refuses(op.numBytes, op.force)))
      ensures !op.AddReserved? && !op.IncRo? ==> ret == 0
      ensures op.IncRo? ==> ret == if swapExtents > 0 then -ETXTBSY
                                   else if old(ro) > 0 || op.forced then 0
                                   else if space.data then (if old(space.UsedOrPromised()
                                     + Unused(State())) <= space.total then 0 else -ENOSPC)
                                   else if op.canOvercommit then 0 else -ENOSPC
      ensures !op.AddReserved? ==> sizeClass == old(sizeClass)
                                   && space.mayUse == old(space.mayUse)
      ensures op.AddReserved? ==> space.mayUse == old(space.mayUse) - if ret == 0 then op.ramBytes else 0
      ensures delallocBytes == old(delallocBytes)
              + (if op.AddReserved? && op.delalloc && ret == 0 then op.numBytes else 0)
              - (if op.FreeReserved? && op.delallocFreed then op.bytes else 0)
      ensures swapExtents == old(swapExtents)
    {
      hide Sound, Share;
      ret := 0;
      match op {
        case IncRo(force, canOvercommit) => ret := IncRo(force, canOvercommit);
        case DecRo => DecRo();
        case AddReserved(ramBytes, numBytes, delalloc, force) => ret := AddReservedBytes(ramBytes, numBytes, delalloc,
          force);
        case FreeReserved(numBytes, delalloc) => FreeReservedBytes(numBytes, delalloc);
        case Unpin(numBytes) => Unpin(numBytes);
        case ResetPinned => ResetPinned();
      }
    }
  }

  /** The transitions of one group. */
  datatype Op =
    | IncRo(forced: bool, canOvercommit: bool)
    | DecRo
    | AddReserved(ramBytes: nat, numBytes: nat, delalloc: bool, force: bool)
    | FreeReserved(bytes: nat, delallocFreed: bool)
    | Unpin(unpinned: nat)
    | ResetPinned

  /** The group after a transition that was granted or refused. */
  function After(g: Group, op: Op, granted: bool): Group {
    match op
    case IncRo(_, _) => if granted then g.(ro := g.ro + 1) else g
    case DecRo => g.(ro := Rest(g.ro, 1))
    case AddReserved(_, numBytes, _, _) => if granted then g.(reserved := g.reserved + numBytes) else g
    case FreeReserved(bytes, _) => g.(reserved := Rest(g.reserved, bytes))
    case Unpin(unpinned) => g.(pinned := Rest(g.pinned, unpinned))
    case ResetPinned => g.(pinned := 0)
  }

  function Rest(n: nat, taken: nat): nat {
    if n < taken then 0 else n - taken
  }

  /** What the callers guarantee: they give back no more than was taken, and reserve what
      the allocator found free. */
  predicate Allowed(g: BlockGroup, op: Op)
    reads g, g.space
  {
    match op
    case IncRo(_, _) => true
    case DecRo => g.ro > 0
    case AddReserved(ramBytes, numBytes, _, _) => numBytes <= Unused(g.State()) && ramBytes <= g.space.mayUse
    case FreeReserved(bytes, delallocFreed) => bytes <= g.reserved && (delallocFreed ==> bytes <= g.delallocBytes)
    case Unpin(unpinned) => unpinned <= g.pinned
    case ResetPinned => g.ro > 0
  }

  // ----- sums over all the groups -----

  datatype Member = Member(space: SpaceInfo, state: Group)

  ghost function View(groups: seq<BlockGroup>): (v: seq<Member>)
    reads groups
    ensures |v| == |groups|
  {
    seq(|groups|, i requires 0 <= i < |groups| reads groups => Member(groups[i].space, groups[i].State()))
  }

  /** The totals that a space info should have. */
  function Sum(v: seq<Member>, s: SpaceInfo): Totals {
    if v == [] then NOTHING
    else
      var n := |v| - 1;
      if v[n].space == s then Plus(Sum(v[..n], s), Share(v[n].state)) else Sum(v[..n], s)
  }

  lemma {:induction false} SumUpdate(v: seq<Member>, k: nat, g: Group, s: SpaceInfo)
    requires k < |v|
    ensures Sum(v[k := v[k].(state := g)], s)
         == if v[k].space == s then Plus(Minus(Sum(v, s), Share(v[k].state)), Share(g)) else Sum(v, s)
  {
    var n, m := |v| - 1, v[k].(state := g);
    if k == n {
      assert v[k := m][..n] == v[..n];
    } else {
      assert v[k := m][..n] == v[..n][k := m];
      SumUpdate(v[..n], k, g, s);
    }
  }

  lemma {:induction false} SumRemove(v: seq<Member>, k: nat, s: SpaceInfo)
    requires k < |v|
    ensures Sum(v[..k] + v[k + 1..], s) == if v[k].space == s then Minus(Sum(v, s), Share(v[k].state)) else Sum(v, s)
  {
    var n, w := |v| - 1, v[..k] + v[k + 1..];
    if k == n {
      assert w == v[..n];
    } else {
      assert w[..n - 1] == v[..n][..k] + v[..n][k + 1..];
      SumRemove(v[..n], k, s);
    }
  }

  lemma SumAppend(v: seq<Member>, m: Member, s: SpaceInfo)
    ensures Sum(v + [m], s) == if m.space == s then Plus(Sum(v, s), Share(m.state)) else Sum(v, s)
  {
    assert (v + [m])[..|v|] == v;
  }

  ghost predicate AllSound(v: seq<Member>) {
    forall i :: 0 <= i < |v| ==> Sound(v[i].state)
  }

  predicate AtMost(a: Totals, b: Totals) {
    a.total <= b.total && a.used <= b.used && a.reserved <= b.reserved && a.pinned <= b.pinned
      && a.readonly <= b.readonly
  }

  lemma {:induction false} ShareInSum(v: seq<Member>, k: nat)
    requires k < |v| && AllSound(v)
    ensures AtMost(Share(v[k].state), Sum(v, v[k].space))
  {
    var n := |v| - 1;
    SumPositive(v[..n], v[k].space);
    if k < n {
      ShareInSum(v[..n], k);
    }
  }

  lemma {:induction false} SumPositive(v: seq<Member>, s: SpaceInfo)
    requires AllSound(v)
    ensures AtMost(NOTHING, Sum(v, s))
  {
    if v != [] {
      SumPositive(v[..|v| - 1], s);
    }
  }

  function Overlap(g: BlockGroup, lo: nat, hi: nat): nat {
    var a, b := if lo > g.start then lo else g.start, if hi < g.start + g.length then hi else g.start + g.length;
    if a < b then b - a else 0
  }

  /** h is g after n of its bytes were allocated, or freed. */
  predicate Moved(g: Group, h: Group, n: nat, alloc: bool) {
    && h == g.(used := h.used, reserved := h.reserved, pinned := h.pinned)
    && if alloc then h.used == g.used + n && h.reserved == g.reserved - n && h.pinned == g.pinned
       else h.used == g.used - n && h.reserved == g.reserved && h.pinned == g.pinned + n
  }

  function Signed(n: int, alloc: bool): int {
    if alloc then n else -n
  }

  function TotalUsed(v: seq<Member>): nat {
    if v == [] then 0 else TotalUsed(v[..|v| - 1]) + v[|v| - 1].state.used
  }

  lemma {:induction false} TotalUsedUpdate(v: seq<Member>, k: nat, g: Group)
    requires k < |v|
    ensures TotalUsed(v[k := v[k].(state := g)]) == TotalUsed(v) - v[k].state.used + g.used
  {
    var n, m := |v| - 1, v[k].(state := g);
    if k == n {
      assert v[k := m][..n] == v[..n];
    } else {
      assert v[k := m][..n] == v[..n][k := m];
      TotalUsedUpdate(v[..n], k, g);
    }
  }

  /** All the block groups, and the space infos they belong to. */
  class FileSystem {
    var groups: seq<BlockGroup>
    ghost var spaces: set<SpaceInfo>
    var superUsed: int      // bytes_used of the super block copy

    ghost predicate Valid()
      reads this, groups, spaces
    {
      && (forall i, j :: 0 <= i < j < |groups| ==> groups[i] != groups[j])
      && Disjoint(groups)
      && (forall i :: 0 <= i < |groups| ==> groups[i].space in spaces)
      && AllSound(View(groups))
      && forall s :: s in spaces ==> s.Counters() == Sum(View(groups), s)
    }

    constructor ()
      ensures Valid() && groups == [] && spaces == {} && superUsed == 0
    {
      groups, spaces, superUsed := [], {}, 0;
    }

    lemma GroupCounted(k: nat)
      requires Valid() && k < |groups|
      ensures groups[k].Counted()
    {
      ShareInSum(View(groups), k);
    }

    /** A transition of one group in step with its space info keeps all the sums. */
    lemma StillBalanced(v: seq<Member>, k: nat, was: Totals)
      requires k < |groups| && |v| == |groups| && v[k].space == groups[k].space && groups[k].space in spaces
      requires View(groups) == v[k := v[k].(state := groups[k].State())] && AllSound(v) && Sound(groups[k].State())
      requires was == Sum(v, groups[k].space)
      requires groups[k].space.Counters() == Plus(Minus(was, Share(v[k].state)), Share(groups[k].State()))
      requires forall s :: s in spaces && s != groups[k].space ==> s.Counters() == Sum(v, s)
      ensures AllSound(View(groups)) && forall s :: s in spaces ==> s.Counters() == Sum(View(groups), s)
    {
      forall s | s in spaces ensures s.Counters() == Sum(View(groups), s) {
        SumUpdate(v, k, groups[k].State(), s);
      }
    }

    /** One group goes through a transition. */
    method Apply(k: nat, op: Op) returns (ret: int)
      requires Valid() && k < |groups| && Allowed(groups[k], op)
      modifies groups[k], groups[k].space
      ensures Valid()
      ensures View(groups) == old(View(groups))[k := Member(groups[k].space,
              After(old(groups[k].State()), op, ret == 0))]
      ensures op.AddReserved? ==> (ret == 0 <==> !old(groups[k].Refuses(op.numBytes, op.force)))
      ensures !op.AddReserved? && !op.IncRo? ==> ret == 0
      ensures op.IncRo? ==> ret == if groups[k].swapExtents > 0 then -ETXTBSY
                                   else if old(groups[k].ro) > 0 || op.forced then 0
                                   else if groups[k].space.data then (if old(groups[k].space.UsedOrPromised()
                                     + Unused(groups[k].State())) <= groups[k].space.total then 0 else -ENOSPC)
                                   else if op.canOvercommit then 0 else -ENOSPC
      ensures !op.AddReserved? ==> groups[k].sizeClass == old(groups[k].sizeClass)
                                   && groups[k].space.mayUse == old(groups[k].space.mayUse)
      ensures op.AddReserved?
              ==> groups[k].space.mayUse == old(groups[k].space.mayUse) - if ret == 0 then op.ramBytes else 0
      ensures groups[k].delallocBytes == old(groups[k].delallocBytes)
              + (if op.AddReserved? && op.delalloc && ret == 0 then op.numBytes else 0)
              - (if op.FreeReserved? && op.delallocFreed then op.bytes else 0)
      ensures groups[k].swapExtents == old(groups[k].swapExtents)
    {
      hide Sum, Share, Sound, After;
      ghost var v, was := View(groups), groups[k].space.Counters();
      GroupCounted(k);
      ret := groups[k].Step(op);
      assert View(groups) == v[k := v[k].(state := groups[k].State())];
      StillBalanced(v, k, was);
    }

    /** btrfs_lookup_block_group */
    method Lookup(bytenr: nat) returns (found: bool, k: nat)
      ensures found ==> k < |groups| && groups[k].start <= bytenr < groups[k].start + groups[k].length
      ensures found <==> InGroup(groups, bytenr)
    {
      k := 0;
      while k < |groups|
        invariant 0 <= k <= |groups|
        invariant forall i :: 0 <= i < k ==> !(groups[i].start <= bytenr < groups[i].start + groups[i].length)
      {
        if groups[k].start <= bytenr < groups[k].start + groups[k].length {
          return true, k;
        }
        k := k + 1;
      }
      found := false;
    }

    /** One turn of the loop, with its group in step. */
    method UpdateTurn(k: nat, n: nat, alloc: bool, ghost v0: seq<Member>, ghost lo: nat, ghost mid: nat, ghost hi: nat)
      requires Valid() && k < |groups| && |v0| == |groups| && lo <= mid && mid + n <= hi
      requires groups[k].start <= mid && mid + n <= groups[k].start + groups[k].length
      requires CanTake(groups, v0, lo, hi, alloc) && AllMoved(groups, v0, View(groups), lo, mid, alloc)
      modifies {groups[k]}`used, {groups[k]}`reserved, {groups[k]}`pinned
      modifies groups[k].space`used, groups[k].space`reserved, groups[k].space`pinned
      ensures Valid() && AllMoved(groups, v0, View(groups), lo, mid + n, alloc)
      ensures TotalUsed(View(groups)) == old(TotalUsed(View(groups))) + Signed(n, alloc)
    {
      hide Sum, Share, Sound, CanTake, AllMoved, TotalUsed, Overlap;
      ghost var v, was := View(groups), groups[k].space.Counters();
      TurnFits(groups, v0, v, k, lo, mid, n, hi, alloc);
      GroupCounted(k);
      groups[k].UpdateOne(n, alloc);
      assert View(groups) == v[k := v[k].(state := groups[k].State())];
      StillBalanced(v, k, was);
      TurnMoves(groups, v0, v, k, groups[k].State(), lo, mid, n, alloc);
    }

    lemma SpaceIsKnown(k: nat)
      requires Valid() && k < |groups|
      ensures groups[k].space in spaces
    {
    }

    /** The count of used bytes in the super block copy. */
    method CountInSuper(n: int)
      requires Valid()
      modifies this`superUsed
      ensures Valid() && superUsed == old(superUsed) + n
    {
      superUsed := superUsed + n;
    }

    /** The body of the loop: the group at bytenr takes what it holds of the range. */
    method TakePart(bytenr: nat, total: nat, alloc: bool, ghost v0: seq<Member>, ghost lo: nat)
        returns (found: bool, n: nat)
      requires Valid() && |v0| == |groups| && lo <= bytenr && 0 < total
      requires CanTake(groups, v0, lo, bytenr + total, alloc) && AllMoved(groups, v0, View(groups), lo, bytenr, alloc)
      requires Covered(groups, lo, bytenr)
      modifies groups`used, groups`reserved, groups`pinned, spaces`used, spaces`reserved, spaces`pinned
      ensures Valid() && (found <==> InGroup(groups, bytenr)) && (if found then 0 < n <= total else n == 0)
      ensures AllMoved(groups, v0, View(groups), lo, bytenr + n, alloc) && Covered(groups, lo, bytenr + n)
      ensures TotalUsed(View(groups)) == old(TotalUsed(View(groups))) + Signed(n, alloc)
    {
      hide Valid, TotalUsed, CanTake, AllMoved, View, Covered, InGroup;
      var k;
      found, k := Lookup(bytenr);
      n := 0;
      if found {
        var byteInGroup := bytenr - groups[k].start;
        n := if total < groups[k].length - byteInGroup then total else groups[k].length - byteInGroup;
        SpaceIsKnown(k);
        GroupCovers(groups, k, lo, bytenr, n);
        UpdateTurn(k, n, alloc, v0, lo, bytenr, bytenr + total);
      }
    }

    /** btrfs_update_block_group: each group on the way takes its part of the range; the
        call stops at the first address that no group has. */
    method UpdateBlockGroup(bytenr0: nat, numBytes: nat, alloc: bool) returns (ret: int, ghost end: nat)
      requires Valid() && CanTake(groups, View(groups), bytenr0, bytenr0 + numBytes, alloc)
      modifies this`superUsed, groups`used, groups`reserved, groups`pinned
      modifies spaces`used, spaces`reserved, spaces`pinned
      ensures superUsed == if alloc then old(superUsed) + numBytes else old(superUsed) - numBytes
      ensures Valid() && groups == old(groups) && bytenr0 <= end <= bytenr0 + numBytes
      ensures AllMoved(groups, old(View(groups)), View(groups), bytenr0, end, alloc)
      ensures ret == if Covered(groups, bytenr0, bytenr0 + numBytes) then 0 else -ENOENT
      ensures Covered(groups, bytenr0, end) && (end < bytenr0 + numBytes ==> !InGroup(groups, end))
      ensures superUsed - TotalUsed(View(groups))
           == old(superUsed - TotalUsed(View(groups))) + Signed(bytenr0 + numBytes - end, alloc)
      ensures superUsed - TotalUsed(View(groups)) == old(superUsed - TotalUsed(View(groups)))
         <==> Covered(groups, bytenr0, bytenr0 + numBytes)
    {
      hide Valid, TotalUsed, CanTake, AllMoved, View, Covered, InGroup;
      ghost var v0 := View(groups);
      var total, bytenr := numBytes, bytenr0;
      CountInSuper(Signed(numBytes, alloc));
      ret := 0;
      NoneMoved(groups, v0, bytenr0, alloc);
      NothingCovered(groups, bytenr0);
      assert View(groups) == v0;
      while total > 0
        invariant Valid() && groups == old(groups) && spaces == old(spaces) && ret == 0
        invariant superUsed == old(superUsed) + Signed(numBytes, alloc)
        invariant 0 <= total && bytenr0 <= bytenr && bytenr + total == bytenr0 + numBytes
        invariant AllMoved(groups, v0, View(groups), bytenr0, bytenr, alloc)
        invariant Covered(groups, bytenr0, bytenr)
        invariant TotalUsed(View(groups)) == TotalUsed(v0) + Signed(bytenr - bytenr0, alloc)
        decreases total
      {
        var found, n := TakePart(bytenr, total, alloc, v0, bytenr0);
        if !found {
          ret := -ENOENT;
          break;
        }
        total := total - n;
        bytenr := bytenr + n;
      }
      end := bytenr;
      FirstGap(groups, bytenr0, end, bytenr0 + numBytes);
    }

    /** btrfs_add_bg_to_space_info (space-info.c): a new group counts its super blocks as read-only. */
    method Register(bg: BlockGroup)
      requires Valid() && bg !in groups && Sound(bg.State()) && bg.reserved == bg.pinned == bg.ro == 0
      requires bg.space in spaces || bg.space.Counters() == NOTHING
      requires forall i :: 0 <= i < |groups|
                   ==> groups[i].start + groups[i].length <= bg.start || bg.start + bg.length <= groups[i].start
      modifies this, bg.space
      ensures Valid() && groups == old(groups) + [bg] && spaces == old(spaces) + {bg.space}
              && superUsed == old(superUsed)
      ensures bg.space.mayUse == old(bg.space.mayUse) && bg.space.total == old(bg.space.total) + bg.length
      ensures bg.space.used == old(bg.space.used) + bg.used
              && bg.space.readonly == old(bg.space.readonly) + bg.bytesSuper
    {
      hide Share, Sum, Sound, AllSound, Disjoint;
      ghost var v := View(groups);
      SoundAppend(v, Member(bg.space, bg.State()));
      ApartAppend(groups, bg);
      NewShare(bg.State());
      if bg.space !in spaces {
        SumOfStranger(v, bg.space);
      }
      bg.space.total := bg.space.total + bg.length;
      bg.space.used := bg.space.used + bg.used;
      bg.space.readonly := bg.space.readonly + bg.bytesSuper;
      groups := groups + [bg];
      spaces := spaces + {bg.space};
      assert View(groups) == v + [Member(bg.space, bg.State())];
      forall s | s in spaces ensures s.Counters() == Sum(View(groups), s) {
        SumAppend(v, Member(bg.space, bg.State()), s);
      }
    }

    /** The counters of btrfs_remove_block_group. */
    method Remove(k: nat)
      requires Valid() && k < |groups| && groups[k].ro > 0
      requires groups[k].used == groups[k].reserved == groups[k].pinned == 0
      modifies this, groups[k].space
      ensures Valid() && groups == old(groups[..k] + groups[k + 1..]) && spaces == old(spaces)
      ensures superUsed == old(superUsed) && unchanged(old(groups[k]).space`mayUse)
      ensures old(groups[k]).space.total == old(groups[k].space.total - groups[k].length)
      ensures old(groups[k]).space.readonly == old(groups[k].space.readonly - groups[k].length)
    {
      hide Sum, AllSound, Disjoint;
      SoundRemove(View(groups), k);
      ApartRemove(groups, k);
      ghost var v, s0 := View(groups), groups[k].space;
      GroupCounted(k);
      RemovalBalances(groups[k].State());
      var space := groups[k].space;
      space.total := space.total - groups[k].length;
      space.readonly := space.readonly - groups[k].length;
      ghost var was := groups;
      groups := groups[..k] + groups[k + 1..];
      assert View(groups) == v[..k] + v[k + 1..];
      forall s | s in spaces ensures s.Counters() == Sum(View(groups), s) {
        SumRemove(v, k, s);
      }
    }
  }

  /** Some group holds the address. */
  ghost predicate InGroup(groups: seq<BlockGroup>, b: nat) {
    exists i :: 0 <= i < |groups| && groups[i].start <= b < groups[i].start + groups[i].length
  }

  /** Every address of the range lies in a group. */
  ghost predicate Covered(groups: seq<BlockGroup>, lo: nat, hi: nat) {
    forall b: nat :: lo <= b < hi ==> InGroup(groups, b)
  }

  lemma NothingCovered(groups: seq<BlockGroup>, lo: nat)
    ensures Covered(groups, lo, lo)
  {
  }

  /** A range covered up to an address that no group has is covered only when it ends there. */
  lemma FirstGap(groups: seq<BlockGroup>, lo: nat, end: nat, hi: nat)
    requires lo <= end <= hi && Covered(groups, lo, end) && (end < hi ==> !InGroup(groups, end))
    ensures Covered(groups, lo, hi) <==> end == hi
  {
  }

  lemma GroupCovers(groups: seq<BlockGroup>, k: nat, lo: nat, mid: nat, n: nat)
    requires k < |groups| && Covered(groups, lo, mid)
    requires groups[k].start <= mid && mid + n <= groups[k].start + groups[k].length
    ensures Covered(groups, lo, mid + n)
  {
  }

  /** Every group has what the range takes from it. */
  ghost predicate CanTake(groups: seq<BlockGroup>, v: seq<Member>, lo: nat, hi: nat, alloc: bool)
    requires |v| == |groups|
  {
    forall i :: 0 <= i < |groups|
        ==> Overlap(groups[i], lo, hi) <= if alloc then v[i].state.reserved else v[i].state.used
  }

  /** Every group has moved the bytes of lo..mid that it holds. */
  ghost predicate AllMoved(groups: seq<BlockGroup>, v0: seq<Member>, v: seq<Member>, lo: nat, mid: nat, alloc: bool)
    requires |v0| == |v| == |groups|
  {
    forall i :: 0 <= i < |groups| ==> Moved(v0[i].state, v[i].state, Overlap(groups[i], lo, mid), alloc)
  }

  ghost predicate Disjoint(groups: seq<BlockGroup>) {
    forall i, j :: 0 <= i < j < |groups|
        ==> groups[i].start + groups[i].length <= groups[j].start
            || groups[j].start + groups[j].length <= groups[i].start
  }

  lemma SoundAppend(v: seq<Member>, m: Member)
    requires AllSound(v) && Sound(m.state)
    ensures AllSound(v + [m])
  {
    hide Sound;
  }

  lemma SoundRemove(v: seq<Member>, k: nat)
    requires AllSound(v) && k < |v|
    ensures AllSound(v[..k] + v[k + 1..])
  {
    hide Sound;
  }

  lemma ApartAppend(groups: seq<BlockGroup>, bg: BlockGroup)
    requires Disjoint(groups)
    requires forall i :: 0 <= i < |groups|
                 ==> groups[i].start + groups[i].length <= bg.start || bg.start + bg.length <= groups[i].start
    ensures Disjoint(groups + [bg])
  {
  }

  lemma ApartRemove(groups: seq<BlockGroup>, k: nat)
    requires Disjoint(groups) && k < |groups|
    ensures Disjoint(groups[..k] + groups[k + 1..])
  {
  }

  lemma NewShare(g: Group)
    requires g.ro == 0
    ensures Share(g) == Totals(g.length, g.used, g.reserved, g.pinned, g.bytesSuper)
  {
  }

  lemma NoneMoved(groups: seq<BlockGroup>, v: seq<Member>, lo: nat, alloc: bool)
    requires |v| == |groups|
    ensures AllMoved(groups, v, v, lo, lo, alloc)
  {
  }

  lemma TurnFits(groups: seq<BlockGroup>, v0: seq<Member>, v: seq<Member>, k: nat, lo: nat, mid: nat, n: nat, hi: nat,
      alloc: bool)
    requires |v0| == |v| == |groups| && k < |groups| && lo <= mid && mid + n <= hi
    requires groups[k].start <= mid && mid + n <= groups[k].start + groups[k].length
    requires CanTake(groups, v0, lo, hi, alloc) && AllMoved(groups, v0, v, lo, mid, alloc)
    ensures n <= if alloc then v[k].state.reserved else v[k].state.used
  {
    assert Moved(v0[k].state, v[k].state, Overlap(groups[k], lo, mid), alloc);
  }

  lemma TurnMoves(groups: seq<BlockGroup>, v0: seq<Member>, v: seq<Member>, k: nat, g: Group, lo: nat, mid: nat,
      n: nat, alloc: bool)
    requires |v0| == |v| == |groups| && k < |groups| && lo <= mid && Disjoint(groups)
    requires groups[k].start <= mid && mid + n <= groups[k].start + groups[k].length
    requires AllMoved(groups, v0, v, lo, mid, alloc) && Moved(v[k].state, g, n, alloc)
    ensures AllMoved(groups, v0, v[k := v[k].(state := g)], lo, mid + n, alloc)
    ensures TotalUsed(v[k := v[k].(state := g)]) == TotalUsed(v) + Signed(n, alloc)
  {
    hide TotalUsed;
    TotalUsedUpdate(v, k, g);
    var w := v[k := v[k].(state := g)];
    forall i | 0 <= i < |groups| ensures Moved(v0[i].state, w[i].state, Overlap(groups[i], lo, mid + n), alloc) {
      assert Moved(v0[i].state, v[i].state, Overlap(groups[i], lo, mid), alloc);
    }
  }

  lemma {:induction false} SumOfStranger(v: seq<Member>, s: SpaceInfo)
    requires forall i :: 0 <= i < |v| ==> v[i].space != s
    ensures Sum(v, s) == NOTHING
  {
    if v != [] {
      SumOfStranger(v[..|v| - 1], s);
    }
  }

  /** The counts do come apart: one group of 100 bytes, an allocation of 20 that ends 10
      beyond it. */
  method AllocateBeyondTheEnd() returns (fs: FileSystem, ret: int)
    ensures fs.Valid() && ret == -ENOENT && fs.superUsed - TotalUsed(View(fs.groups)) == 10
  {
    hide FileSystem.Valid, AllMoved, CanTake, InGroup, Covered, Sound, Sum, TotalUsed;
    fs := OneGroup();
    ret := fs.Apply(0, AddReserved(0, 10, false, true));
    OneGroupTakes(fs.groups, View(fs.groups));
    ghost var end;
    ret, end := fs.UpdateBlockGroup(90, 20, true);
    OneGroupEnds(fs.groups, end);
  }

  lemma OneGroupTakes(groups: seq<BlockGroup>, v: seq<Member>)
    requires |groups| == |v| == 1 && groups[0].start == 0 && groups[0].length == 100
    requires v[0].state == Group(100, 0, 10, 0, 0, 0)
    ensures CanTake(groups, v, 90, 110, true) && TotalUsed(v) == 0
  {
    assert v[..0] == [];
  }

  lemma OneGroupEnds(groups: seq<BlockGroup>, end: nat)
    requires |groups| == 1 && groups[0].start == 0 && groups[0].length == 100
    requires 90 <= end <= 110 && Covered(groups, 90, end) && (end < 110 ==> !InGroup(groups, end))
    ensures end == 100 && !Covered(groups, 90, 110)
  {
    assert !InGroup(groups, 100);
    assert end < 100 ==> InGroup(groups, end);
  }

  method OneGroup() returns (fs: FileSystem)
    ensures fs.Valid() && fresh(fs) && fs.superUsed == 0 && |fs.groups| == 1 && fresh(fs.groups[0])
            && fresh(fs.groups[0].space)
    ensures fs.spaces == {fs.groups[0].space}
    ensures fs.groups[0].start == 0 && fs.groups[0].length == 100 && fs.groups[0].State() == Group(100, 0, 0, 0, 0, 0)
  {
    var space := new SpaceInfo(true, false);
    var bg := new BlockGroup(0, 100, 0, 0, space);
    fs := new FileSystem();
    fs.Register(bg);
  }

  /** Taking the whole length of a read-only group from total and read-only bytes leaves
      the totals balanced exactly when nothing of it is used, reserved or pinned. */
  lemma RemovalBalances(g: Group)
    requires g.ro > 0
    ensures Share(g) == Totals(g.length, 0, 0, 0, g.length) <==> g.used == g.reserved == g.pinned == 0
  {
  }
}
