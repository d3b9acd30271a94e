/** Block reserves: the bytes promised by a space info are always those held by its
    reserves plus those handed out to tree block allocations. */
module Reserves {

  const ENOSPC := 28
  const SZ_512M := 0x2000_0000

  datatype RsvType = Global | DelRefs | Other

  class Space {
    var mayUse: nat
    ghost var handedOut: nat     // got from btrfs_use_block_rsv, not yet allocated or returned

    constructor ()
      ensures mayUse == 0 && handedOut == 0
    {
      mayUse, handedOut := 0, 0;
    }

    /** btrfs_reserve_metadata_bytes; granted is what the space info decides. */
    method Reserve(n: nat, granted: bool) returns (ret: int)
      modifies this`mayUse
      ensures ret == if granted then 0 else -ENOSPC
      ensures mayUse == if granted then old(mayUse) + n else old(mayUse)
    {
      if granted {
        mayUse := mayUse + n;
        return 0;
      }
      ret := -ENOSPC;
    }
  }

  class BlockRsv {
    const space: Space
    const kind: RsvType
    const failfast: bool
    var size: nat
    var reserved: nat
    var full: bool

    /** btrfs_init_block_rsv */
    constructor (space: Space, kind: RsvType, failfast: bool)
      ensures this.space == space && this.kind == kind && this.failfast == failfast
      ensures Ok() && size == 0 && reserved == 0 && !full
    {
      this.space, this.kind, this.failfast := space, kind, failfast;
      size, reserved, full := 0, 0, false;
    }

    /** More than its size only when full, and full only with at least its size. */
    predicate Ok()
      reads this
    {
      (reserved > size ==> full) && (full ==> reserved >= size)
    }

    /** btrfs_block_rsv_use_bytes */
    method UseBytes(n: nat) returns (ret: int)
      requires Ok()
      modifies this`reserved, this`full
      ensures Ok()
      ensures ret == if old(reserved) >= n then 0 else -ENOSPC
      ensures reserved == (if ret == 0 then old(reserved) - n else old(reserved))
      ensures full == (old(full) && (ret == 0 ==> reserved >= size))
    {
      ret := -ENOSPC;
      if reserved >= n {
        reserved := reserved - n;
        if reserved < size {
          full := false;
        }
        ret := 0;
      }
    }

    /** btrfs_block_rsv_add_bytes */
    method AddBytes(n: nat, updateSize: bool)
      requires Ok()
      modifies this
      ensures Ok() && reserved == old(reserved) + n && size == (if updateSize then old(size) + n else old(size))
      ensures full == (old(full) || (!updateSize && reserved >= size))
    {
      reserved := reserved + n;
      if updateSize {
        size := size + n;
      } else if reserved >= size {
        full := true;
      }
    }

    /** The first half of block_rsv_release_bytes: the size shrinks, and what is reserved
        beyond it comes free. */
    method Shrink(n: nat) returns (freed: nat)
      requires Ok() && n <= size
      modifies this
      ensures Ok() && size == old(size) - n && freed == old(reserved) - reserved && reserved <= old(reserved)
      ensures reserved == (if old(reserved) >= size then size else old(reserved))
      ensures full == (old(full) || old(reserved) >= size)
    {
      size := size - n;
      if reserved >= size {
        freed := reserved - size;
        reserved := size;
        full := true;
      } else {
        freed := 0;
      }
    }

    /** The second half: a reserve that is not full takes up to what it lacks; the
        subtraction cannot wrap. */
    method TakeUp(n: nat) returns (rest: nat)
      requires Ok()
      modifies this`reserved, this`full
      ensures Ok() && rest <= n && reserved == old(reserved) + (n - rest)
      ensures rest == if old(full) || old(reserved) >= size then n else if n <= size - old(reserved) then 0
              else n - (size - old(reserved))
      ensures full == (old(full) || reserved >= size)
    {
      rest := n;
      if !full {
        var toAdd: nat := size - reserved;
        toAdd := if n < toAdd then n else toAdd;
        reserved := reserved + toAdd;
        if reserved >= size {
          full := true;
        }
        rest := n - toAdd;
      }
    }

    /** The end of btrfs_update_global_block_rsv: take or give back the difference. */
    method Resize(n: nat)
      requires Ok() && reserved <= space.mayUse
      modifies this, space`mayUse
      ensures Ok() && size == (if n < SZ_512M then n else SZ_512M) && reserved == size && full
      ensures space.mayUse == old(space.mayUse) - old(reserved) + reserved
    {
      size := if n < SZ_512M then n else SZ_512M;
      if reserved < size {
        var numBytes := size - reserved;
        space.mayUse := space.mayUse + numBytes;
        reserved := size;
      } else if reserved > size {
        var numBytes := reserved - size;
        space.mayUse := space.mayUse - numBytes;
        reserved := size;
      }
      full := reserved == size;
    }
  }

  // ----- sums -----

  datatype Held = Held(space: Space, reserved: nat)

  ghost function View(rsvs: seq<BlockRsv>): (v: seq<Held>)
    reads rsvs
    ensures |v| == |rsvs|
  {
    seq(|rsvs|, i requires 0 <= i < |rsvs| reads rsvs => Held(rsvs[i].space, rsvs[i].reserved))
  }

  /** Bytes that the reserves of a space info hold. */
  function Sum(v: seq<Held>, s: Space): nat {
    if v == [] then 0 else Sum(v[..|v| - 1], s) + if v[|v| - 1].space == s then v[|v| - 1].reserved else 0
  }

  lemma {:induction false} SumUpdate(v: seq<Held>, k: nat, reserved: nat, s: Space)
    requires k < |v|
    ensures Sum(v[k := v[k].(reserved := reserved)], s) == Sum(v, s) + if v[k].space == s then reserved - v[k].reserved
            else 0
  {
    var n, h := |v| - 1, v[k].(reserved := reserved);
    if k == n {
      assert v[k := h][..n] == v[..n];
    } else {
      assert v[k := h][..n] == v[..n][k := h];
      SumUpdate(v[..n], k, reserved, s);
    }
  }

  lemma {:induction false} HeldInSum(v: seq<Held>, k: nat)
    requires k < |v|
    ensures v[k].reserved <= Sum(v, v[k].space)
  {
    if k < |v| - 1 {
      HeldInSum(v[..|v| - 1], k);
    }
  }

  const GLOBAL := 0
  const DELAYED_REFS := 1

  /** The reserves of a file system; the first two are the global and the delayed refs reserve. */
  class FileSystem {
    var rsvs: seq<BlockRsv>
    ghost var spaces: set<Space>

    ghost predicate Valid()
      reads this, rsvs, spaces
    {
      && |rsvs| >= 2 && rsvs[GLOBAL].kind == Global
      && (forall i, j :: 0 <= i < j < |rsvs| ==> rsvs[i] != rsvs[j])
      && (forall i :: 0 <= i < |rsvs| ==> rsvs[i].space in spaces && rsvs[i].Ok())
      && forall s :: s in spaces ==> s.mayUse == Sum(View(rsvs), s) + s.handedOut
    }

    lemma Covered(k: nat)
      requires Valid() && k < |rsvs|
      ensures rsvs[k].reserved <= rsvs[k].space.mayUse - rsvs[k].space.handedOut && rsvs[k].space in spaces
    {
      HeldInSum(View(rsvs), k);
    }

    /** One reserve and its space info changed by the same amount. */
    lemma StillConserved(v: seq<Held>, k: nat)
      requires k < |rsvs| && |v| == |rsvs| && v[k].space == rsvs[k].space
      requires View(rsvs) == v[k := v[k].(reserved := rsvs[k].reserved)]
      requires rsvs[k].space.mayUse == Sum(v, rsvs[k].space) + rsvs[k].space.handedOut
               + rsvs[k].reserved - v[k].reserved
      requires forall s :: s in spaces && s != rsvs[k].space ==> s.mayUse == Sum(v, s) + s.handedOut
      ensures forall s :: s in spaces ==> s.mayUse == Sum(View(rsvs), s) + s.handedOut
    {
      forall s | s in spaces ensures s.mayUse == Sum(View(rsvs), s) + s.handedOut {
        SumUpdate(v, k, rsvs[k].reserved, s);
      }
    }

    // Steps of the operations below. Bytes on their way between two reserves count as
    // handed out.

    method UseFrom(k: nat, n: nat) returns (ret: int)
      requires Valid() && k < |rsvs|
      modifies rsvs[k], rsvs[k].space`handedOut
      ensures Valid() && ret == if old(rsvs[k].reserved) >= n then 0 else -ENOSPC
      ensures rsvs[k].size == old(rsvs[k].size)
      ensures rsvs[k].full == (old(rsvs[k].full) && (ret == 0 ==> rsvs[k].reserved >= rsvs[k].size))
      ensures rsvs[k].space.handedOut == old(rsvs[k].space.handedOut) + if ret == 0 then n else 0
      ensures rsvs[k].reserved == old(rsvs[k].reserved) - if ret == 0 then n else 0
    {
      hide Sum;
      ghost var v := View(rsvs);
      Covered(k);
      ret := rsvs[k].UseBytes(n);
      rsvs[k].space.handedOut := rsvs[k].space.handedOut + if ret == 0 then n else 0;
      assert View(rsvs) == v[k := v[k].(reserved := rsvs[k].reserved)];
      StillConserved(v, k);
    }

    method Give(k: nat, n: nat, updateSize: bool)
      requires Valid() && k < |rsvs| && n <= rsvs[k].space.handedOut
      modifies rsvs[k], rsvs[k].space`handedOut
      ensures Valid() && rsvs[k].space.handedOut == old(rsvs[k].space.handedOut) - n
      ensures rsvs[k].full == (old(rsvs[k].full) || (!updateSize && rsvs[k].reserved >= rsvs[k].size))
      ensures rsvs[k].reserved == old(rsvs[k].reserved) + n
      ensures rsvs[k].size == old(rsvs[k].size) + if updateSize then n else 0
    {
      hide Sum;
      ghost var v := View(rsvs);
      Covered(k);
      rsvs[k].AddBytes(n, updateSize);
      rsvs[k].space.handedOut := rsvs[k].space.handedOut - n;
      assert View(rsvs) == v[k := v[k].(reserved := rsvs[k].reserved)];
      StillConserved(v, k);
    }

    method Shrink(k: nat, n: nat) returns (freed: nat)
      requires Valid() && k < |rsvs| && n <= rsvs[k].size
      modifies rsvs[k], rsvs[k].space`handedOut
      ensures Valid() && rsvs[k].space.handedOut == old(rsvs[k].space.handedOut) + freed
      ensures rsvs[k].full == (old(rsvs[k].full) || old(rsvs[k].reserved) >= rsvs[k].size)
      ensures rsvs[k].size == old(rsvs[k].size) - n && rsvs[k].reserved == old(rsvs[k].reserved) - freed
      ensures freed == if old(rsvs[k].reserved) >= rsvs[k].size then old(rsvs[k].reserved) - rsvs[k].size else 0
    {
      hide Sum;
      ghost var v := View(rsvs);
      Covered(k);
      freed := rsvs[k].Shrink(n);
      rsvs[k].space.handedOut := rsvs[k].space.handedOut + freed;
      assert View(rsvs) == v[k := v[k].(reserved := rsvs[k].reserved)];
      StillConserved(v, k);
    }

    method TakeUp(k: nat, n: nat) returns (rest: nat)
      requires Valid() && k < |rsvs| && n <= rsvs[k].space.handedOut
      modifies rsvs[k], rsvs[k].space`handedOut
      ensures Valid() && rest <= n && rsvs[k].space.handedOut == old(rsvs[k].space.handedOut) - (n - rest)
      ensures rsvs[k].reserved == old(rsvs[k].reserved) + (n - rest) && rsvs[k].size == old(rsvs[k].size)
      ensures rest == if old(rsvs[k].full) || old(rsvs[k].reserved) >= rsvs[k].size then n
              else if n <= rsvs[k].size - old(rsvs[k].reserved) then 0
              else n - (rsvs[k].size - old(rsvs[k].reserved))
      ensures rsvs[k].full == (old(rsvs[k].full) || rsvs[k].reserved >= rsvs[k].size)
    {
      hide Sum;
      ghost var v := View(rsvs);
      Covered(k);
      rest := rsvs[k].TakeUp(n);
      rsvs[k].space.handedOut := rsvs[k].space.handedOut - (n - rest);
      assert View(rsvs) == v[k := v[k].(reserved := rsvs[k].reserved)];
      StillConserved(v, k);
    }

    /** btrfs_space_info_free_bytes_may_use */
    method FreeMayUse(k: nat, n: nat)
      requires Valid() && k < |rsvs| && n <= rsvs[k].space.handedOut
      modifies rsvs[k].space
      ensures Valid() && rsvs[k].space.handedOut == old(rsvs[k].space.handedOut) - n
      ensures rsvs[k].space.mayUse == old(rsvs[k].space.mayUse) - n
    {
      hide Sum;
      Covered(k);
      rsvs[k].space.mayUse := rsvs[k].space.mayUse - n;
      rsvs[k].space.handedOut := rsvs[k].space.handedOut - n;
    }

    method Reserve(k: nat, n: nat, granted: bool) returns (ret: int)
      requires Valid() && k < |rsvs|
      modifies rsvs[k].space
      ensures Valid() && ret == if granted then 0 else -ENOSPC
      ensures rsvs[k].space.handedOut == old(rsvs[k].space.handedOut) + if granted then n else 0
      ensures rsvs[k].space.mayUse == old(rsvs[k].space.mayUse) + if granted then n else 0
    {
      hide Sum;
      Covered(k);
      ret := rsvs[k].space.Reserve(n, granted);
      rsvs[k].space.handedOut := rsvs[k].space.handedOut + if granted then n else 0;
    }

    // ----- the operations -----

    /** btrfs_block_rsv_release: n bytes of the size go, and what is then reserved in excess
        fills the target reserve and goes back to the space info. */
    method Release(k: nat, n: nat) returns (freed: nat, ghost gain: nat)
      requires Valid() && k < |rsvs| && n <= rsvs[k].size
      modifies rsvs, spaces
      ensures Valid()
      ensures rsvs[k].size == old(rsvs[k].size) - n
      ensures freed == if old(rsvs[k].reserved) >= rsvs[k].size then old(rsvs[k].reserved) - rsvs[k].size else 0
      ensures rsvs[k].reserved == old(rsvs[k].reserved) - freed
      ensures rsvs[k].full == (old(rsvs[k].full) || old(rsvs[k].reserved) >= rsvs[k].size)
      ensures var t := if k == DELAYED_REFS then GLOBAL else DELAYED_REFS;
              var lack := rsvs[t].size - old(rsvs[t].reserved);
              gain == if k == GLOBAL || rsvs[k].space != rsvs[t].space || old(rsvs[t].full) || lack < 0 then 0
                      else if freed < lack then freed else lack
      ensures forall i :: 0 <= i < |rsvs| && i != k
                  ==> var target := i == if k == DELAYED_REFS then GLOBAL else DELAYED_REFS;
                      && rsvs[i].size == old(rsvs[i].size)
                      && rsvs[i].reserved == old(rsvs[i].reserved) + (if target then gain else 0)
                      && rsvs[i].full == (old(rsvs[i].full) || (target && freed > 0 && k != GLOBAL
                           && rsvs[k].space == rsvs[i].space && rsvs[i].reserved >= rsvs[i].size))
      ensures forall s :: s in spaces ==> s.handedOut == old(s.handedOut)
      ensures forall s :: s in spaces
                  ==> s.mayUse == old(s.mayUse) - if s == rsvs[k].space then freed - gain else 0
    {
      hide Sum, View, Valid;
      Known();
      Covered(k);
      gain := 0;
      var target := -1;
      if k == DELAYED_REFS {
        target := GLOBAL;
      } else if k != GLOBAL && !rsvs[DELAYED_REFS].full {
        target := DELAYED_REFS;
      }
      if target >= 0 && rsvs[k].space != rsvs[target].space {
        target := -1;
      }
      freed := Shrink(k, n);
      var rest := freed;
      if rest > 0 {
        if target >= 0 {
          rest := TakeUp(target, rest);
          gain := freed - rest;
        }
        if rest > 0 {
          FreeMayUse(k, rest);
        }
      }
    }

    lemma Known()
      requires Valid()
      ensures |rsvs| >= 2 && rsvs[GLOBAL].kind == Global
      ensures forall i, j :: 0 <= i < j < |rsvs| ==> rsvs[i] != rsvs[j]
      ensures forall i :: 0 <= i < |rsvs| ==> rsvs[i].space in spaces
    {
    }

    /** btrfs_block_rsv_migrate, between reserves of one space info. */
    method Migrate(src: nat, dst: nat, n: nat, updateSize: bool) returns (ret: int)
      requires Valid() && src < |rsvs| && dst < |rsvs| && src != dst && rsvs[src].space == rsvs[dst].space
      modifies rsvs[src], rsvs[dst], rsvs[src].space`handedOut
      ensures Valid() && ret == if old(rsvs[src].reserved) >= n then 0 else -ENOSPC
      ensures ret == 0
              ==> rsvs[src].reserved == old(rsvs[src].reserved) - n && rsvs[dst].reserved == old(rsvs[dst].reserved) + n
      ensures ret != 0
              ==> rsvs[src].reserved == old(rsvs[src].reserved) && rsvs[dst].reserved == old(rsvs[dst].reserved)
      ensures rsvs[src].size == old(rsvs[src].size)
      ensures rsvs[dst].size == old(rsvs[dst].size) + if ret == 0 && updateSize then n else 0
      ensures rsvs[src].full == (old(rsvs[src].full) && (ret == 0 ==> rsvs[src].reserved >= rsvs[src].size))
      ensures rsvs[dst].full
           == (old(rsvs[dst].full) || (ret == 0 && !updateSize && rsvs[dst].reserved >= rsvs[dst].size))
      ensures forall s :: s in spaces ==> s.handedOut == old(s.handedOut) && s.mayUse == old(s.mayUse)
    {
      hide Sum, View;
      Covered(src);
      ret := UseFrom(src, n);
      if ret != 0 {
        return;
      }
      Give(dst, n, updateSize);
    }

    /** btrfs_block_rsv_add */
    method Add(k: nat, n: nat, granted: bool) returns (ret: int)
      requires Valid() && k < |rsvs|
      modifies rsvs[k], rsvs[k].space
      ensures Valid() && ret == if n == 0 || granted then 0 else -ENOSPC
      ensures var got := if ret == 0 then n else 0;
              && rsvs[k].reserved == old(rsvs[k].reserved) + got && rsvs[k].size == old(rsvs[k].size) + got
              && rsvs[k].space.mayUse == old(rsvs[k].space.mayUse) + got
      ensures rsvs[k].full == old(rsvs[k].full) && rsvs[k].space.handedOut == old(rsvs[k].space.handedOut)
    {
      hide Sum, View;
      Covered(k);
      if n == 0 {
        return 0;
      }
      ret := Reserve(k, n, granted);
      if ret == 0 {
        Give(k, n, true);
      }
    }

    /** btrfs_block_rsv_refill */
    method Refill(k: nat, n: nat, granted: bool) returns (ret: int)
      requires Valid() && k < |rsvs|
      modifies rsvs[k], rsvs[k].space
      ensures Valid() && rsvs[k].size == old(rsvs[k].size)
      ensures ret == if old(rsvs[k].reserved) >= n || granted then 0 else -ENOSPC
      ensures rsvs[k].reserved == if ret == 0 && old(rsvs[k].reserved) < n then n else old(rsvs[k].reserved)
      ensures rsvs[k].full
           == (old(rsvs[k].full) || (rsvs[k].reserved > old(rsvs[k].reserved) && rsvs[k].reserved >= rsvs[k].size))
      ensures rsvs[k].space.mayUse == old(rsvs[k].space.mayUse) + rsvs[k].reserved - old(rsvs[k].reserved)
      ensures rsvs[k].space.handedOut == old(rsvs[k].space.handedOut)
    {
      hide Sum, View;
      Covered(k);
      if rsvs[k].reserved >= n {
        return 0;
      }
      var missing := n - rsvs[k].reserved;
      ret := Reserve(k, missing, granted);
      if ret == 0 {
        Give(k, missing, false);
      }
    }

    /** btrfs_update_global_block_rsv, once the new size is known. */
    method UpdateGlobal(numBytes: nat)
      requires Valid()
      modifies rsvs[GLOBAL], rsvs[GLOBAL].space`mayUse
      ensures Valid() && rsvs[GLOBAL].full
      ensures rsvs[GLOBAL].reserved == rsvs[GLOBAL].size == if numBytes < SZ_512M then numBytes else SZ_512M
      ensures rsvs[GLOBAL].space.mayUse
           == old(rsvs[GLOBAL].space.mayUse) - old(rsvs[GLOBAL].reserved) + rsvs[GLOBAL].reserved
    {
      hide Sum;
      ghost var v := View(rsvs);
      Covered(GLOBAL);
      rsvs[GLOBAL].Resize(numBytes);
      assert View(rsvs) == v[GLOBAL := v[GLOBAL].(reserved := rsvs[GLOBAL].reserved)];
      StillConserved(v, GLOBAL);
    }

    /** btrfs_use_block_rsv: on success exactly blocksize is handed out, from the reserve
        named by used; grants are what the two requests to the space info get. */
    method UseBlockRsv(k: nat, blocksize: nat, granted: bool, grantedInEmergency: bool, globalBytes: nat)
        returns (ret: int, used: nat)
      requires Valid() && k < |rsvs|
      modifies rsvs, spaces
      ensures Valid() && ret in {0, -ENOSPC} && used in {k, GLOBAL}
      ensures forall s :: s in spaces ==>
                s.handedOut == old(s.handedOut) + if ret == 0 && s == rsvs[used].space then blocksize else 0
      ensures ret == 0 ==> rsvs[used].space == rsvs[k].space
      // enough in the reserve itself, or short of it with failfast
      ensures old(rsvs[k].size) > 0 && (old(rsvs[k].reserved) >= blocksize || rsvs[k].failfast)
              ==> && ret == (if old(rsvs[k].reserved) >= blocksize then 0 else -ENOSPC) && used == k
                  && rsvs[k].reserved == old(rsvs[k].reserved) - (if ret == 0 then blocksize else 0)
                  && (forall i :: 0 <= i < |rsvs| && i != k ==> rsvs[i].reserved == old(rsvs[i].reserved))
                  && (forall i :: 0 <= i < |rsvs| ==> rsvs[i].size == old(rsvs[i].size))
                  && forall s :: s in spaces ==> s.mayUse == old(s.mayUse)
      // the space info, then the global reserve, then the space info again
      ensures old(rsvs[k].size) == 0
              || (old(rsvs[k].reserved) < blocksize && !rsvs[k].failfast && rsvs[k].kind != Global)
              ==> var fromGlobal := !granted && rsvs[k].kind != Global && rsvs[k].space == rsvs[GLOBAL].space
                                    && old(rsvs[GLOBAL].reserved) >= blocksize;
                  && ret == (if granted || fromGlobal || grantedInEmergency then 0 else -ENOSPC)
                  && used == (if fromGlobal then GLOBAL else k)
                  && (forall i :: 0 <= i < |rsvs| ==>
                        var taken := if fromGlobal && i == GLOBAL then blocksize else 0;
                        rsvs[i].reserved == old(rsvs[i].reserved) - taken && rsvs[i].size == old(rsvs[i].size))
                  && forall s :: s in spaces ==>
                       var got := if ret == 0 && !fromGlobal && s == rsvs[k].space then blocksize else 0;
                       s.mayUse == old(s.mayUse) + got
      // the global reserve is brought up to date first
      ensures k == GLOBAL && 0 < old(rsvs[k].size) && old(rsvs[k].reserved) < blocksize && !rsvs[k].failfast
              ==> var now := if globalBytes < SZ_512M then globalBytes else SZ_512M;
                  && ret == (if now >= blocksize || granted || grantedInEmergency then 0 else -ENOSPC) && used == k
                  && rsvs[k].size == now && rsvs[k].reserved == (if now >= blocksize then now - blocksize else now)
                  && (forall i :: 0 <= i < |rsvs| && i != k ==> rsvs[i].reserved == old(rsvs[i].reserved))
                  && rsvs[k].space.mayUse == old(rsvs[k].space.mayUse - rsvs[k].reserved) + now
                       + if ret == 0 && now < blocksize then blocksize else 0
    {
      hide Sum, View, Valid;
      Known();
      used := k;
      if rsvs[k].size != 0 {
        ret := UseFrom(k, blocksize);
        if ret == 0 || rsvs[k].failfast {
          return;
        }
        if rsvs[k].kind == Global {
          UpdateGlobal(globalBytes);
          ret := UseFrom(k, blocksize);
          if ret == 0 {
            return;
          }
        }
      }
      ret, used := TryReserve(k, blocksize, granted, grantedInEmergency);
    }

    /** From the label try_reserve on: the space info, the global reserve, the emergency. */
    method TryReserve(k: nat, blocksize: nat, granted: bool, grantedInEmergency: bool) returns (ret: int, used: nat)
      requires Valid() && k < |rsvs|
      modifies rsvs[GLOBAL], rsvs[k].space, rsvs[GLOBAL].space`handedOut
      ensures Valid() && ret in {0, -ENOSPC} && used in {k, GLOBAL}
      ensures var fromGlobal := !granted && rsvs[k].kind != Global && rsvs[k].space == rsvs[GLOBAL].space
                                && old(rsvs[GLOBAL].reserved) >= blocksize;
              && ret == (if granted || fromGlobal || grantedInEmergency then 0 else -ENOSPC)
              && used == (if fromGlobal then GLOBAL else k)
              && rsvs[GLOBAL].size == old(rsvs[GLOBAL].size)
              && rsvs[GLOBAL].reserved == old(rsvs[GLOBAL].reserved) - (if fromGlobal then blocksize else 0)
              && rsvs[k].space.mayUse == old(rsvs[k].space.mayUse) + (if ret == 0 && !fromGlobal then blocksize else 0)
              && rsvs[k].space.handedOut == old(rsvs[k].space.handedOut) + (if ret == 0 then blocksize else 0)
              && (rsvs[GLOBAL].space != rsvs[k].space
                  ==> rsvs[GLOBAL].space.handedOut == old(rsvs[GLOBAL].space.handedOut))
    {
      hide Sum, View, Valid;
      Known();
      used := k;
      ret := Reserve(k, blocksize, granted);
      if ret == 0 {
        return;
      }
      if rsvs[k].kind != Global && rsvs[k].space == rsvs[GLOBAL].space {
        ret := UseFrom(GLOBAL, blocksize);
        if ret == 0 {
          used := GLOBAL;
          return;
        }
      }
      ret := Reserve(k, blocksize, grantedInEmergency);
    }

    /** btrfs_unuse_block_rsv: bytes that were handed out come back, and what they make the
        reserve exceed its size by goes on as in a release. */
    method Unuse(k: nat, blocksize: nat) returns (ghost gain: nat)
      requires Valid() && k < |rsvs| && blocksize <= rsvs[k].space.handedOut
      modifies rsvs, spaces
      ensures Valid()
      ensures forall s :: s in spaces ==> s.handedOut == old(s.handedOut) - if s == rsvs[k].space then blocksize else 0
      ensures var has, t := old(rsvs[k].reserved) + blocksize, if k == DELAYED_REFS then GLOBAL else DELAYED_REFS;
              var lack := rsvs[t].size - old(rsvs[t].reserved);
              var freed := if has < rsvs[k].size then 0 else has - rsvs[k].size;
              && rsvs[k].size == old(rsvs[k].size) && rsvs[k].reserved == has - freed
              && gain == (if k == GLOBAL || rsvs[k].space != rsvs[t].space || old(rsvs[t].full) || lack < 0 then 0
                          else if freed < lack then freed else lack)
              && (forall i :: 0 <= i < |rsvs| && i != k
                    ==> && rsvs[i].size == old(rsvs[i].size)
                        && rsvs[i].reserved == old(rsvs[i].reserved) + if i == t then gain else 0)
              && forall s :: s in spaces
                   ==> s.mayUse == old(s.mayUse) - if s == rsvs[k].space then freed - gain else 0
    {
      hide Sum, View, Valid;
      Known();
      Give(k, blocksize, false);
      var freed;
      freed, gain := Release(k, 0);
    }

    /** What was handed out becomes an allocation (btrfs_add_reserved_bytes). */
    method Allocate(k: nat, n: nat)
      requires Valid() && k < |rsvs| && n <= rsvs[k].space.handedOut
      modifies rsvs[k].space
      ensures Valid() && rsvs[k].space.handedOut == old(rsvs[k].space.handedOut) - n
      ensures rsvs[k].space.mayUse == old(rsvs[k].space.mayUse) - n
    {
      hide Sum, View;
      Covered(k);
      FreeMayUse(k, n);
    }

    /** btrfs_init_global_block_rsv, with one space info for both. */
    constructor (metadata: Space)
      requires metadata.mayUse == metadata.handedOut == 0
      ensures Valid() && |rsvs| == 2 && spaces == {metadata}
    {
      var g := new BlockRsv(metadata, Global, false);
      var d := new BlockRsv(metadata, DelRefs, false);
      rsvs, spaces := [g, d], {metadata};
      new;
      NoneHeld(View(rsvs), metadata);
    }

    /** btrfs_alloc_block_rsv */
    method NewRsv(space: Space, kind: RsvType, failfast: bool)
      requires Valid() && (space in spaces || space.mayUse == space.handedOut == 0)
      modifies this
      ensures Valid() && |rsvs| == old(|rsvs|) + 1 && rsvs[..old(|rsvs|)] == old(rsvs) && space in spaces
      ensures var r := rsvs[old(|rsvs|)];
              r.space == space && r.kind == kind && r.failfast == failfast && r.size == r.reserved == 0 && !r.full
    {
      hide Sum;
      ghost var v := View(rsvs);
      var r := new BlockRsv(space, kind, failfast);
      if space !in spaces {
        NoneHeld(v, space);
      }
      rsvs, spaces := rsvs + [r], spaces + {space};
      assert View(rsvs) == v + [Held(space, 0)];
      forall s | s in spaces ensures s.mayUse == Sum(View(rsvs), s) + s.handedOut {
        SumAppend(v, Held(space, 0), s);
      }
    }
  }

  lemma {:induction false} NoneHeld(v: seq<Held>, s: Space)
    requires forall i :: 0 <= i < |v| ==> v[i].space != s || v[i].reserved == 0
    ensures Sum(v, s) == 0
  {
    if v != [] {
      NoneHeld(v[..|v| - 1], s);
    }
  }

  lemma SumAppend(v: seq<Held>, h: Held, s: Space)
    ensures Sum(v + [h], s) == Sum(v, s) + if h.space == s then h.reserved else 0
  {
    assert (v + [h])[..|v|] == v;
  }
}
