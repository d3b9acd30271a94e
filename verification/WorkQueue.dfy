/** The ordered work queue as a step relation. Workers run in any order and interleave
    freely; each step is one atomic action of btrfs_queue_work, btrfs_work_helper or
    run_ordered_work. A work item is named by the order in which it was queued; the
    memory it lives in may be freed and used again for a later item. */
module WorkQueue {

  /** Where the worker that executes an item stands. freeSelf is the local variable
      free_self of run_ordered_work; work is its local variable work. */
  datatype Pc =
    | Listed                                  // btrfs_queue_work, before queue_work
    | Queued                                  // handed to the kernel workqueue
    | Running                                 // in work->func
    | Ran                                     // func returned, WORK_DONE_BIT not set yet
    | Looking(freeSelf: bool)                 // about to take the lock
    | Ordering(work: nat, freeSelf: bool)     // in work->ordered_func, lock released
    | Dropped(work: nat, freeSelf: bool)      // work is off the list
    | Leaving(freeSelf: bool)                 // out of the loop
    | Finished

  datatype Work = Work(addr: nat, ordered: bool, done: bool, orderDone: bool, off: bool, freed: bool, pc: Pc)

  /** addr, ordered and the two flag bits are the item's; off and freed say that it was
      taken off the list and freed. removed and freed of the state record in time
      order the items taken off the list, once their ordered function returned, and the
      items freed. */
  datatype State = State(works: seq<Work>, list: seq<nat>, removed: seq<nat>, freed: seq<nat>)

  datatype Step =
    | Enlist(addr: nat, ordered: bool)
    | Submit(id: nat)
    | Start(id: nat)
    | FreeInFunc(id: nat)
    | Return(id: nat)
    | SetDone(id: nat)
    | Look(id: nat)
    | Drop(id: nat)
    | Release(id: nat)
    | Leave(id: nat)

  predicate Active(pc: Pc) {
    !pc.Listed? && !pc.Queued? && !pc.Finished?
  }

  predicate Started(pc: Pc) {
    !pc.Listed? && !pc.Queued?
  }

  /** In the loop of run_ordered_work: the list will be looked at again. */
  predicate InLoop(pc: Pc) {
    pc.Looking? || pc.Ordering? || pc.Dropped?
  }

  /** After set_bit(WORK_DONE_BIT). */
  predicate AfterDone(pc: Pc) {
    InLoop(pc) || pc.Leaving? || pc.Finished?
  }

  predicate FreesSelf(pc: Pc) {
    (pc.Looking? || pc.Ordering? || pc.Dropped? || pc.Leaving?) && pc.freeSelf
  }

  function Init(): State {
    State([], [], [], [])
  }

  /** The head of the list is there, done, and not yet claimed. */
  predicate HeadReady(s: State) {
    s.list != [] && s.list[0] < |s.works| && s.works[s.list[0]].done && !s.works[s.list[0]].orderDone
  }

  ghost predicate Enabled(s: State, step: Step) {
    match step
    case Enlist(addr, _) => forall i :: 0 <= i < |s.works| && s.works[i].addr == addr ==> s.works[i].freed
    case Submit(id) => id < |s.works| && s.works[id].pc.Listed?
    case Start(id) =>
      // the kernel never runs two works at one address at the same time
      && id < |s.works| && s.works[id].pc.Queued?
      && forall i :: 0 <= i < |s.works| && s.works[i].addr == s.works[id].addr ==> !Active(s.works[i].pc)
    case FreeInFunc(id) => id < |s.works| && s.works[id].pc.Running? && !s.works[id].ordered && !s.works[id].freed
    case Return(id) => id < |s.works| && s.works[id].pc.Running?
    case SetDone(id) => id < |s.works| && s.works[id].pc.Ran?
    case Look(id) => id < |s.works| && s.works[id].pc.Looking?
    case Drop(id) => id < |s.works| && s.works[id].pc.Ordering? && s.works[id].pc.work < |s.works|
    case Release(id) => id < |s.works| && s.works[id].pc.Dropped? && s.works[id].pc.work < |s.works|
    case Leave(id) => id < |s.works| && s.works[id].pc.Leaving?
  }

  function Remove(list: seq<nat>, w: nat): seq<nat> {
    if list == [] then [] else if list[0] == w then list[1..] else [list[0]] + Remove(list[1..], w)
  }

  function SetPc(s: State, id: nat, pc: Pc): State
    requires id < |s.works|
  {
    s.(works := s.works[id := s.works[id].(pc := pc)])
  }

  function Free(s: State, id: nat): State
    requires id < |s.works|
  {
    s.(works := s.works[id := s.works[id].(freed := true)], freed := s.freed + [id])
  }

  ghost function Next(s: State, step: Step): State
    requires Enabled(s, step)
  {
    match step
    case Enlist(addr, ordered) =>
      var id := |s.works|;
      s.(works := s.works + [Work(addr, ordered, false, false, false, false, Listed)],
         list := if ordered then s.list + [id] else s.list)
    case Submit(id) => SetPc(s, id, Queued)
    case Start(id) => SetPc(s, id, Running)
    case FreeInFunc(id) => Free(s, id)
    case Return(id) => SetPc(s, id, if s.works[id].ordered then Ran else Finished)
    case SetDone(id) => s.(works := s.works[id := s.works[id].(done := true, pc := Looking(false))])
    case Look(id) =>
      var freeSelf := s.works[id].pc.freeSelf;
      if !HeadReady(s) then SetPc(s, id, Leaving(freeSelf))
      else
        var head := s.list[0];
        SetPc(s.(works := s.works[head := s.works[head].(orderDone := true)]), id, Ordering(head, freeSelf))
    case Drop(id) =>
      var w := s.works[id].pc.work;
      var t := s.(list := Remove(s.list, w), removed := s.removed + [w],
          works := s.works[w := s.works[w].(off := true)]);
      SetPc(t, id, Dropped(w, s.works[id].pc.freeSelf))
    case Release(id) =>
      var w := s.works[id].pc.work;
      if s.works[w].addr == s.works[id].addr
      then SetPc(s, id, Looking(true))
      else SetPc(Free(s, w), id, Looking(s.works[id].pc.freeSelf))
    case Leave(id) =>
      if s.works[id].pc.freeSelf then SetPc(Free(s, id), id, Finished) else SetPc(s, id, Finished)
  }

  // ----- the invariant -----

  /** Ids of the items with an ordered function, in queue order. */
  function OrderedIds(works: seq<Work>): seq<nat> {
    if works == [] then []
    else
      var n := |works| - 1;
      OrderedIds(works[..n]) + if works[n].ordered then [n] else []
  }

  ghost predicate Distinct(s: seq<nat>) {
    forall i, j :: 0 <= i < j < |s| ==> s[i] != s[j]
  }

  /** Flags follow the program counter, and each other. */
  predicate FlagsOf(w: Work) {
    && (w.ordered ==> (w.done <==> AfterDone(w.pc)))
    && (!w.ordered ==> !w.done && (w.pc.Listed? || w.pc.Queued? || w.pc.Running? || w.pc.Finished?))
    && (w.orderDone ==> w.done)
    && (w.off ==> w.orderDone)
    && (w.freed && w.ordered ==> w.off)
    && (w.freed && !w.ordered ==> Started(w.pc))
    && (FreesSelf(w.pc) ==> w.off && !w.freed)
  }

  ghost predicate Flags(s: State) {
    forall i :: 0 <= i < |s.works| ==> FlagsOf(s.works[i])
  }

  /** What is on the list, and that only its head can be claimed. */
  ghost predicate Listing(s: State) {
    && (forall i: nat :: i in s.list <==> i < |s.works| && s.works[i].ordered && !s.works[i].off)
    && Distinct(s.list)
    && (forall i :: 0 <= i < |s.works| && s.works[i].orderDone && !s.works[i].off ==> s.list != [] && i == s.list[0])
  }

  /** At most one ordered function runs, that of the head. */
  ghost predicate Exclusive(s: State) {
    && (forall j :: 0 <= j < |s.works| && s.works[j].pc.Ordering? ==>
          s.list != [] && s.works[j].pc.work == s.list[0] && s.list[0] < |s.works| && s.works[s.list[0]].orderDone)
    && (forall j, k :: 0 <= j < k < |s.works| ==> !(s.works[j].pc.Ordering? && s.works[k].pc.Ordering?))
  }

  /** An item that a worker is about to free is off the list, not freed, and nobody
      else's to free. */
  ghost predicate Holding(s: State) {
    && (forall j :: 0 <= j < |s.works| && s.works[j].pc.Dropped? ==>
          var w := s.works[j].pc.work;
              w < |s.works| && s.works[w].off && !s.works[w].freed && !FreesSelf(s.works[w].pc))
    && (forall j, k :: 0 <= j < k < |s.works| && s.works[j].pc.Dropped? && s.works[k].pc.Dropped? ==>
          s.works[j].pc.work != s.works[k].pc.work)
  }

  /** What was taken off the list and is not freed is still in somebody's hands. */
  ghost predicate NoLeak(s: State) {
    forall i :: 0 <= i < |s.works| && s.works[i].off && !s.works[i].freed ==> Held(s, i)
  }

  ghost predicate Held(s: State, i: nat)
    requires i < |s.works|
  {
    FreesSelf(s.works[i].pc) || exists j :: DropsIt(s, j, i)
  }

  predicate DropsIt(s: State, j: int, i: nat) {
    0 <= j < |s.works| && s.works[j].pc.Dropped? && s.works[j].pc.work == i
  }

  /** An address is used again only after its item was freed, and the new item starts
      only after the worker of the old one is gone. */
  ghost predicate Addresses(s: State) {
    forall x, y :: 0 <= x < y < |s.works| && s.works[x].addr == s.works[y].addr ==>
      s.works[x].freed && (Started(s.works[y].pc) ==> !Active(s.works[x].pc))
  }

  /** No lost wakeup: if the head is done, somebody is going to look at the list; if it
      is claimed, somebody is running its ordered function. */
  ghost predicate Awake(s: State) {
    s.list != [] && s.list[0] < |s.works| && s.works[s.list[0]].done ==>
      exists j :: Wakes(s, j, s.works[s.list[0]].orderDone)
  }

  predicate Wakes(s: State, j: int, claimed: bool) {
    0 <= j < |s.works| && if claimed then s.works[j].pc.Ordering? else InLoop(s.works[j].pc)
  }

  /** The history: taken off and still listed, together, are the ordered items in queue
      order, and nothing is freed twice. */
  ghost predicate History(s: State) {
    && s.removed + s.list == OrderedIds(s.works)
    && Distinct(s.freed)
    && (forall i: nat :: i in s.freed <==> i < |s.works| && s.works[i].freed)
  }

  ghost predicate Inv(s: State) {
    Flags(s) && Listing(s) && Exclusive(s) && Holding(s) && NoLeak(s) && Addresses(s) && Awake(s) && History(s)
  }

  // ----- every step keeps the invariant -----

  ghost predicate Core(s: State) {
    Flags(s) && Listing(s) && Exclusive(s) && Holding(s) && Addresses(s)
  }

  /** The comparison of run_ordered_work: an item at the address of self is self. */
  lemma SameAddressIsSelf(s: State, id: nat)
    requires Flags(s) && Holding(s) && Addresses(s) && Enabled(s, Release(id))
    ensures s.works[s.works[id].pc.work].addr == s.works[id].addr <==> s.works[id].pc.work == id
  {
    var w := s.works[id].pc.work;
    assert FlagsOf(s.works[w]) && FlagsOf(s.works[id]);
  }

  predicate QuietStep(step: Step) {
    step.Submit? || step.Start? || step.FreeInFunc? || step.Return? || step.SetDone?
  }

  // Each kind of step keeps the parts of the invariant.

  lemma EnlistKeepsLists(s: State, step: Step)
    requires Core(s) && Enabled(s, step) && step.Enlist?
    ensures Listing(Next(s, step)) && Exclusive(Next(s, step))
  {
    hide OrderedIds, Remove;
    var t := Next(s, step);
    forall i: nat ensures i in t.list <==> i < |t.works| && t.works[i].ordered && !t.works[i].off {
    }
    forall a | 0 <= a < |s.list| ensures s.list[a] < |s.works| {
      assert s.list[a] in s.list;
    }
  }

  lemma EnlistKeepsMemory(s: State, step: Step)
    requires Core(s) && Enabled(s, step) && step.Enlist?
    ensures Flags(Next(s, step)) && Addresses(Next(s, step))
  {
    hide OrderedIds, Remove;
  }

  lemma EnlistKeepsHolding(s: State, step: Step)
    requires Core(s) && Enabled(s, step) && step.Enlist?
    ensures Holding(Next(s, step))
  {
    hide OrderedIds, Remove;
  }

  /** What the steps outside run_ordered_work change. */
  ghost predicate QuietChange(s: State, t: State, id: nat) {
    && |t.works| == |s.works| && id < |s.works| && t.list == s.list
    && (forall i :: 0 <= i < |s.works| && i != id ==> t.works[i] == s.works[i])
    && (var w, v := s.works[id], t.works[id];
        && v == w.(pc := v.pc, done := v.done, freed := v.freed) && (w.freed == v.freed || !w.ordered)
        && (w.pc.Listed? || w.pc.Queued? || w.pc.Running? || w.pc.Ran?)
        && (v.pc.Queued? || v.pc.Running? || v.pc.Ran? || v.pc.Finished? || v.pc == Looking(false)))
  }

  lemma QuietChanges(s: State, step: Step)
    requires Enabled(s, step) && QuietStep(step)
    ensures var t := Next(s, step); QuietChange(s, t, step.id) && t.list == s.list && |t.works| == |s.works|
    ensures forall i :: 0 <= i < |s.works| ==> SameClaim(s.works[i], Next(s, step).works[i])
  {
    hide OrderedIds, Remove;
  }

  /** Steps that leave the list and the claims alone. */
  lemma ListsKept(s: State, t: State)
    requires Listing(s) && Exclusive(s) && t.list == s.list && |t.works| == |s.works|
    requires forall i :: 0 <= i < |s.works| ==> SameClaim(s.works[i], t.works[i])
    ensures Listing(t) && Exclusive(t)
  {
    if t.list != [] {
      assert t.list[0] in s.list;
    }
    assert forall i :: 0 <= i < |s.works| ==> SameClaim(s.works[i], t.works[i]);
  }

  predicate SameClaim(w: Work, v: Work) {
    w.ordered == v.ordered && w.off == v.off && w.orderDone == v.orderDone && (v.pc.Ordering? ==> v.pc == w.pc)
  }

  lemma QuietKeepsHolding(s: State, t: State, id: nat)
    requires Core(s) && QuietChange(s, t, id)
    ensures Holding(t)
  {
  }

  lemma QuietKeepsMemory(s: State, step: Step)
    requires Core(s) && Enabled(s, step) && QuietStep(step)
    ensures Flags(Next(s, step)) && Addresses(Next(s, step))
  {
    hide Next, Enabled, Core, Flags, Addresses, QuietStep;
    QuietKeepsFlags(s, step);
    QuietKeepsAddresses(s, step);
  }

  lemma QuietKeepsFlags(s: State, step: Step)
    requires Core(s) && Enabled(s, step) && QuietStep(step)
    ensures Flags(Next(s, step))
  {
    hide OrderedIds, Remove, Listing, Exclusive, Holding, Addresses;
  }

  lemma QuietKeepsAddresses(s: State, step: Step)
    requires Core(s) && Enabled(s, step) && QuietStep(step)
    ensures Addresses(Next(s, step))
  {
    hide OrderedIds, Remove, Listing, Exclusive, Holding;
  }

  lemma LookKeepsLists(s: State, step: Step)
    requires Core(s) && Enabled(s, step) && step.Look?
    ensures Listing(Next(s, step)) && Exclusive(Next(s, step))
  {
    hide OrderedIds, Remove, Holding, Addresses;
  }

  lemma LookKeepsMemory(s: State, step: Step)
    requires Core(s) && Enabled(s, step) && step.Look?
    ensures Flags(Next(s, step)) && Addresses(Next(s, step))
  {
    hide OrderedIds, Remove;
  }

  lemma LookKeepsHolding(s: State, step: Step)
    requires Core(s) && Enabled(s, step) && step.Look?
    ensures Holding(Next(s, step))
  {
    hide OrderedIds, Remove, Addresses;
    var t := Next(s, step);
    forall j | 0 <= j < |t.works| && t.works[j].pc.Dropped?
      ensures var w := t.works[j].pc.work;
              w < |t.works| && t.works[w].off && !t.works[w].freed && !FreesSelf(t.works[w].pc)
    {
      assert FlagsOf(s.works[j]);
    }
  }

  lemma DropKeepsLists(s: State, step: Step)
    requires Core(s) && Enabled(s, step) && step.Drop?
    ensures Listing(Next(s, step)) && Exclusive(Next(s, step))
  {
    hide Next, Enabled, Core, Listing, Exclusive;
    DropKeepsListing(s, step);
    DropKeepsExclusive(s, step);
  }

  lemma DropKeepsListing(s: State, step: Step)
    requires Core(s) && Enabled(s, step) && step.Drop?
    ensures Listing(Next(s, step))
  {
    hide OrderedIds, Holding, Addresses, Flags;
    var w := s.works[step.id].pc.work;
    assert s.list == [w] + s.list[1..] && Remove(s.list, w) == s.list[1..];
    forall i: nat ensures i in s.list[1..] <==> i in s.list && i != w {
    }
  }

  lemma DropKeepsExclusive(s: State, step: Step)
    requires Core(s) && Enabled(s, step) && step.Drop?
    ensures Exclusive(Next(s, step))
  {
    hide OrderedIds, Remove, Holding, Addresses, Flags, Listing;
  }

  lemma DropKeepsMemory(s: State, step: Step)
    requires Core(s) && Enabled(s, step) && step.Drop?
    ensures Flags(Next(s, step)) && Addresses(Next(s, step))
  {
    hide OrderedIds, Remove;
  }

  lemma DropKeepsHolding(s: State, step: Step)
    requires Core(s) && Enabled(s, step) && step.Drop?
    ensures Holding(Next(s, step))
  {
    hide OrderedIds, Remove, Addresses;
    var t := Next(s, step);
    forall j | 0 <= j < |t.works| && t.works[j].pc.Dropped?
      ensures var w := t.works[j].pc.work;
              w < |t.works| && t.works[w].off && !t.works[w].freed && !FreesSelf(t.works[w].pc)
    {
      assert FlagsOf(s.works[j]);
    }
  }

  lemma ReleaseKeepsMemory(s: State, step: Step)
    requires Core(s) && Enabled(s, step) && step.Release?
    ensures Flags(Next(s, step)) && Addresses(Next(s, step))
  {
    hide OrderedIds, Remove;
  }

  lemma ReleaseKeepsHolding(s: State, step: Step)
    requires Core(s) && Enabled(s, step) && step.Release?
    ensures Holding(Next(s, step))
  {
    hide OrderedIds, Remove, Addresses, Listing, Exclusive;
    SameAddressIsSelf(s, step.id);
  }

  lemma LeaveKeepsMemory(s: State, step: Step)
    requires Core(s) && Enabled(s, step) && step.Leave?
    ensures Flags(Next(s, step)) && Addresses(Next(s, step))
  {
    hide OrderedIds, Remove;
  }

  lemma LeaveKeepsHolding(s: State, step: Step)
    requires Core(s) && Enabled(s, step) && step.Leave?
    ensures Holding(Next(s, step))
  {
    hide OrderedIds, Remove, Addresses, Listing, Exclusive;
  }

  // ----- nothing leaks -----

  lemma StillHeld(s: State, t: State, i: nat)
    requires i < |s.works| <= |t.works| && Held(s, i)
    requires FreesSelf(s.works[i].pc) ==> FreesSelf(t.works[i].pc)
    requires forall j :: 0 <= j < |s.works| && s.works[j].pc.Dropped? && s.works[j].pc.work == i
                 ==> t.works[j].pc == s.works[j].pc
    ensures Held(t, i)
  {
    if !FreesSelf(s.works[i].pc) {
      var j :| DropsIt(s, j, i);
      assert DropsIt(t, j, i);
    }
  }

  lemma EnlistKeepsNoLeak(s: State, step: Step)
    requires Core(s) && NoLeak(s) && Enabled(s, step) && step.Enlist?
    ensures NoLeak(Next(s, step))
  {
    hide OrderedIds, Remove, Held, Listing, Exclusive, Addresses;
    var t := Next(s, step);
    forall i | 0 <= i < |t.works| && t.works[i].off && !t.works[i].freed ensures Held(t, i) {
      StillHeld(s, t, i);
    }
  }

  lemma QuietKeepsNoLeak(s: State, step: Step)
    requires Core(s) && NoLeak(s) && Enabled(s, step) && QuietStep(step)
    ensures NoLeak(Next(s, step))
  {
    hide OrderedIds, Remove, Held, Listing, Exclusive, Addresses;
    var t := Next(s, step);
    forall i | 0 <= i < |t.works| && t.works[i].off && !t.works[i].freed ensures Held(t, i) {
      StillHeld(s, t, i);
    }
  }

  lemma LookKeepsNoLeak(s: State, step: Step)
    requires Core(s) && NoLeak(s) && Enabled(s, step) && step.Look?
    ensures NoLeak(Next(s, step))
  {
    hide OrderedIds, Remove, Held, Listing, Exclusive, Addresses;
    var t := Next(s, step);
    forall i | 0 <= i < |t.works| && t.works[i].off && !t.works[i].freed ensures Held(t, i) {
      StillHeld(s, t, i);
    }
  }

  lemma LeaveKeepsNoLeak(s: State, step: Step)
    requires Core(s) && NoLeak(s) && Enabled(s, step) && step.Leave?
    ensures NoLeak(Next(s, step))
  {
    hide OrderedIds, Remove, Held, Listing, Exclusive, Addresses;
    var t := Next(s, step);
    forall i | 0 <= i < |t.works| && t.works[i].off && !t.works[i].freed ensures Held(t, i) {
      StillHeld(s, t, i);
    }
  }

  lemma DropKeepsNoLeak(s: State, step: Step)
    requires Core(s) && NoLeak(s) && Enabled(s, step) && step.Drop?
    ensures NoLeak(Next(s, step))
  {
    hide OrderedIds, Remove, Held, Listing, Exclusive, Addresses;
    var t, w := Next(s, step), s.works[step.id].pc.work;
    forall i | 0 <= i < |t.works| && t.works[i].off && !t.works[i].freed ensures Held(t, i) {
      if i == w {
        NowHeld(t, step.id, w);
      } else {
        StillHeld(s, t, i);
      }
    }
  }

  lemma NowHeld(t: State, j: nat, i: nat)
    requires i < |t.works| && DropsIt(t, j, i)
    ensures Held(t, i)
  {
  }

  lemma ReleaseKeepsNoLeak(s: State, step: Step)
    requires Core(s) && NoLeak(s) && Enabled(s, step) && step.Release?
    ensures NoLeak(Next(s, step))
  {
    hide OrderedIds, Remove, Held, Listing, Exclusive, Addresses;
    SameAddressIsSelf(s, step.id);
    var t, w := Next(s, step), s.works[step.id].pc.work;
    forall i | 0 <= i < |t.works| && t.works[i].off && !t.works[i].freed ensures Held(t, i) {
      if i == w {
        SelfHeld(t, w);
      } else {
        StillHeld(s, t, i);
      }
    }
  }

  lemma SelfHeld(t: State, i: nat)
    requires i < |t.works| && FreesSelf(t.works[i].pc)
    ensures Held(t, i)
  {
  }

  // ----- no lost wakeup -----

  lemma AwakeBy(t: State, j: nat)
    requires t.list != [] && t.list[0] < |t.works| && Wakes(t, j, t.works[t.list[0]].orderDone)
    ensures Awake(t)
  {
  }

  /** A head that was awake stays so when its witness does. */
  lemma StillAwake(s: State, t: State)
    requires Awake(s) && t.list == s.list && |s.works| <= |t.works| && (s.list != [] ==> s.list[0] < |s.works|)
    requires s.list != [] && t.works[s.list[0]].done ==>
               s.works[s.list[0]].done && s.works[s.list[0]].orderDone == t.works[s.list[0]].orderDone
    requires forall j :: 0 <= j < |s.works| && InLoop(s.works[j].pc)
                 ==> InLoop(t.works[j].pc) && (s.works[j].pc.Ordering? ==> t.works[j].pc.Ordering?)
    ensures Awake(t)
  {
    if s.list != [] && t.works[s.list[0]].done {
      var j :| Wakes(s, j, s.works[s.list[0]].orderDone);
      assert Wakes(t, j, t.works[s.list[0]].orderDone);
    }
  }

  lemma KeepsAwake(s: State, step: Step)
    requires Core(s) && Awake(s) && Enabled(s, step)
    ensures Awake(Next(s, step))
  {
    hide Next, Enabled, Awake, Core;
    match step
    case Enlist(addr, ordered) => EnlistKeepsAwake(s, addr, ordered);
    case SetDone(id) => DoneKeepsAwake(s, id);
    case Look(id) => LookKeepsAwake(s, id);
    case Drop(id) => DropKeepsAwake(s, id);
    case _ => RestKeepsAwake(s, step);
  }

  lemma DoneKeepsAwake(s: State, id: nat)
    requires Core(s) && Awake(s) && Enabled(s, SetDone(id))
    ensures Awake(Next(s, SetDone(id)))
  {
    hide OrderedIds, Awake, Remove, Addresses, Holding, Exclusive;
    var t := Next(s, SetDone(id));
    assert s.list != [] ==> s.list[0] in s.list;
    if s.list != [] && s.list[0] == id {
      AwakeBy(t, id);
    } else {
      StillAwake(s, t);
    }
  }

  /** The steps that leave the list and the loop alone. */
  lemma RestKeepsAwake(s: State, step: Step)
    requires Core(s) && Awake(s) && Enabled(s, step)
    requires !step.Enlist? && !step.SetDone? && !step.Look? && !step.Drop?
    ensures Awake(Next(s, step))
  {
    hide OrderedIds, Awake, Remove, Addresses, Holding, Exclusive, Flags;
    assert s.list != [] ==> s.list[0] in s.list;
    StillAwake(s, Next(s, step));
  }

  lemma EnlistKeepsAwake(s: State, addr: nat, ordered: bool)
    requires Core(s) && Awake(s) && Enabled(s, Enlist(addr, ordered))
    ensures Awake(Next(s, Enlist(addr, ordered)))
  {
    hide OrderedIds, Addresses, Holding, Exclusive;
    var t := Next(s, Enlist(addr, ordered));
    if s.list != [] && s.list[0] in s.list && s.works[s.list[0]].done {
      var j :| Wakes(s, j, s.works[s.list[0]].orderDone);
      assert Wakes(t, j, t.works[s.list[0]].orderDone);
    }
  }

  lemma LookKeepsAwake(s: State, id: nat)
    requires Core(s) && Awake(s) && Enabled(s, Look(id))
    ensures Awake(Next(s, Look(id)))
  {
    hide OrderedIds, Addresses, Holding;
    var t := Next(s, Look(id));
    if HeadReady(s) {
      AwakeBy(t, id);
    } else if s.list != [] && s.list[0] in s.list && s.works[s.list[0]].done {
      var j :| Wakes(s, j, true);
      AwakeBy(t, j);
    }
  }

  lemma DropKeepsAwake(s: State, id: nat)
    requires Core(s) && Awake(s) && Enabled(s, Drop(id))
    ensures Awake(Next(s, Drop(id)))
  {
    hide OrderedIds, Addresses, Holding;
    var t := Next(s, Drop(id));
    assert t.list == s.list[1..];
    if t.list != [] {
      assert t.list[0] in s.list && t.list[0] == s.list[1] != s.list[0];
      AwakeBy(t, id);
    }
  }

  // ----- history -----

  lemma {:induction false} OrderedMembers(works: seq<Work>, i: nat)
    ensures i in OrderedIds(works) <==> i < |works| && works[i].ordered
  {
    if works != [] {
      OrderedMembers(works[..|works| - 1], i);
    }
  }

  lemma {:induction false} OrderedIncreasing(works: seq<Work>)
    ensures var ids := OrderedIds(works); forall a, b :: 0 <= a < b < |ids| ==> ids[a] < ids[b]
  {
    if works != [] {
      var n := |works| - 1;
      OrderedIncreasing(works[..n]);
      var ids := OrderedIds(works[..n]);
      if works[n].ordered {
        forall a | 0 <= a < |ids| ensures ids[a] < n {
          OrderedMembers(works[..n], ids[a]);
        }
        assert OrderedIds(works) == ids + [n];
      } else {
        assert OrderedIds(works) == ids;
      }
    }
  }

  lemma {:induction false} SameOrder(a: seq<Work>, b: seq<Work>)
    requires |a| == |b| && forall i :: 0 <= i < |a| ==> a[i].ordered == b[i].ordered
    ensures OrderedIds(a) == OrderedIds(b)
  {
    if a != [] {
      SameOrder(a[..|a| - 1], b[..|b| - 1]);
    }
  }

  lemma OrderedAppend(works: seq<Work>, w: Work)
    ensures OrderedIds(works + [w]) == OrderedIds(works) + if w.ordered then [|works|] else []
  {
    assert (works + [w])[..|works|] == works;
  }

  lemma KeepsHistory(s: State, step: Step)
    requires Core(s) && History(s) && Enabled(s, step)
    ensures History(Next(s, step))
  {
    hide Addresses, Holding, Exclusive, Listing;
    if step.Enlist? {
      EnlistKeepsHistory(s, step.addr, step.ordered);
    } else {
      LogKept(s, step);
      FreedKept(s, step);
    }
  }

  lemma EnlistKeepsHistory(s: State, addr: nat, ordered: bool)
    requires History(s) && Enabled(s, Enlist(addr, ordered))
    ensures History(Next(s, Enlist(addr, ordered)))
  {
    hide OrderedIds;
    OrderedAppend(s.works, Work(addr, ordered, false, false, false, false, Listed));
  }

  lemma LogKept(s: State, step: Step)
    requires Exclusive(s) && Enabled(s, step) && !step.Enlist?
    ensures var t := Next(s, step);
            t.removed + t.list == s.removed + s.list && OrderedIds(t.works) == OrderedIds(s.works)
  {
    hide OrderedIds;
    var t := Next(s, step);
    SameOrder(s.works, t.works);
    if step.Drop? {
      assert s.list == [s.list[0]] + s.list[1..];
      assert Remove(s.list, s.list[0]) == s.list[1..];
    }
  }

  lemma FreedKept(s: State, step: Step)
    requires Flags(s) && Holding(s) && History(s) && Enabled(s, step) && !step.Enlist?
    ensures var t := Next(s, step);
            Distinct(t.freed) && forall i: nat :: i in t.freed <==> i < |t.works| && t.works[i].freed
  {
    hide OrderedIds, Remove, Distinct;
    var now := FreedBy(s, step);
    assert s.freed + [] == s.freed;
    FreedLog(s, Next(s, step), now);
  }

  /** The items that a step frees: at most one. */
  function FreedBy(s: State, step: Step): (now: seq<nat>)
    ensures |now| <= 1
  {
    match step
    case FreeInFunc(id) => [id]
    case Release(id) =>
      if id >= |s.works| || !s.works[id].pc.Dropped? || s.works[id].pc.work >= |s.works| then []
      else if s.works[s.works[id].pc.work].addr == s.works[id].addr then [] else [s.works[id].pc.work]
    case Leave(id) => if id < |s.works| && s.works[id].pc.Leaving? && s.works[id].pc.freeSelf then [id] else []
    case _ => []
  }

  lemma FreedLog(s: State, t: State, now: seq<nat>)
    requires Distinct(s.freed) && forall i: nat :: i in s.freed <==> i < |s.works| && s.works[i].freed
    requires t.freed == s.freed + now && |now| <= 1 && |t.works| == |s.works|
    requires forall i :: i in now ==> i < |s.works| && !s.works[i].freed
    requires forall i :: 0 <= i < |s.works| ==> (t.works[i].freed <==> s.works[i].freed || i in now)
    ensures Distinct(t.freed) && forall i: nat :: i in t.freed <==> i < |t.works| && t.works[i].freed
  {
    forall a | 0 <= a < |s.freed| ensures s.freed[a] !in now {
      assert s.freed[a] in s.freed;
    }
  }

  // ----- all steps -----

  lemma KeepsCore(s: State, step: Step)
    requires Core(s) && Enabled(s, step)
    ensures Core(Next(s, step))
  {
    hide Next, Enabled, Flags, Listing, Exclusive, Holding, Addresses, QuietChange, SameClaim;
    match step
    case Enlist(_, _) =>
      EnlistKeepsLists(s, step);
      EnlistKeepsHolding(s, step);
      EnlistKeepsMemory(s, step);
    case Look(_) =>
      LookKeepsLists(s, step);
      LookKeepsHolding(s, step);
      LookKeepsMemory(s, step);
    case Drop(_) =>
      DropKeepsLists(s, step);
      DropKeepsHolding(s, step);
      DropKeepsMemory(s, step);
    case Release(_) =>
      ReleaseChanges(s, step);
      ListsKept(s, Next(s, step));
      ReleaseKeepsHolding(s, step);
      ReleaseKeepsMemory(s, step);
    case Leave(_) =>
      LeaveChanges(s, step);
      ListsKept(s, Next(s, step));
      LeaveKeepsHolding(s, step);
      LeaveKeepsMemory(s, step);
    case _ =>
      QuietChanges(s, step);
      ListsKept(s, Next(s, step));
      QuietKeepsHolding(s, Next(s, step), step.id);
      QuietKeepsMemory(s, step);
  }

  lemma ReleaseChanges(s: State, step: Step)
    requires Enabled(s, step) && step.Release?
    ensures var t := Next(s, step); t.list == s.list && |t.works| == |s.works|
    ensures forall i :: 0 <= i < |s.works| ==> SameClaim(s.works[i], Next(s, step).works[i])
  {
    hide OrderedIds, Remove;
  }

  lemma LeaveChanges(s: State, step: Step)
    requires Enabled(s, step) && step.Leave?
    ensures var t := Next(s, step); t.list == s.list && |t.works| == |s.works|
    ensures forall i :: 0 <= i < |s.works| ==> SameClaim(s.works[i], Next(s, step).works[i])
  {
    hide OrderedIds, Remove;
  }

  /** The invariant holds of the empty queue and every step keeps it. */
  lemma StepKeepsInv(s: State, step: Step)
    requires Inv(s) && Enabled(s, step)
    ensures Inv(Next(s, step))
  {
    hide Next, Enabled, Flags, Listing, Exclusive, Holding, Addresses, NoLeak, Awake, History;
    KeepsCore(s, step);
    KeepsAwake(s, step);
    KeepsHistory(s, step);
    match step
    case Enlist(_, _) => EnlistKeepsNoLeak(s, step);
    case Look(_) => LookKeepsNoLeak(s, step);
    case Drop(_) => DropKeepsNoLeak(s, step);
    case Release(_) => ReleaseKeepsNoLeak(s, step);
    case Leave(_) => LeaveKeepsNoLeak(s, step);
    case _ => QuietKeepsNoLeak(s, step);
  }

  // ----- runs -----

  /** states[k + 1] comes from states[k] by steps[k], starting from the empty queue. */
  ghost predicate Run(states: seq<State>, steps: seq<Step>) {
    && |states| == |steps| + 1 && states[0] == Init()
    && forall k :: 0 <= k < |steps| ==> Follows(states[k], steps[k], states[k + 1])
  }

  ghost predicate Follows(s: State, step: Step, t: State) {
    Enabled(s, step) && t == Next(s, step)
  }

  lemma {:induction false} Reachable(states: seq<State>, steps: seq<Step>, k: nat)
    requires Run(states, steps) && k < |states|
    ensures Inv(states[k])
  {
    hide Inv, Enabled, Next;
    if k == 0 {
      InitInv();
    } else {
      Reachable(states, steps, k - 1);
      assert Follows(states[k - 1], steps[k - 1], states[k - 1 + 1]);
      StepKeepsInv(states[k - 1], steps[k - 1]);
    }
  }

  lemma InitInv()
    ensures Inv(Init())
  {
  }

  /** An ordered function starts. */
  predicate Claims(s: State, step: Step) {
    step.Look? && HeadReady(s)
  }

  /** In every run, ordered functions start in queue order, each at most once, and when
      one starts no other is running. */
  lemma OrderedInQueueOrder(states: seq<State>, steps: seq<Step>, j: nat, k: nat)
    requires Run(states, steps) && j < k < |steps| && Claims(states[j], steps[j]) && Claims(states[k], steps[k])
    ensures states[j].list[0] < states[k].list[0]
    ensures forall i :: 0 <= i < |states[k].works| ==> !states[k].works[i].pc.Ordering?
  {
    hide OrderedIds, Inv, Enabled, Next;
    Reachable(states, steps, j);
    Reachable(states, steps, k);
    StartsAlone(states[k]);
    ClaimedIsGone(states, steps, j, k);
    HeadsIncrease(states[j], states[k]);
  }

  lemma StartsAlone(s: State)
    requires Inv(s) && HeadReady(s)
    ensures forall i :: 0 <= i < |s.works| ==> !s.works[i].pc.Ordering?
  {
  }

  /** Flags never go back, items never vanish. */
  predicate Grown(w: Work, v: Work) {
    w.addr == v.addr && w.ordered == v.ordered && (w.done ==> v.done) && (w.orderDone ==> v.orderDone)
      && (w.off ==> v.off) && (w.freed ==> v.freed)
  }

  ghost predicate Later(s: State, t: State) {
    && |s.works| <= |t.works| && |s.removed| <= |t.removed|
    && (forall i :: 0 <= i < |s.works| ==> Grown(s.works[i], t.works[i]))
    && (forall i :: 0 <= i < |s.removed| ==> s.removed[i] == t.removed[i])
  }

  lemma StepGrows(s: State, step: Step)
    requires Enabled(s, step)
    ensures Later(s, Next(s, step))
  {
    hide OrderedIds, Remove, Active;
  }

  lemma {:induction false} Prefixes(states: seq<State>, steps: seq<Step>, j: nat, k: nat)
    requires Run(states, steps) && j <= k < |states|
    ensures Later(states[j], states[k])
  {
    hide Enabled, Next;
    if j < k {
      Prefixes(states, steps, j, k - 1);
      assert Follows(states[k - 1], steps[k - 1], states[k - 1 + 1]);
      StepGrows(states[k - 1], steps[k - 1]);
    }
  }

  lemma ClaimedIsGone(states: seq<State>, steps: seq<Step>, j: nat, k: nat)
    requires Run(states, steps) && j < k < |steps| && Claims(states[j], steps[j]) && HeadReady(states[k])
    requires Inv(states[j]) && Inv(states[k])
    ensures var h := states[j].list[0]; h < |states[k].works| && states[k].works[h].off && states[k].works[h].ordered
  {
    hide OrderedIds, Inv;
    HeadIsOrdered(states[j]);
    assert Follows(states[j], steps[j], states[j + 1]);
    Prefixes(states, steps, j + 1, k);
    ClaimedIsOff(states[k], states[j].list[0]);
  }

  lemma HeadIsOrdered(s: State)
    requires Inv(s) && HeadReady(s)
    ensures s.works[s.list[0]].ordered
  {
    hide OrderedIds;
    assert s.list[0] in s.list;
  }

  lemma ClaimedIsOff(s: State, h: nat)
    requires Inv(s) && HeadReady(s) && h < |s.works| && s.works[h].orderDone
    ensures s.works[h].off
  {
  }

  lemma HeadsIncrease(s: State, t: State)
    requires Inv(t) && HeadReady(s) && HeadReady(t)
    requires s.list[0] < |t.works| && t.works[s.list[0]].ordered && t.works[s.list[0]].off
    ensures s.list[0] < t.list[0]
  {
    var h := s.list[0];
    OrderedIncreasing(t.works);
    OrderedMembers(t.works, h);
    var ids := t.removed + t.list;
    assert h !in t.list;
    assert h in ids;
    var a :| 0 <= a < |t.removed| && t.removed[a] == h;
    assert ids[a] < ids[|t.removed|];
  }

  // ----- memory -----

  /** The items whose memory a step reads or writes. */
  ghost function Touches(s: State, step: Step): set<nat>
    requires Enabled(s, step)
  {
    match step
    case Enlist(_, ordered) => if ordered && s.list != [] then {s.list[|s.list| - 1]} else {}
    case Submit(id) => {id}
    case Start(id) => {id}
    case FreeInFunc(id) => {id}
    case Return(id) => {}
    case SetDone(id) => {id}
    case Look(id) => if s.list == [] then {} else {s.list[0]}
    case Drop(id) => {s.works[id].pc.work} + if |s.list| > 1 then {s.list[1]} else {}
    case Release(id) =>
      var w := s.works[id].pc.work;
      if s.works[w].addr == s.works[id].addr then {} else {w}
    case Leave(id) => if s.works[id].pc.freeSelf then {id} else {}
  }

  /** No step touches an item that was freed, and the memory of an item that is not
      freed belongs to no other such item. */
  lemma NoUseAfterFree(s: State, step: Step, i: nat)
    requires Inv(s) && Enabled(s, step) && i in Touches(s, step)
    ensures i < |s.works| && !s.works[i].freed
    ensures forall k :: 0 <= k < |s.works| && k != i && s.works[k].addr == s.works[i].addr ==> s.works[k].freed
  {
    hide OrderedIds, NoLeak, Awake, History;
    if i in s.list {
      assert FlagsOf(s.works[i]);
    }
  }

  // ----- when everything is quiet -----

  ghost predicate Quiescent(s: State) {
    forall i :: 0 <= i < |s.works| ==> s.works[i].pc.Finished?
  }

  /** No lost wakeup: with no worker active, the head of the list is not done. */
  lemma NoLostWakeup(s: State)
    requires Inv(s) && s.list != [] && forall i :: 0 <= i < |s.works| ==> !Active(s.works[i].pc)
    ensures s.list[0] < |s.works| && !s.works[s.list[0]].done
  {
    hide OrderedIds, NoLeak, History, Addresses, Holding;
    assert s.list[0] in s.list;
  }

  /** Once all workers have finished, every ordered function has run, in queue order,
      and every such item has been freed exactly once. */
  lemma AllDone(s: State)
    requires Inv(s) && Quiescent(s)
    ensures s.list == []
    ensures forall i: nat :: i in s.removed <==> i < |s.works| && s.works[i].ordered
    ensures forall a, b :: 0 <= a < b < |s.removed| ==> s.removed[a] < s.removed[b]
    ensures forall a, b :: 0 <= a < b < |s.freed| ==> s.freed[a] != s.freed[b]
    ensures forall i: nat :: i < |s.works| && s.works[i].ordered ==> i in s.freed
  {
    hide OrderedIds, Addresses, Holding, Exclusive;
    OrderedIncreasing(s.works);
    forall i: nat ensures i in OrderedIds(s.works) <==> i < |s.works| && s.works[i].ordered {
      OrderedMembers(s.works, i);
    }
    if s.list != [] {
      NoLostWakeup(s);
    }
    assert s.removed + [] == s.removed == OrderedIds(s.works);
    forall a, b | 0 <= a < b < |s.removed| ensures s.removed[a] < s.removed[b] {
      assert OrderedIds(s.works)[a] < OrderedIds(s.works)[b];
    }
    forall i: nat | i < |s.works| && s.works[i].ordered ensures i in s.freed {
      assert i !in s.list;
      FinishedFreed(s, i);
    }
  }

  lemma FinishedFreed(s: State, i: nat)
    requires NoLeak(s) && Quiescent(s) && i < |s.works| && s.works[i].off
    ensures s.works[i].freed
  {
    forall j: int ensures !DropsIt(s, j, i) {
    }
  }

  /** Until then some worker can always take a step. */
  lemma Progress(s: State)
    requires Inv(s) && !Quiescent(s)
    ensures exists step :: Enabled(s, step) && !step.Enlist?
  {
    hide OrderedIds, NoLeak, Awake, History, Addresses;
    if i: nat :| i < |s.works| && Active(s.works[i].pc) {
      var step := OwnStep(s, i);
      assert Enabled(s, step);
    } else {
      var i: nat :| i < |s.works| && !s.works[i].pc.Finished?;
      assert Enabled(s, if s.works[i].pc.Listed? then Submit(i) else Start(i));
    }
  }

  function OwnStep(s: State, i: nat): Step
    requires i < |s.works| && Active(s.works[i].pc)
  {
    match s.works[i].pc
    case Running => Return(i)
    case Ran => SetDone(i)
    case Looking(_) => Look(i)
    case Ordering(_, _) => Drop(i)
    case Dropped(_, _) => Release(i)
    case _ => Leave(i)
  }

  // ----- what the steps do -----

  /** Nobody waits for anybody: whoever has an item can take the next step with it, in any
      order.  Only a queued item waits, for an active one at its own address, and an address
      is taken again once all its items were freed. */
  lemma WhoMayStep(s: State, id: nat)
    requires Inv(s) && id < |s.works|
    ensures var pc := s.works[id].pc;
            && (Enabled(s, Submit(id)) <==> pc == Listed)
            && (Enabled(s, Start(id))
                <==> pc == Queued
                     && forall i :: 0 <= i < |s.works| && i != id && s.works[i].addr == s.works[id].addr
                          ==> s.works[i].pc in {Listed, Queued, Finished})
            && (Enabled(s, Return(id)) <==> pc == Running)
            && (Enabled(s, FreeInFunc(id)) <==> pc == Running && !s.works[id].ordered && !s.works[id].freed)
            && (Enabled(s, SetDone(id)) <==> pc == Ran)
            && (Enabled(s, Look(id)) <==> pc.Looking?)
            && (Enabled(s, Drop(id)) <==> pc.Ordering?)
            && (Enabled(s, Release(id)) <==> pc.Dropped?)
            && (Enabled(s, Leave(id)) <==> pc.Leaving?)
    ensures forall addr, ordered ::
              Enabled(s, Enlist(addr, ordered))
              <==> !exists i :: 0 <= i < |s.works| && s.works[i].addr == addr && !s.works[i].freed
  {
    hide OrderedIds, NoLeak, Awake, History, Addresses, Listing;
  }

  /** The steps outside run_ordered_work, which touch no item but their own. */
  lemma QuietStepIs(s: State, step: Step)
    requires Enabled(s, step) && !step.Look? && !step.Drop? && !step.Release? && !step.Leave?
    ensures var t := Next(s, step);
            && t.removed == s.removed
            && t.list == (if step.Enlist? && step.ordered then s.list + [|s.works|] else s.list)
            && t.freed == (if step.FreeInFunc? then s.freed + [step.id] else s.freed)
            && match step
               case Enlist(addr, ordered) =>
                 t.works == s.works + [Work(addr, ordered, false, false, false, false, Listed)]
               case Submit(id) => t.works == s.works[id := s.works[id].(pc := Queued)]
               case Start(id) => t.works == s.works[id := s.works[id].(pc := Running)]
               case FreeInFunc(id) => t.works == s.works[id := s.works[id].(freed := true)]
               case Return(id) =>
                 t.works == s.works[id := s.works[id].(pc := if s.works[id].ordered then Ran else Finished)]
               case SetDone(id) => t.works == s.works[id := s.works[id].(done := true, pc := Looking(false))]
               case _ => true
  {
  }

  // One turn of run_ordered_work, step by step.

  /** The head of the list is claimed when it is done and not yet claimed, else the loop ends. */
  lemma LookIs(s: State, id: nat)
    requires Listing(s) && id < |s.works| && s.works[id].pc.Looking?
    ensures s.list != [] ==> s.list[0] < |s.works|
    ensures var t, own := Next(s, Look(id)), s.works[id].pc.freeSelf;
            && t.list == s.list && t.removed == s.removed && t.freed == s.freed && |t.works| == |s.works|
            && if s.list != [] && s.works[s.list[0]].done && !s.works[s.list[0]].orderDone then
                 && t.works[id].pc == Ordering(s.list[0], own) && t.works[s.list[0]].orderDone
                 && forall i :: 0 <= i < |s.works| && i != s.list[0] && i != id ==> t.works[i] == s.works[i]
               else t.works == s.works[id := s.works[id].(pc := Leaving(own))]
  {
    hide OrderedIds;
    assert s.list != [] ==> s.list[0] in s.list;
  }

  /** An item comes off the list, as its head, once its ordered function is through. */
  lemma DropIs(s: State, id: nat)
    requires Listing(s) && Exclusive(s) && id < |s.works| && s.works[id].pc.Ordering?
    ensures var w, own := s.works[id].pc.work, s.works[id].pc.freeSelf;
            && s.list != [] && w == s.list[0] && w < |s.works|
            && var t := Next(s, Drop(id));
               && t.list == s.list[1..] && t.removed == s.removed + [w] && t.freed == s.freed
               && |t.works| == |s.works| && t.works[id].pc == Dropped(w, own) && t.works[w].off
               && forall i :: 0 <= i < |s.works| && i != w && i != id ==> t.works[i] == s.works[i]
  {
    hide OrderedIds;
    assert Remove(s.list, s.works[id].pc.work) == s.list[1..];
  }

  /** An item is freed at once, unless it is the worker's own. */
  lemma ReleaseIs(s: State, id: nat)
    requires Flags(s) && Holding(s) && Addresses(s) && id < |s.works| && s.works[id].pc.Dropped?
    ensures var w, own := s.works[id].pc.work, s.works[id].pc.freeSelf;
            && w < |s.works|
            && var t := Next(s, Release(id));
               && t.list == s.list && t.removed == s.removed
               && if w == id then t.works == s.works[id := s.works[id].(pc := Looking(true))] && t.freed == s.freed
                  else
                    && t.freed == s.freed + [w]
                    && t.works == s.works[w := s.works[w].(freed := true)][id := s.works[id].(pc := Looking(own))]
  {
    hide OrderedIds;
    assert s.works[id].pc.work < |s.works|;
    SameAddressIsSelf(s, id);
  }

  /** The own item is freed last. */
  lemma LeaveIs(s: State, id: nat)
    requires id < |s.works| && s.works[id].pc.Leaving?
    ensures var t, w, own := Next(s, Leave(id)), s.works[id], s.works[id].pc.freeSelf;
            && t.list == s.list && t.removed == s.removed
            && t.works == s.works[id := w.(pc := Finished, freed := w.freed || own)]
            && t.freed == if own then s.freed + [id] else s.freed
  {
  }

  // ----- termination -----

  function PcRank(pc: Pc): nat {
    match pc
    case Listed => 8
    case Queued => 7
    case Running => 6
    case Ran => 5
    case Looking(_) => 2
    case Ordering(_, _) => 5
    case Dropped(_, _) => 4
    case Leaving(_) => 1
    case Finished => 0
  }

  function WorkRank(w: Work): nat {
    PcRank(w.pc) + (if w.freed then 0 else 1) + if w.orderDone then 0 else 4
  }

  function Rank(works: seq<Work>): nat {
    if works == [] then 0 else Rank(works[..|works| - 1]) + WorkRank(works[|works| - 1])
  }

  lemma {:induction false} RankUpdate(works: seq<Work>, i: nat, w: Work)
    requires i < |works|
    ensures Rank(works[i := w]) == Rank(works) - WorkRank(works[i]) + WorkRank(w)
  {
    var n := |works| - 1;
    if i == n {
      assert works[i := w][..n] == works[..n];
    } else {
      assert works[i := w][..n] == works[..n][i := w];
      RankUpdate(works[..n], i, w);
    }
  }

  lemma RankTwice(works: seq<Work>, a: nat, w: Work, b: nat, v: Work)
    requires a < |works| && b < |works|
    ensures var u := works[a := w];
            Rank(u[b := v]) == Rank(works) - WorkRank(works[a]) + WorkRank(w) - WorkRank(u[b]) + WorkRank(v)
  {
    hide WorkRank;
    RankUpdate(works, a, w);
    RankUpdate(works[a := w], b, v);
  }

  lemma StepLowersRank(s: State, step: Step)
    requires Core(s) && Enabled(s, step)
    ensures Rank(Next(s, step).works) <= Rank(s.works) - 1 + (if step.Enlist? then 14 else 0)
  {
    hide Rank, WorkRank, Flags, Listing, Exclusive, Holding, Addresses;
    match step
    case Enlist(addr, ordered) => EnlistRank(s, addr, ordered);
    case Look(id) => LookRank(s, id);
    case Drop(id) => DropRank(s, id);
    case Release(id) => ReleaseRank(s, id);
    case Leave(id) => LeaveRank(s, id);
    case _ => QuietRank(s, step);
  }

  lemma EnlistRank(s: State, addr: nat, ordered: bool)
    requires Enabled(s, Enlist(addr, ordered))
    ensures Rank(Next(s, Enlist(addr, ordered)).works) == Rank(s.works) + 13
  {
    hide Rank;
    RankAppend(s.works, Work(addr, ordered, false, false, false, false, Listed));
  }

  lemma QuietRank(s: State, step: Step)
    requires Enabled(s, step) && QuietStep(step)
    ensures Rank(Next(s, step).works) < Rank(s.works)
  {
    hide Rank;
    RankUpdate(s.works, step.id, Next(s, step).works[step.id]);
  }

  lemma LookRank(s: State, id: nat)
    requires Enabled(s, Look(id))
    ensures Rank(Next(s, Look(id)).works) < Rank(s.works)
  {
    hide Rank;
    var t := Next(s, Look(id));
    if HeadReady(s) {
      var h := s.list[0];
      RankTwice(s.works, h, s.works[h].(orderDone := true), id, t.works[id]);
    } else {
      RankUpdate(s.works, id, t.works[id]);
    }
  }

  lemma DropRank(s: State, id: nat)
    requires Enabled(s, Drop(id))
    ensures Rank(Next(s, Drop(id)).works) < Rank(s.works)
  {
    hide Rank, Remove;
    var w := s.works[id].pc.work;
    RankTwice(s.works, w, s.works[w].(off := true), id, Next(s, Drop(id)).works[id]);
  }

  lemma ReleaseRank(s: State, id: nat)
    requires Enabled(s, Release(id))
    ensures Rank(Next(s, Release(id)).works) < Rank(s.works)
  {
    hide Rank;
    var t, w := Next(s, Release(id)), s.works[id].pc.work;
    if s.works[w].addr == s.works[id].addr {
      RankUpdate(s.works, id, t.works[id]);
    } else {
      RankTwice(s.works, w, s.works[w].(freed := true), id, t.works[id]);
    }
  }

  lemma LeaveRank(s: State, id: nat)
    requires Enabled(s, Leave(id))
    ensures Rank(Next(s, Leave(id)).works) < Rank(s.works)
  {
    hide Rank;
    var t := Next(s, Leave(id));
    if s.works[id].pc.freeSelf {
      RankTwice(s.works, id, s.works[id].(freed := true), id, t.works[id]);
    } else {
      RankUpdate(s.works, id, t.works[id]);
    }
  }

  lemma RankAppend(works: seq<Work>, w: Work)
    ensures Rank(works + [w]) == Rank(works) + WorkRank(w)
  {
    assert (works + [w])[..|works|] == works;
  }

  /** Every run is finite: at most 14 steps for each item queued. */
  lemma {:induction false} RunsEnd(states: seq<State>, steps: seq<Step>, k: nat)
    requires Run(states, steps) && k < |states|
    ensures k + Rank(states[k].works) <= 14 * |states[k].works|
  {
    hide Inv, Rank;
    if k > 0 {
      RunsEnd(states, steps, k - 1);
      Reachable(states, steps, k - 1);
      CoreOf(states[k - 1]);
      assert Follows(states[k - 1], steps[k - 1], states[k - 1 + 1]);
      StepLowersRank(states[k - 1], steps[k - 1]);
    } else {
      RankNone();
    }
  }

  lemma RankNone()
    ensures Rank([]) == 0
  {
  }

  lemma CoreOf(s: State)
    requires Inv(s)
    ensures Core(s)
  {
    hide OrderedIds, Flags, Listing, Exclusive, Holding, Addresses;
  }
}
