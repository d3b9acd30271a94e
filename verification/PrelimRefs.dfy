/** Preliminary references: search trees that merge equal references, and a count of the
    references that are present. */
module PrelimRefs {
  import opened Keys
  import opened Words

  /** What prelim_ref_compare looks at. */
  datatype RefId = RefId(level: int, rootId: nat, key: Key, parent: nat)

  /** prelim_ref_compare */
  function RefCompare(a: RefId, b: RefId): int {
    if a.level < b.level then -1
    else if a.level > b.level then 1
    else if a.rootId < b.rootId then -1
    else if a.rootId > b.rootId then 1
    else if a.key.kind < b.key.kind then -1
    else if a.key.kind > b.key.kind then 1
    else if a.key.objectid < b.key.objectid then -1
    else if a.key.objectid > b.key.objectid then 1
    else if a.key.offset < b.key.offset then -1
    else if a.key.offset > b.key.offset then 1
    else if a.parent < b.parent then -1
    else if a.parent > b.parent then 1
    else 0
  }

  lemma RefOrder(a: RefId, b: RefId, c: RefId)
    ensures RefCompare(a, b) == 0 <==> a == b
    ensures RefCompare(a, b) == -RefCompare(b, a)
    ensures RefCompare(a, b) < 0 && RefCompare(b, c) < 0 ==> RefCompare(a, c) < 0
    ensures RefCompare(a, b) > 0 && RefCompare(b, c) > 0 ==> RefCompare(a, c) > 0
  {
  }

  /** The level decides first, then the root, the type, the objectid and the offset of the key,
      and the parent last. */
  lemma RefOrderIs(a: RefId, b: RefId)
    ensures RefCompare(a, b) < 0 <==>
            || a.level < b.level
            || (a.level == b.level && (
                || a.rootId < b.rootId
                || (a.rootId == b.rootId && (
                    || a.key.kind < b.key.kind
                    || (a.key.kind == b.key.kind && (
                        || a.key.objectid < b.key.objectid
                        || (a.key.objectid == b.key.objectid && (
                            || a.key.offset < b.key.offset
                            || (a.key.offset == b.key.offset && a.parent < b.parent)))))))))
  {
  }

  // ----- trees, larger references on the left -----

  datatype Tree = Nil | Node(left: Tree, id: RefId, count: int, right: Tree)

  /** The references of a tree and their counts. */
  function Contents(t: Tree): map<RefId, int> {
    match t
    case Nil => map[]
    case Node(l, id, n, r) => Contents(l) + Contents(r) + map[id := n]
  }

  ghost predicate Ordered(t: Tree) {
    match t
    case Nil => true
    case Node(l, id, n, r) =>
      && Ordered(l) && Ordered(r)
      && (forall x :: x in Contents(l) ==> RefCompare(id, x) < 0)
      && (forall x :: x in Contents(r) ==> RefCompare(id, x) > 0)
  }

  /** The references from left to right. */
  function Listing(t: Tree): seq<RefId> {
    match t
    case Nil => []
    case Node(l, id, _, r) => Listing(l) + [id] + Listing(r)
  }

  lemma {:induction false} ListingHas(t: Tree, x: RefId)
    ensures x in Listing(t) <==> x in Contents(t)
  {
    match t
    case Nil =>
    case Node(l, _, _, r) =>
      ListingHas(l, x);
      ListingHas(r, x);
  }

  /** What is left of the root is larger, what is right of it smaller. */
  lemma AroundRoot(t: Tree, i: nat)
    requires Ordered(t) && t.Node? && i < |Listing(t)|
    ensures i < |Listing(t.left)| ==> RefCompare(t.id, Listing(t)[i]) < 0
    ensures i == |Listing(t.left)| ==> Listing(t)[i] == t.id
    ensures i > |Listing(t.left)| ==> RefCompare(t.id, Listing(t)[i]) > 0
  {
    hide RefCompare;
    ListingHas(t.left, Listing(t)[i]);
    ListingHas(t.right, Listing(t)[i]);
  }

  /** From left to right the references fall. */
  lemma {:induction false} RefsFall(t: Tree, i: nat, j: nat)
    requires Ordered(t) && i < j < |Listing(t)|
    ensures RefCompare(Listing(t)[j], Listing(t)[i]) < 0
  {
    hide RefCompare, Contents;
    var s, m := Listing(t), |Listing(t.left)|;
    if j < m {
      RefsFall(t.left, i, j);
    } else if i > m {
      RefsFall(t.right, i - m - 1, j - m - 1);
    } else {
      AroundRoot(t, i);
      AroundRoot(t, j);
      RefOrder(s[j], t.id, s[i]);
      RefOrder(s[i], t.id, s[j]);
    }
  }

  // ----- the way down -----

  /** The node above, and its other subtree. */
  datatype Turn = Left(id: RefId, count: int, right: Tree) | Right(left: Tree, id: RefId, count: int)

  /** The tree around a position; the last turn is the lowest. */
  function Plug(path: seq<Turn>, t: Tree): Tree {
    if path == [] then t
    else
      var n := |path| - 1;
      match path[n]
      case Left(id, c, r) => Plug(path[..n], Node(t, id, c, r))
      case Right(l, id, c) => Plug(path[..n], Node(l, id, c, t))
  }

  /** Each turn is the one that looking for id takes. */
  ghost predicate LeadsTo(path: seq<Turn>, id: RefId) {
    forall i :: 0 <= i < |path| ==> TurnsTo(path[i], id)
  }

  predicate TurnsTo(turn: Turn, id: RefId) {
    match turn
    case Left(x, _, _) => RefCompare(x, id) < 0
    case Right(_, x, _) => RefCompare(x, id) > 0
  }

  /** Changing a tree at the place of id changes the whole there, and keeps its order. */
  lemma {:induction false} PlugUpdate(path: seq<Turn>, t: Tree, u: Tree, id: RefId, n: int)
    requires LeadsTo(path, id) && Ordered(Plug(path, t)) && Ordered(u) && Contents(u) == Contents(t)[id := n]
    ensures Ordered(Plug(path, u)) && Contents(Plug(path, u)) == Contents(Plug(path, t))[id := n]
  {
    if path != [] {
      var k := |path| - 1;
      var whole, changed := Above(path[k], t), Above(path[k], u);
      PlugOrdered(path[..k], whole);
      TurnUpdate(path[k], t, u, id, n);
      PlugUpdate(path[..k], whole, changed, id, n);
    }
  }

  function Above(turn: Turn, t: Tree): Tree {
    match turn
    case Left(id, c, r) => Node(t, id, c, r)
    case Right(l, id, c) => Node(l, id, c, t)
  }

  lemma TurnUpdate(turn: Turn, t: Tree, u: Tree, id: RefId, n: int)
    requires TurnsTo(turn, id) && Ordered(Above(turn, t)) && Ordered(u) && Contents(u) == Contents(t)[id := n]
    ensures Ordered(Above(turn, u)) && Contents(Above(turn, u)) == Contents(Above(turn, t))[id := n]
  {
    hide RefCompare;
    RefOrder(turn.id, id, id);
    match turn
    case Left(x, c, r) => Disjoint(Contents(t), Contents(r), x, c, id, n);
    case Right(l, x, c) => Disjoint(Contents(t), Contents(l), x, c, id, n);
  }

  lemma Disjoint(m: map<RefId, int>, other: map<RefId, int>, x: RefId, c: int, id: RefId, n: int)
    requires id != x && id !in other
    ensures m[id := n] + other + map[x := c] == (m + other + map[x := c])[id := n]
    ensures other + m[id := n] + map[x := c] == (other + m + map[x := c])[id := n]
  {
  }

  lemma {:induction false} PlugOrdered(path: seq<Turn>, t: Tree)
    requires Ordered(Plug(path, t))
    ensures Ordered(t)
  {
    if path != [] {
      PlugOrdered(path[..|path| - 1], Above(path[|path| - 1], t));
    }
  }

  /** A reference that the way down leads to is in the tree exactly when it is below. */
  lemma {:induction false} FoundBelow(path: seq<Turn>, t: Tree, id: RefId)
    requires LeadsTo(path, id) && Ordered(Plug(path, t))
    ensures id in Contents(Plug(path, t)) <==> id in Contents(t)
    ensures id in Contents(t) ==> Contents(Plug(path, t))[id] == Contents(t)[id]
  {
    if path != [] {
      var k := |path| - 1;
      PlugOrdered(path[..k], Above(path[k], t));
      RefOrder(path[k].id, id, id);
      FoundBelow(path[..k], Above(path[k], t), id);
    }
  }

  // ----- the share count -----

  ghost function Present(m: map<RefId, int>): set<RefId> {
    set id | id in m && m[id] > 0
  }

  function CountOf(m: map<RefId, int>, id: RefId): int {
    if id in m then m[id] else 0
  }

  function Change(was: int, now: int): int {
    if was > 0 && now < 1 then -1 else if was < 1 && now > 0 then 1 else 0
  }

  lemma PresentUpdate(m: map<RefId, int>, id: RefId, n: int)
    ensures |Present(m[id := n])| == |Present(m)| + Change(CountOf(m, id), n)
  {
    var p, q := Present(m), Present(m[id := n]);
    if n > 0 {
      assert q == p + {id};
    } else {
      assert q == p - {id};
    }
  }

  /** struct share_check, as far as it counts. */
  class ShareCheck {
    const rootId: nat
    const dataBytenr: nat
    const inum: nat
    var shareCount: int
    var selfRefCount: int

    constructor (rootId: nat, dataBytenr: nat, inum: nat)
      ensures shareCount == 0 && selfRefCount == 0
    {
      this.rootId, this.dataBytenr, this.inum := rootId, dataBytenr, inum;
      shareCount, selfRefCount := 0, 0;
    }

    /** update_share_count */
    method Update(was: int, now: int, id: RefId, wanted: nat, count: int)
      modifies this
      ensures shareCount == old(shareCount) + Change(was, now)
      ensures selfRefCount == old(selfRefCount)
                + if !(was == 0 && now < 1) && id.rootId == rootId && wanted == dataBytenr && id.key.objectid == inum
                  then count else 0
    {
      if was == 0 && now < 1 {
        return;
      }
      if was > 0 && now < 1 {
        shareCount := shareCount - 1;
      } else if was < 1 && now > 0 {
        shareCount := shareCount + 1;
      }
      if id.rootId == rootId && wanted == dataBytenr && id.key.objectid == inum {
        selfRefCount := selfRefCount + count;
      }
    }
  }

  class PrefTree {
    var root: Tree
    var count: nat

    ghost predicate Valid()
      reads this
    {
      Ordered(root) && count == |Contents(root)|
    }

    constructor ()
      ensures Valid() && Contents(root) == map[]
    {
      root, count := Nil, 0;
    }

    /** prelim_ref_insert: a reference to add, or a count to merge into an equal one. */
    method Insert(id: RefId, wanted: nat, n: int, sc: ShareCheck?)
      requires Valid()
      modifies this, if sc == null then {} else {sc}
      ensures Valid()
      ensures Contents(root) == old(Contents(root))[id := CountOf(old(Contents(root)), id) + n]
      ensures sc != null
              ==> sc.shareCount == old(sc.shareCount) + |Present(Contents(root))| - |Present(old(Contents(root)))|
      ensures sc != null ==>
                var was := CountOf(old(Contents(root)), id);
                sc.selfRefCount == old(sc.selfRefCount)
                  + if (was != 0 || n > 0) && id.rootId == sc.rootId && wanted == sc.dataBytenr
                       && id.key.objectid == sc.inum then n else 0
    {
      hide RefCompare, Plug, Contents, Ordered, Present, LeadsTo, Change, CountOf;
      ghost var m := Contents(root);
      var cur, path := root, [];
      NoTurns(root, id);
      while cur.Node?
        invariant Plug(path, cur) == root == old(root) && LeadsTo(path, id) && Valid()
        invariant count == old(count)
        invariant sc != null ==> sc.shareCount == old(sc.shareCount) && sc.selfRefCount == old(sc.selfRefCount)
        decreases cur
      {
        var result := RefCompare(cur.id, id);
        if result < 0 {
          NextTurn(path, Left(cur.id, cur.count, cur.right), cur.left, id);
          path, cur := path + [Left(cur.id, cur.count, cur.right)], cur.left;
        } else if result > 0 {
          NextTurn(path, Right(cur.left, cur.id, cur.count), cur.right, id);
          path, cur := path + [Right(cur.left, cur.id, cur.count)], cur.right;
        } else {
          MergeHere(path, cur, id, n);
          PresentUpdate(m, id, cur.count + n);
          if sc != null {
            sc.Update(cur.count, cur.count + n, id, wanted, n);
          }
          root := Plug(path, cur.(count := cur.count + n));
          return;
        }
      }
      AddHere(path, id, n);
      PresentUpdate(m, id, n);
      if sc != null {
        sc.Update(0, n, id, wanted, n);
      }
      count := count + 1;
      root := Plug(path, Node(Nil, id, n, Nil));
    }

    /** is_shared_data_backref, in the tree of direct references. */
    method IsSharedDataBackref(bytenr: nat) returns (ret: int)
      requires Valid()
      ensures ret == if RefId(0, 0, Key(0, 0, 0), bytenr) in Contents(root) then 1 else 0
    {
      var target := RefId(0, 0, Key(0, 0, 0), bytenr);
      hide RefCompare, Plug, Contents, Ordered, LeadsTo;
      var cur := root;
      ghost var path := [];
      NoTurns(root, target);
      while cur.Node?
        invariant Plug(path, cur) == root && LeadsTo(path, target)
        decreases cur
      {
        var result := RefCompare(cur.id, target);
        if result < 0 {
          NextTurn(path, Left(cur.id, cur.count, cur.right), cur.left, target);
          path, cur := path + [Left(cur.id, cur.count, cur.right)], cur.left;
        } else if result > 0 {
          NextTurn(path, Right(cur.left, cur.id, cur.count), cur.right, target);
          path, cur := path + [Right(cur.left, cur.id, cur.count)], cur.right;
        } else {
          FoundHere(path, cur, target);
          return 1;
        }
      }
      NotFound(path, target);
      ret := 0;
    }
  }

  lemma NoTurns(t: Tree, id: RefId)
    ensures Plug([], t) == t && LeadsTo([], id)
  {
  }

  lemma NextTurn(path: seq<Turn>, turn: Turn, t: Tree, id: RefId)
    requires LeadsTo(path, id) && TurnsTo(turn, id)
    ensures LeadsTo(path + [turn], id) && Plug(path + [turn], t) == Plug(path, Above(turn, t))
  {
    assert (path + [turn])[..|path|] == path;
  }

  lemma FoundHere(path: seq<Turn>, t: Tree, id: RefId)
    requires t.Node? && RefCompare(t.id, id) == 0 && LeadsTo(path, id) && Ordered(Plug(path, t))
    ensures id in Contents(Plug(path, t)) && Contents(Plug(path, t))[id] == t.count
  {
    hide RefCompare, Plug, LeadsTo, Ordered;
    RefOrder(t.id, id, id);
    FoundBelow(path, t, id);
  }

  lemma NotFound(path: seq<Turn>, id: RefId)
    requires LeadsTo(path, id) && Ordered(Plug(path, Nil))
    ensures id !in Contents(Plug(path, Nil))
  {
    FoundBelow(path, Nil, id);
  }

  lemma MergeHere(path: seq<Turn>, t: Tree, id: RefId, n: int)
    requires t.Node? && RefCompare(t.id, id) == 0 && LeadsTo(path, id) && Ordered(Plug(path, t))
    ensures var m, u := Contents(Plug(path, t)), Plug(path, t.(count := t.count + n));
            Ordered(u) && CountOf(m, id) == t.count && Contents(u) == m[id := t.count + n] && |Contents(u)| == |m|
  {
    hide RefCompare, Plug, LeadsTo, Ordered, Contents;
    FoundHere(path, t, id);
    PlugOrdered(path, t);
    CountChanged(t, id, n);
    PlugUpdate(path, t, t.(count := t.count + n), id, t.count + n);
    SameSize(Contents(Plug(path, t)), id, t.count + n);
  }

  lemma CountChanged(t: Tree, id: RefId, n: int)
    requires t.Node? && RefCompare(t.id, id) == 0 && Ordered(t)
    ensures var u := t.(count := t.count + n); Ordered(u) && Contents(u) == Contents(t)[id := t.count + n]
  {
    hide RefCompare;
    RefOrder(t.id, id, id);
  }

  lemma AddHere(path: seq<Turn>, id: RefId, n: int)
    requires LeadsTo(path, id) && Ordered(Plug(path, Nil))
    ensures var m, u := Contents(Plug(path, Nil)), Plug(path, Node(Nil, id, n, Nil));
            Ordered(u) && CountOf(m, id) == 0 && Contents(u) == m[id := n] && |Contents(u)| == |m| + 1
  {
    PlugUpdate(path, Nil, Node(Nil, id, n, Nil), id, n);
    NotFound(path, id);
    OneMore(Contents(Plug(path, Nil)), id, n);
  }

  lemma SameSize(m: map<RefId, int>, id: RefId, n: int)
    requires id in m
    ensures |m[id := n]| == |m|
  {
    assert m[id := n].Keys == m.Keys;
    assert |m.Keys| == |m| && |m[id := n].Keys| == |m[id := n]|;
  }

  lemma OneMore(m: map<RefId, int>, id: RefId, n: int)
    requires id !in m
    ensures |m[id := n]| == |m| + 1
  {
    assert m[id := n].Keys == m.Keys + {id};
    assert |m.Keys| == |m| && |m[id := n].Keys| == |m[id := n]|;
  }

  // ----- any number of insertions -----

  datatype Kind = Direct | Indirect | MissingKey
  datatype Insertion = Insertion(kind: Kind, id: RefId, wanted: nat, count: int)

  /** What a tree holds after these insertions. */
  function Merged(ins: seq<Insertion>, kind: Kind): map<RefId, int> {
    if ins == [] then map[]
    else
      var n := |ins| - 1;
      var m := Merged(ins[..n], kind);
      if ins[n].kind == kind then m[ins[n].id := CountOf(m, ins[n].id) + ins[n].count] else m
  }

  /** Sum of the counts inserted for one reference. */
  function Inserted(ins: seq<Insertion>, kind: Kind, id: RefId): int {
    if ins == [] then 0
    else
      var n := |ins| - 1;
      Inserted(ins[..n], kind, id) + if ins[n].kind == kind && ins[n].id == id then ins[n].count else 0
  }

  predicate Mentioned(ins: seq<Insertion>, kind: Kind, id: RefId) {
    exists i :: 0 <= i < |ins| && ins[i].kind == kind && ins[i].id == id
  }

  /** Each distinct reference holds the sum of its inserted counts. */
  lemma {:induction false} MergedIsSum(ins: seq<Insertion>, kind: Kind, id: RefId)
    ensures id in Merged(ins, kind) <==> Mentioned(ins, kind, id)
    ensures CountOf(Merged(ins, kind), id) == Inserted(ins, kind, id)
  {
    if ins != [] {
      var n := |ins| - 1;
      MergedIsSum(ins[..n], kind, id);
      if Mentioned(ins[..n], kind, id) {
        var i :| 0 <= i < n && ins[..n][i].kind == kind && ins[..n][i].id == id;
        assert ins[i] == ins[..n][i];
      }
      if ins[n].kind == kind && ins[n].id == id {
        assert Mentioned(ins, kind, id);
      } else if Mentioned(ins, kind, id) {
        var i :| 0 <= i < |ins| && ins[i].kind == kind && ins[i].id == id;
        assert ins[..n][i] == ins[i];
      }
    }
  }

  lemma {:induction false} InsertedConcat(a: seq<Insertion>, b: seq<Insertion>, kind: Kind, id: RefId)
    ensures Inserted(a + b, kind, id) == Inserted(a, kind, id) + Inserted(b, kind, id)
  {
    if b == [] {
      assert a + b == a;
    } else {
      var n := |b| - 1;
      assert (a + b)[..|a| + n] == a + b[..n];
      InsertedConcat(a, b[..n], kind, id);
    }
  }

  lemma {:induction false} InsertedAnyOrder(a: seq<Insertion>, b: seq<Insertion>, kind: Kind, id: RefId)
    requires multiset(a) == multiset(b)
    ensures Inserted(a, kind, id) == Inserted(b, kind, id)
  {
    hide Inserted;
    if a == [] {
      assert |multiset(b)| == 0;
      assert b == [];
    } else {
      var n := |a| - 1;
      assert a[n] in multiset(b);
      var k :| 0 <= k < |b| && b[k] == a[n];
      TakeOut(a, n, kind, id);
      TakeOut(b, k, kind, id);
      InsertedAnyOrder(a[..n] + a[n + 1..], b[..k] + b[k + 1..], kind, id);
    }
  }

  lemma TakeOut(s: seq<Insertion>, k: nat, kind: Kind, id: RefId)
    requires k < |s|
    ensures multiset(s[..k] + s[k + 1..]) == multiset(s) - multiset{s[k]}
    ensures Inserted(s, kind, id) == Inserted(s[..k] + s[k + 1..], kind, id) + Inserted([s[k]], kind, id)
  {
    hide Inserted;
    assert s == s[..k] + ([s[k]] + s[k + 1..]);
    InsertedConcat(s[..k], [s[k]] + s[k + 1..], kind, id);
    InsertedConcat([s[k]], s[k + 1..], kind, id);
    InsertedConcat(s[..k], s[k + 1..], kind, id);
  }

  /** The order of insertion does not matter, neither for the trees nor for the share count. */
  lemma AnyOrder(a: seq<Insertion>, b: seq<Insertion>, kind: Kind)
    requires multiset(a) == multiset(b)
    ensures Merged(a, kind) == Merged(b, kind)
  {
    hide Merged, Inserted, CountOf;
    forall id: RefId ensures id in Merged(a, kind) <==> id in Merged(b, kind) {
      MergedIsSum(a, kind, id);
      MergedIsSum(b, kind, id);
      if Mentioned(a, kind, id) {
        MentionedAnyOrder(a, b, kind, id);
      }
      if Mentioned(b, kind, id) {
        MentionedAnyOrder(b, a, kind, id);
      }
    }
    forall id | id in Merged(a, kind) ensures Merged(a, kind)[id] == Merged(b, kind)[id] {
      MergedIsSum(a, kind, id);
      MergedIsSum(b, kind, id);
      InsertedAnyOrder(a, b, kind, id);
      CountIs(Merged(a, kind), id);
      CountIs(Merged(b, kind), id);
    }
  }

  lemma CountIs(m: map<RefId, int>, id: RefId)
    requires id in m
    ensures CountOf(m, id) == m[id]
  {
  }

  lemma MentionedAnyOrder(a: seq<Insertion>, b: seq<Insertion>, kind: Kind, id: RefId)
    requires multiset(a) == multiset(b) && Mentioned(a, kind, id)
    ensures Mentioned(b, kind, id)
  {
    var i :| 0 <= i < |a| && a[i].kind == kind && a[i].id == id;
    assert a[i] in multiset(b);
    assert a[i] in b;
  }

  /** How many references are present. */
  ghost function Sharers(ins: seq<Insertion>): nat {
    |Present(Merged(ins, Direct))| + |Present(Merged(ins, Indirect))| + |Present(Merged(ins, MissingKey))|
  }

  /** The three trees and the share check after some insertions. */
  ghost predicate Holding(direct: PrefTree, indirect: PrefTree, missing: PrefTree, sc: ShareCheck, ins: seq<Insertion>)
    reads direct, indirect, missing, sc
  {
    && direct.Valid() && Contents(direct.root) == Merged(ins, Direct)
    && indirect.Valid() && Contents(indirect.root) == Merged(ins, Indirect)
    && missing.Valid() && Contents(missing.root) == Merged(ins, MissingKey)
    && sc.shareCount == Sharers(ins)
  }

  const DATA_RELOC_TREE := U64 - 9   // BTRFS_DATA_RELOC_TREE_OBJECTID
  const FOUND_SHARED := 6

  /** The insertions that are not for the data relocation tree. */
  function Kept(ins: seq<Insertion>): seq<Insertion> {
    if ins == [] then []
    else
      var n := |ins| - 1;
      Kept(ins[..n]) + if ins[n].id.rootId == DATA_RELOC_TREE then [] else [ins[n]]
  }

  /** Leaving those out takes nothing from any other reference, and all from theirs. */
  lemma {:induction false} KeptCounts(ins: seq<Insertion>, kind: Kind, id: RefId)
    ensures Inserted(Kept(ins), kind, id) == if id.rootId == DATA_RELOC_TREE then 0 else Inserted(ins, kind, id)
    ensures Mentioned(Kept(ins), kind, id) <==> id.rootId != DATA_RELOC_TREE && Mentioned(ins, kind, id)
  {
    hide Mentioned, Inserted;
    if ins == [] {
      NoInsertions(kind, id);
    } else {
      var n := |ins| - 1;
      KeptCounts(ins[..n], kind, id);
      LastInserted(ins[..n], ins[n], kind, id);
      LastInserted(Kept(ins[..n]), ins[n], kind, id);
      assert ins[..n] + [ins[n]] == ins && Kept(ins[..n]) + [] == Kept(ins[..n]);
    }
  }

  lemma NoInsertions(kind: Kind, id: RefId)
    ensures Inserted([], kind, id) == 0 && !Mentioned([], kind, id)
  {
  }

  lemma LastInserted(ins: seq<Insertion>, x: Insertion, kind: Kind, id: RefId)
    ensures Inserted(ins + [x], kind, id)
         == Inserted(ins, kind, id) + if x.kind == kind && x.id == id then x.count else 0
    ensures Mentioned(ins + [x], kind, id) <==> Mentioned(ins, kind, id) || (x.kind == kind && x.id == id)
  {
    assert (ins + [x])[..|ins|] == ins;
    if Mentioned(ins, kind, id) {
      var i :| 0 <= i < |ins| && ins[i].kind == kind && ins[i].id == id;
      assert (ins + [x])[i] == ins[i];
    }
    if x.kind == kind && x.id == id {
      assert (ins + [x])[|ins|] == x;
    }
  }

  /** add_prelim_ref: one more insertion, into the tree it belongs to, and whether the extent
      is shared by now; nothing happens for the data relocation tree. */
  method InsertOne(direct: PrefTree, indirect: PrefTree, missing: PrefTree, ghost ins: seq<Insertion>, x: Insertion,
      sc: ShareCheck) returns (ret: int)
    requires direct != indirect && indirect != missing && missing != direct
    requires Holding(direct, indirect, missing, sc, ins)
    modifies direct, indirect, missing, sc
    ensures Holding(direct, indirect, missing, sc, if x.id.rootId == DATA_RELOC_TREE then ins else ins + [x])
    ensures ret == if x.id.rootId != DATA_RELOC_TREE && sc.shareCount > 1 then FOUND_SHARED else 0
  {
    hide Contents, Ordered, Merged, Present, CountOf, Sharers;
    if x.id.rootId == DATA_RELOC_TREE {
      return 0;
    }
    assert (ins + [x])[..|ins|] == ins && (ins + [x])[..|ins| + 1] == ins + [x];
    OneMerged(ins + [x], |ins|);
    SharersAre(ins);
    SharersAre(ins + [x]);
    match x.kind {
      case Direct => direct.Insert(x.id, x.wanted, x.count, sc);
      case Indirect => indirect.Insert(x.id, x.wanted, x.count, sc);
      case MissingKey => missing.Insert(x.id, x.wanted, x.count, sc);
    }
    ret := if sc.shareCount > 1 then FOUND_SHARED else 0;
  }

  /** Any insertions into three empty trees, with one share check over all of them. */
  method InsertAll(ins: seq<Insertion>, sc: ShareCheck)
      returns (direct: PrefTree, indirect: PrefTree, missing: PrefTree)
    requires sc.shareCount == 0
    modifies sc
    ensures fresh(direct) && fresh(indirect) && fresh(missing)
    ensures Holding(direct, indirect, missing, sc, Kept(ins))
  {
    hide Contents, Ordered, Merged, Present, CountOf, Sharers;
    direct := new PrefTree();
    indirect := new PrefTree();
    missing := new PrefTree();
    NoneMerged();
    for i := 0 to |ins|
      invariant fresh(direct) && fresh(indirect) && fresh(missing) && direct != indirect && indirect != missing
                && missing != direct
      invariant Holding(direct, indirect, missing, sc, Kept(ins[..i]))
    {
      assert ins[..i + 1][..i] == ins[..i];
      assert Kept(ins[..i]) + [] == Kept(ins[..i]);
      var _ := InsertOne(direct, indirect, missing, Kept(ins[..i]), ins[i], sc);
    }
    assert ins[..|ins|] == ins;
  }

  lemma SharersAre(ins: seq<Insertion>)
    ensures Sharers(ins) == |Present(Merged(ins, Direct))| + |Present(Merged(ins, Indirect))|
            + |Present(Merged(ins, MissingKey))|
  {
    hide Merged, Present;
  }

  lemma NoneMerged()
    ensures forall k :: Merged([], k) == map[]
    ensures forall ins :: ins == [] ==> Sharers(ins) == 0
  {
  }

  lemma OneMerged(ins: seq<Insertion>, i: nat)
    requires i < |ins|
    ensures var m := Merged(ins[..i], ins[i].kind);
            Merged(ins[..i + 1], ins[i].kind) == m[ins[i].id := CountOf(m, ins[i].id) + ins[i].count]
    ensures forall k :: k != ins[i].kind ==> Merged(ins[..i + 1], k) == Merged(ins[..i], k)
  {
    assert ins[..i + 1][..i] == ins[..i];
  }
}
