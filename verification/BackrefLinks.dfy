/** Building up the cache of tree blocks: new blocks hang together by one-way edges until
    btrfs_backref_finish_upper_links puts them in. */
module BackrefLinks {
  import opened BackrefCache

  const EUCLEAN := 117

  // ----- a cache with new blocks -----

  /** In the cache: in the tree of block numbers, or kept as detached. */
  predicate Cached(nodes: map<nat, Node>, rb: set<nat>, n: nat) {
    n in nodes && (n in rb || nodes[n].detached)
  }

  predicate IsNew(nodes: map<nat, Node>, rb: set<nat>, n: nat) {
    n in nodes && !Cached(nodes, rb, n)
  }

  /** An edge goes up one level and is on the list of its child; on that of its parent it
      is once its child is cached and it has left the queue. */
  predicate HalfEdge(nodes: map<nat, Node>, rb: set<nat>, queue: seq<nat>, edge: Edge, e: nat) {
    && edge.lower in nodes && edge.upper in nodes && nodes[edge.upper].level == nodes[edge.lower].level + 1
    && e in nodes[edge.lower].upper
    && (e in nodes[edge.upper].lower <==> Cached(nodes, rb, edge.lower) && e !in queue)
    && (e in nodes[edge.upper].lower ==> Cached(nodes, rb, edge.upper))
  }

  ghost predicate HalfEdges(nodes: map<nat, Node>, edges: map<nat, Edge>, rb: set<nat>, queue: seq<nat>) {
    forall e :: e in edges ==> HalfEdge(nodes, rb, queue, edges[e], e)
  }

  /** The edges to be looked at are those of cached nodes, each once. */
  ghost predicate QueueOK(nodes: map<nat, Node>, edges: map<nat, Edge>, rb: set<nat>, queue: seq<nat>) {
    Distinct(queue) && forall e :: e in queue ==> e in edges && Cached(nodes, rb, edges[e].lower)
  }

  /** Cached nodes without children are on one of the two lists, new ones on none. */
  ghost predicate HalfLists(nodes: map<nat, Node>, rb: set<nat>, leaves: seq<nat>, detached: seq<nat>) {
    && Distinct(leaves) && Distinct(detached)
    && (forall n :: n in leaves ==> Cached(nodes, rb, n) && nodes[n].lowest && nodes[n].lower == [])
    && (forall n :: n in detached ==> n in nodes && nodes[n].detached && nodes[n].lower == [] && n !in leaves)
    && (forall n :: n in nodes && Cached(nodes, rb, n) ==> n in leaves || n in detached || nodes[n].lower != [])
    && (forall n :: n in nodes && nodes[n].detached ==> n in detached)
    && (forall n :: n in nodes && n in rb && nodes[n].lowest && !nodes[n].detached ==> n in leaves)
  }

  /** Every new block but the first was found as the parent of another. */
  ghost predicate Found(nodes: map<nat, Node>, edges: map<nat, Edge>, rb: set<nat>, start: nat) {
    forall n :: IsNew(nodes, rb, n) && n != start ==> HasChild(edges, n) && !nodes[n].lowest
  }

  ghost predicate HasChild(edges: map<nat, Edge>, n: nat) {
    exists e :: e in edges && edges[e].upper == n
  }

  ghost predicate Half(nodes: map<nat, Node>, edges: map<nat, Edge>, rb: set<nat>, leaves: seq<nat>,
      detached: seq<nat>, queue: seq<nat>, start: nat) {
    && HalfEdges(nodes, edges, rb, queue) && QueueOK(nodes, edges, rb, queue)
    && NodesOK(nodes, edges) && HalfLists(nodes, rb, leaves, detached) && Found(nodes, edges, rb, start)
  }

  ghost predicate Counts(c: Cache)
    reads c
  {
    Tallies(c.nodes, c.edges, c.pending, c.changed, c.rb, c.nrNodes, c.nrEdges)
  }

  /** The cache while new blocks are added to it, from start upwards. */
  ghost predicate Building(c: Cache, start: nat)
    reads c
  {
    && Half(c.nodes, c.edges, c.rb, c.leaves, c.detached, [], start) && Counts(c)
    && IsNew(c.nodes, c.rb, start) && c.nodes[start].lowest
  }

  /** A block of the cache is in the tree of block numbers unless it was detached. */
  ghost predicate AllCached(nodes: map<nat, Node>, rb: set<nat>) {
    forall n :: n in nodes ==> Cached(nodes, rb, n)
  }

  // ----- new blocks -----

  /** btrfs_backref_alloc_node for the block that the cache is asked for. */
  method BeginNode(c: Cache, n: nat, level: nat)
    requires c.Valid() && AllCached(c.nodes, c.rb) && n !in c.nodes
    modifies c`nodes, c`nrNodes
    ensures Building(c, n) && c.nodes == old(c.nodes)[n := Node(level, [], [], true, false)]
  {
    hide Half, EdgesOK, NodesOK, ListsOK, AllCached;
    BeginKeeps(c.nodes, c.edges, c.rb, c.leaves, c.detached, n, level);
    OneNodeMore(c.nodes, n, Node(level, [], [], true, false));
    c.nodes := c.nodes[n := Node(level, [], [], true, false)];
    c.nrNodes := c.nrNodes + 1;
  }

  lemma BeginKeeps(nodes: map<nat, Node>, edges: map<nat, Edge>, rb: set<nat>, leaves: seq<nat>, detached: seq<nat>,
      n: nat, level: nat)
    requires EdgesOK(nodes, edges) && NodesOK(nodes, edges) && ListsOK(nodes, leaves, detached)
    requires AllCached(nodes, rb) && n !in nodes && rb <= nodes.Keys
    ensures Half(nodes[n := Node(level, [], [], true, false)], edges, rb, leaves, detached, [], n)
  {
    hide HalfEdges, NodesOK, EdgesOK, HalfLists, ListsOK;
    NoneTwice();
    AddKeepsGraph(nodes, edges, n, level);
    BeginKeepsEdges(nodes, edges, rb, n, level);
    BeginKeepsLists(nodes, rb, leaves, detached, n, level);
  }

  lemma BeginKeepsEdges(nodes: map<nat, Node>, edges: map<nat, Edge>, rb: set<nat>, n: nat, level: nat)
    requires EdgesOK(nodes, edges) && AllCached(nodes, rb) && n !in nodes && rb <= nodes.Keys
    ensures HalfEdges(nodes[n := Node(level, [], [], true, false)], edges, rb, [])
  {
    var after := nodes[n := Node(level, [], [], true, false)];
    forall e | e in edges ensures HalfEdge(after, rb, [], edges[e], e) {
      assert EdgeOK(nodes, edges[e], e);
    }
  }

  lemma BeginKeepsLists(nodes: map<nat, Node>, rb: set<nat>, leaves: seq<nat>, detached: seq<nat>, n: nat, level: nat)
    requires ListsOK(nodes, leaves, detached) && AllCached(nodes, rb) && n !in nodes && rb <= nodes.Keys
    ensures HalfLists(nodes[n := Node(level, [], [], true, false)], rb, leaves, detached)
  {
    hide Distinct;
  }

  lemma DistinctJoin(a: seq<nat>, b: seq<nat>)
    requires Distinct(a) && Distinct(b) && forall x :: x in a ==> x !in b
    ensures Distinct(a + b)
  {
    forall i, j | 0 <= i < j < |a + b| ensures (a + b)[i] != (a + b)[j] {
      if i < |a| <= j {
        assert a[i] in a && b[j - |a|] in b;
      }
    }
  }

  lemma NoneTwice()
    ensures Distinct([])
  {
  }

  /** handle_direct_tree_backref, and one turn of the loop in handle_indirect_tree_backref:
      an edge from a new block to its parent, which is in the tree of block numbers or is
      allocated now.  The edge is on the list of its child only. */
  method AddParent(c: Cache, e: nat, n: nat, upper: nat, ghost start: nat)
    requires Building(c, start) && e !in c.edges && IsNew(c.nodes, c.rb, n)
    requires if upper in c.nodes then Cached(c.nodes, c.rb, upper) && c.nodes[upper].level == c.nodes[n].level + 1
             else true
    modifies c`nodes, c`edges, c`nrNodes, c`nrEdges
    ensures Building(c, start) && c.edges == old(c.edges)[e := Edge(n, upper)]
    ensures c.nodes.Keys == old(c.nodes.Keys) + {upper}
            && c.nodes[n] == old(c.nodes)[n].(upper := old(c.nodes)[n].upper + [e])
    ensures forall m :: m in old(c.nodes) && m != n ==> c.nodes[m] == old(c.nodes)[m]
    ensures c.nodes[upper].level == c.nodes[n].level + 1
    ensures upper !in old(c.nodes) ==> c.nodes[upper] == Node(old(c.nodes)[n].level + 1, [], [], false, false)
  {
    hide Half, IsNew, Cached, Raised, WithParent;
    ghost var nodes := c.nodes;
    ParentFits(c.nodes, c.rb, n, upper);
    if upper !in c.nodes {
      AllocNode(c, upper, c.nodes[n].level + 1);
    }
    AddKeeps(nodes, c.nodes, c.edges, c.rb, c.leaves, c.detached, start, n, upper, e);
    LinkLower(c, e, n, upper);
    FirstKept(nodes, c.nodes, c.rb, start, n, upper, e);
  }

  /** btrfs_backref_alloc_node */
  method AllocNode(c: Cache, n: nat, level: nat)
    requires n !in c.nodes && Counts(c)
    modifies c`nodes, c`nrNodes
    ensures Counts(c) && c.nodes == old(c.nodes)[n := Node(level, [], [], false, false)]
  {
    OneNodeMore(c.nodes, n, Node(level, [], [], false, false));
    c.nodes := c.nodes[n := Node(level, [], [], false, false)];
    c.nrNodes := c.nrNodes + 1;
  }

  /** btrfs_backref_alloc_edge and btrfs_backref_link_edge with LINK_LOWER */
  method LinkLower(c: Cache, e: nat, n: nat, upper: nat)
    requires n in c.nodes && e !in c.edges && Counts(c)
    modifies c`nodes, c`edges, c`nrEdges
    ensures Counts(c) && c.nodes == Raised(old(c.nodes), n, e) && c.edges == old(c.edges)[e := Edge(n, upper)]
  {
    OneEdgeMore(c.edges, e, Edge(n, upper));
    SameNodes(c.nodes, n, c.nodes[n].(upper := c.nodes[n].upper + [e]));
    c.edges := c.edges[e := Edge(n, upper)];
    c.nrEdges := c.nrEdges + 1;
    c.nodes := c.nodes[n := c.nodes[n].(upper := c.nodes[n].upper + [e])];
  }

  lemma ParentFits(nodes: map<nat, Node>, rb: set<nat>, n: nat, u: nat)
    requires IsNew(nodes, rb, n) && rb <= nodes.Keys
    requires u in nodes ==> Cached(nodes, rb, u) && nodes[u].level == nodes[n].level + 1
    ensures n in nodes
    ensures u in nodes ==> WithParent(nodes, nodes, rb, n, u)
    ensures u !in nodes ==> WithParent(nodes, nodes[u := Node(nodes[n].level + 1, [], [], false, false)], rb, n, u)
  {
    assert u in nodes ==> nodes.Keys + {u} == nodes.Keys;
  }

  /** What the caller sees of one more parent. */
  lemma FirstKept(nodes: map<nat, Node>, after: map<nat, Node>, rb: set<nat>, start: nat, n: nat, u: nat, e: nat)
    requires IsNew(nodes, rb, n) && IsNew(nodes, rb, start) && nodes[start].lowest
    requires u in nodes ==> Cached(nodes, rb, u) && nodes[u].level == nodes[n].level + 1 && after == Raised(nodes, n, e)
    requires u !in nodes ==> after == Raised(nodes[u := Node(nodes[n].level + 1, [], [], false, false)], n, e)
    ensures IsNew(after, rb, start) && after[start].lowest && after.Keys == nodes.Keys + {u}
    ensures after[n] == nodes[n].(upper := nodes[n].upper + [e]) && u in after && after[u].level == after[n].level + 1
    ensures forall m :: m in nodes && m != n ==> m in after && after[m] == nodes[m]
    ensures u !in nodes ==> after[u] == Node(nodes[n].level + 1, [], [], false, false)
  {
  }

  lemma OneEdgeMore(edges: map<nat, Edge>, e: nat, edge: Edge)
    requires e !in edges
    ensures |edges[e := edge]| == |edges| + 1
  {
    assert edges[e := edge].Keys == edges.Keys + {e};
    assert |edges.Keys| == |edges| && |edges[e := edge].Keys| == |edges[e := edge]|;
  }

  lemma SameNodes(nodes: map<nat, Node>, n: nat, node: Node)
    requires n in nodes
    ensures nodes[n := node].Keys == nodes.Keys && |nodes[n := node]| == |nodes|
  {
    assert nodes[n := node].Keys == nodes.Keys;
    assert |nodes.Keys| == |nodes| && |nodes[n := node].Keys| == |nodes[n := node]|;
  }

  /** The nodes once e is on the list of its child. */
  function Raised(nodes: map<nat, Node>, n: nat, e: nat): map<nat, Node>
    requires n in nodes
  {
    nodes[n := nodes[n].(upper := nodes[n].upper + [e])]
  }

  /** before is nodes, with one more node when the parent is new. */
  ghost predicate WithParent(nodes: map<nat, Node>, before: map<nat, Node>, rb: set<nat>, n: nat, u: nat) {
    && IsNew(nodes, rb, n) && u in before && u != n && before.Keys == nodes.Keys + {u}
       && before[u].level == nodes[n].level + 1
    && (forall m :: m in nodes ==> before[m] == nodes[m])
    && (u in nodes ==> Cached(nodes, rb, u))
    && (u !in nodes ==> u !in rb && before[u] == Node(nodes[n].level + 1, [], [], false, false))
  }

  lemma AddKeeps(nodes: map<nat, Node>, before: map<nat, Node>, edges: map<nat, Edge>, rb: set<nat>, leaves: seq<nat>,
      detached: seq<nat>, start: nat, n: nat, u: nat, e: nat)
    requires Half(nodes, edges, rb, leaves, detached, [], start) && WithParent(nodes, before, rb, n, u) && e !in edges
    ensures Half(Raised(before, n, e), edges[e := Edge(n, u)], rb, leaves, detached, [], start)
  {
    hide HalfEdges, NodesOK, HalfLists, Found, WithParent, Raised;
    RaiseKeepsEdges(nodes, before, edges, rb, n, u, e);
    RaiseKeepsNodes(nodes, before, edges, rb, n, u, e);
    RaiseKeepsLists(nodes, before, rb, leaves, detached, n, u, e);
    RaiseKeepsFound(nodes, before, edges, rb, start, n, u, e);
  }

  lemma RaiseKeepsEdges(nodes: map<nat, Node>, before: map<nat, Node>, edges: map<nat, Edge>, rb: set<nat>, n: nat,
      u: nat, e: nat)
    requires HalfEdges(nodes, edges, rb, []) && NodesOK(nodes, edges) && WithParent(nodes, before, rb, n, u)
             && e !in edges
    ensures HalfEdges(Raised(before, n, e), edges[e := Edge(n, u)], rb, [])
  {
    var after, more := Raised(before, n, e), edges[e := Edge(n, u)];
    forall f | f in more ensures HalfEdge(after, rb, [], more[f], f) {
      if f != e {
        assert HalfEdge(nodes, rb, [], edges[f], f);
      } else if u in nodes {
        assert NodeOK(nodes[u], edges, u);
      }
    }
  }

  lemma RaiseKeepsNodes(nodes: map<nat, Node>, before: map<nat, Node>, edges: map<nat, Edge>, rb: set<nat>, n: nat,
      u: nat, e: nat)
    requires NodesOK(nodes, edges) && WithParent(nodes, before, rb, n, u) && e !in edges
    ensures NodesOK(Raised(before, n, e), edges[e := Edge(n, u)])
  {
    var after, more := Raised(before, n, e), edges[e := Edge(n, u)];
    forall m | m in after ensures NodeOK(after[m], more, m) {
      if m in nodes {
        assert NodeOK(nodes[m], edges, m);
      }
    }
  }

  lemma RaiseKeepsLists(nodes: map<nat, Node>, before: map<nat, Node>, rb: set<nat>, leaves: seq<nat>,
      detached: seq<nat>, n: nat, u: nat, e: nat)
    requires HalfLists(nodes, rb, leaves, detached) && WithParent(nodes, before, rb, n, u)
    ensures HalfLists(Raised(before, n, e), rb, leaves, detached)
  {
    hide Distinct;
    var after := Raised(before, n, e);
    forall m | m in after ensures m in nodes
        ==> (Cached(after, rb, m) <==> Cached(nodes, rb, m)) && SameChildren(nodes[m], after[m]) {
    }
  }

  predicate SameChildren(was: Node, now: Node) {
    now.lower == was.lower && now.lowest == was.lowest && now.detached == was.detached
  }

  lemma RaiseKeepsFound(nodes: map<nat, Node>, before: map<nat, Node>, edges: map<nat, Edge>, rb: set<nat>, start: nat,
      n: nat, u: nat, e: nat)
    requires Found(nodes, edges, rb, start) && WithParent(nodes, before, rb, n, u) && e !in edges
    ensures Found(Raised(before, n, e), edges[e := Edge(n, u)], rb, start)
  {
    var after, more := Raised(before, n, e), edges[e := Edge(n, u)];
    forall m | IsNew(after, rb, m) && m != start ensures HasChild(more, m) {
      if m == u {
        assert more[e].upper == u;
      } else {
        assert IsNew(nodes, rb, m);
        assert HasChild(edges, m);
        var f :| f in edges && edges[f].upper == m;
        assert more[f].upper == m;
      }
    }
  }

  // ----- the steps of btrfs_backref_finish_upper_links -----

  /** The nodes once edge e is off the list of its child n. */
  function Lowered(nodes: map<nat, Node>, n: nat, e: nat): map<nat, Node>
    requires n in nodes
  {
    nodes[n := nodes[n].(upper := Without(nodes[n].upper, e))]
  }

  /** The nodes once edge e is on the list of its parent u. */
  function Joined(nodes: map<nat, Node>, u: nat, e: nat, lowest: bool): map<nat, Node>
    requires u in nodes
  {
    nodes[u := nodes[u].(lower := nodes[u].lower + [e], lowest := lowest)]
  }

  lemma StartKeeps(nodes: map<nat, Node>, edges: map<nat, Edge>, rb: set<nat>, leaves: seq<nat>, detached: seq<nat>,
      start: nat)
    requires Half(nodes, edges, rb, leaves, detached, [], start) && IsNew(nodes, rb, start) && nodes[start].lowest
    ensures Half(nodes, edges, rb + {start}, leaves + [start], detached, nodes[start].upper, start)
  {
    hide HalfLists, Distinct, NodesOK;
    var rb', queue := rb + {start}, nodes[start].upper;
    NodeOf(nodes, edges, start);
    forall e | e in edges ensures HalfEdge(nodes, rb', queue, edges[e], e) {
      assert HalfEdge(nodes, rb, [], edges[e], e);
    }
    NoEdgeBelow(nodes, edges, rb, start);
    forall m | IsNew(nodes, rb', m) && m != start ensures HasChild(edges, m) && !nodes[m].lowest {
      assert IsNew(nodes, rb, m);
    }
    StartKeepsLists(nodes, rb, leaves, detached, start);
  }

  lemma StartKeepsLists(nodes: map<nat, Node>, rb: set<nat>, leaves: seq<nat>, detached: seq<nat>, start: nat)
    requires HalfLists(nodes, rb, leaves, detached)
    requires IsNew(nodes, rb, start) && nodes[start].lowest && nodes[start].lower == []
    ensures HalfLists(nodes, rb + {start}, leaves + [start], detached)
  {
  }

  /** A new node has no edge on its list of children yet. */
  lemma NoEdgeBelow(nodes: map<nat, Node>, edges: map<nat, Edge>, rb: set<nat>, n: nat)
    requires HalfEdges(nodes, edges, rb, []) && NodesOK(nodes, edges) && IsNew(nodes, rb, n)
    ensures nodes[n].lower == []
  {
    assert NodeOK(nodes[n], edges, n);
    if nodes[n].lower != [] {
      var e := nodes[n].lower[0];
      HalfEdgeOf(nodes, edges, rb, [], e);
    }
  }

  lemma HalfEdgeOf(nodes: map<nat, Node>, edges: map<nat, Edge>, rb: set<nat>, queue: seq<nat>, e: nat)
    requires HalfEdges(nodes, edges, rb, queue) && e in edges
    ensures HalfEdge(nodes, rb, queue, edges[e], e)
  {
  }

  lemma QueueFront(nodes: map<nat, Node>, edges: map<nat, Edge>, rb: set<nat>, queue: seq<nat>)
    requires HalfEdges(nodes, edges, rb, queue) && QueueOK(nodes, edges, rb, queue) && queue != []
    ensures var e := queue[0];
            && e in edges && HalfEdge(nodes, rb, queue, edges[e], e) && Cached(nodes, rb, edges[e].lower) && e in queue
            && Distinct(queue[1..]) && edges[e].lower != edges[e].upper
            && forall f :: f in queue[1..] <==> f in queue && f != e
  {
    var e := queue[0];
    assert queue == [e] + queue[1..] && e in queue;
    HalfEdgeOf(nodes, edges, rb, queue, e);
  }

  /** The parent is detached: the edge goes. */
  lemma DropKeeps(nodes: map<nat, Node>, edges: map<nat, Edge>, rb: set<nat>, leaves: seq<nat>, detached: seq<nat>,
      queue: seq<nat>, start: nat, e: nat, n: nat, u: nat)
    requires Half(nodes, edges, rb, leaves, detached, queue, start) && queue != [] && e == queue[0]
    requires e in edges && edges[e] == Edge(n, u) && n in nodes && u in nodes && nodes[u].detached
    ensures Half(Lowered(nodes, n, e), edges - {e}, rb, leaves, detached, queue[1..], start)
  {
    hide HalfEdges, NodesOK, HalfLists, Found, Lowered, Without, Distinct, HalfEdge;
    QueueFront(nodes, edges, rb, queue);
    DropKeepsEdges(nodes, edges, rb, queue, e, n, u);
    DropKeepsNodes(nodes, edges, rb, queue, e, n, u);
    DropKeepsRest(nodes, edges, rb, leaves, detached, start, e, n, u);
    LoweredKeys(nodes, rb, n, e);
  }

  lemma LoweredKeys(nodes: map<nat, Node>, rb: set<nat>, n: nat, e: nat)
    requires n in nodes
    ensures forall m :: Cached(Lowered(nodes, n, e), rb, m) <==> Cached(nodes, rb, m)
  {
  }

  lemma DropKeepsEdges(nodes: map<nat, Node>, edges: map<nat, Edge>, rb: set<nat>, queue: seq<nat>, e: nat, n: nat,
      u: nat)
    requires HalfEdges(nodes, edges, rb, queue) && QueueOK(nodes, edges, rb, queue) && queue != [] && e == queue[0]
    requires e in edges && edges[e] == Edge(n, u) && n in nodes && u in nodes
    ensures HalfEdges(Lowered(nodes, n, e), edges - {e}, rb, queue[1..])
  {
    hide Without, QueueOK, HalfEdges;
    QueueFront(nodes, edges, rb, queue);
    LoweredKeys(nodes, rb, n, e);
    var after := Lowered(nodes, n, e);
    forall f | f in edges - {e} ensures HalfEdge(after, rb, queue[1..], (edges - {e})[f], f) {
      HalfEdgeOf(nodes, edges, rb, queue, f);
      WithoutMembers(nodes[n].upper, e, f);
    }
    assert HalfEdges(after, edges - {e}, rb, queue[1..]) by {
      AllHalf(after, edges - {e}, rb, queue[1..]);
    }
  }

  lemma AllHalf(nodes: map<nat, Node>, edges: map<nat, Edge>, rb: set<nat>, queue: seq<nat>)
    requires forall e :: e in edges ==> HalfEdge(nodes, rb, queue, edges[e], e)
    ensures HalfEdges(nodes, edges, rb, queue)
  {
  }

  lemma DropKeepsNodes(nodes: map<nat, Node>, edges: map<nat, Edge>, rb: set<nat>, queue: seq<nat>, e: nat, n: nat,
      u: nat)
    requires HalfEdges(nodes, edges, rb, queue) && QueueOK(nodes, edges, rb, queue) && NodesOK(nodes, edges)
             && queue != [] && e == queue[0]
    requires e in edges && edges[e] == Edge(n, u) && n in nodes && u in nodes
    ensures NodesOK(Lowered(nodes, n, e), edges - {e})
  {
    hide Without, QueueOK, HalfEdges;
    QueueFront(nodes, edges, rb, queue);
    var after, rest := Lowered(nodes, n, e), edges - {e};
    forall m | m in after ensures NodeOK(after[m], rest, m) {
      assert NodeOK(nodes[m], edges, m);
      WithoutDistinct(nodes[n].upper, e);
      forall f ensures f in Without(nodes[n].upper, e) <==> f in nodes[n].upper && f != e {
        WithoutMembers(nodes[n].upper, e, f);
      }
    }
  }

  lemma DropKeepsRest(nodes: map<nat, Node>, edges: map<nat, Edge>, rb: set<nat>, leaves: seq<nat>, detached: seq<nat>,
      start: nat, e: nat, n: nat, u: nat)
    requires HalfLists(nodes, rb, leaves, detached) && Found(nodes, edges, rb, start)
    requires e in edges && edges[e] == Edge(n, u) && n in nodes && u in nodes && nodes[u].detached
    ensures HalfLists(Lowered(nodes, n, e), rb, leaves, detached) && Found(Lowered(nodes, n, e), edges - {e}, rb, start)
  {
    hide Without, Distinct;
    var after, rest := Lowered(nodes, n, e), edges - {e};
    forall m | m in after ensures (Cached(after, rb, m) <==> Cached(nodes, rb, m)) && SameChildren(nodes[m], after[m]) {
    }
    forall m | IsNew(after, rb, m) && m != start ensures HasChild(rest, m) {
      assert HasChild(edges, m);
      var f :| f in edges && edges[f].upper == m;
      assert f in rest;
    }
  }

  /** The parent is in the cache, or gets there now: the edge is put on its list. */
  function NextEdges(nodes: map<nat, Node>, rb: set<nat>, queue: seq<nat>, u: nat): seq<nat>
    requires queue != [] && u in nodes
  {
    queue[1..] + if u in rb then [] else nodes[u].upper
  }

  lemma JoinKeeps(nodes: map<nat, Node>, edges: map<nat, Edge>, rb: set<nat>, leaves: seq<nat>, detached: seq<nat>,
      queue: seq<nat>, start: nat, e: nat, n: nat, u: nat, lowest: bool)
    requires Half(nodes, edges, rb, leaves, detached, queue, start) && queue != [] && e == queue[0]
    requires e in edges && edges[e] == Edge(n, u) && n in nodes && u in nodes && !nodes[u].detached && !lowest
    ensures Half(Joined(nodes, u, e, lowest), edges, rb + {u}, Without(leaves, u), detached,
            NextEdges(nodes, rb, queue, u), start)
  {
    hide HalfEdges, QueueOK, NodesOK, HalfLists, Found, Joined, NextEdges, Without, Distinct, HalfEdge;
    QueueFront(nodes, edges, rb, queue);
    JoinKeepsEdges(nodes, edges, rb, queue, e, n, u, lowest);
    JoinKeepsQueue(nodes, edges, rb, queue, e, n, u, lowest);
    JoinKeepsNodes(nodes, edges, rb, queue, e, n, u, lowest);
    JoinKeepsLists(nodes, rb, leaves, detached, e, u, lowest);
    JoinKeepsFound(nodes, edges, rb, start, e, u, lowest);
  }

  lemma JoinKeepsEdges(nodes: map<nat, Node>, edges: map<nat, Edge>, rb: set<nat>, queue: seq<nat>, e: nat, n: nat,
      u: nat, lowest: bool)
    requires HalfEdges(nodes, edges, rb, queue) && QueueOK(nodes, edges, rb, queue) && NodesOK(nodes, edges)
             && queue != [] && e == queue[0]
    requires e in edges && edges[e] == Edge(n, u) && n in nodes && u in nodes && !nodes[u].detached
    ensures HalfEdges(Joined(nodes, u, e, lowest), edges, rb + {u}, NextEdges(nodes, rb, queue, u))
  {
    hide HalfEdges, QueueOK, NodesOK, Distinct;
    QueueFront(nodes, edges, rb, queue);
    var after, rb', queue' := Joined(nodes, u, e, lowest), rb + {u}, NextEdges(nodes, rb, queue, u);
    NodeOf(nodes, edges, u);
    forall f | f in edges ensures HalfEdge(after, rb', queue', edges[f], f) {
      HalfEdgeOf(nodes, edges, rb, queue, f);
    }
    AllHalf(after, edges, rb', queue');
  }

  lemma NodeOf(nodes: map<nat, Node>, edges: map<nat, Edge>, n: nat)
    requires NodesOK(nodes, edges) && n in nodes
    ensures NodeOK(nodes[n], edges, n)
  {
  }

  lemma JoinKeepsQueue(nodes: map<nat, Node>, edges: map<nat, Edge>, rb: set<nat>, queue: seq<nat>, e: nat, n: nat,
      u: nat, lowest: bool)
    requires HalfEdges(nodes, edges, rb, queue) && QueueOK(nodes, edges, rb, queue) && NodesOK(nodes, edges)
             && queue != [] && e == queue[0]
    requires e in edges && edges[e] == Edge(n, u) && n in nodes && u in nodes && !nodes[u].detached
    ensures QueueOK(Joined(nodes, u, e, lowest), edges, rb + {u}, NextEdges(nodes, rb, queue, u))
  {
    hide HalfEdges, NodesOK, HalfEdge, Distinct;
    QueueFront(nodes, edges, rb, queue);
    NodeOf(nodes, edges, u);
    NoneTwice();
    var after, rb', queue' := Joined(nodes, u, e, lowest), rb + {u}, NextEdges(nodes, rb, queue, u);
    var more: seq<nat> := if u in rb then [] else nodes[u].upper;
    forall f | f in queue[1..] ensures f !in more {
      assert f in queue && Cached(nodes, rb, edges[f].lower);
    }
    DistinctJoin(queue[1..], more);
    forall f | f in queue' ensures f in edges && Cached(after, rb', edges[f].lower) {
      if f in queue[1..] {
        assert f in queue && Cached(nodes, rb, edges[f].lower);
      }
    }
  }

  lemma JoinKeepsNodes(nodes: map<nat, Node>, edges: map<nat, Edge>, rb: set<nat>, queue: seq<nat>, e: nat, n: nat,
      u: nat, lowest: bool)
    requires HalfEdges(nodes, edges, rb, queue) && QueueOK(nodes, edges, rb, queue) && NodesOK(nodes, edges)
             && queue != [] && e == queue[0]
    requires e in edges && edges[e] == Edge(n, u) && n in nodes && u in nodes
    ensures NodesOK(Joined(nodes, u, e, lowest), edges)
  {
    hide HalfEdges, QueueOK;
    QueueFront(nodes, edges, rb, queue);
    var after := Joined(nodes, u, e, lowest);
    forall m | m in after ensures NodeOK(after[m], edges, m) {
      assert NodeOK(nodes[m], edges, m);
    }
  }

  lemma JoinKeepsLists(nodes: map<nat, Node>, rb: set<nat>, leaves: seq<nat>, detached: seq<nat>, e: nat, u: nat,
      lowest: bool)
    requires HalfLists(nodes, rb, leaves, detached) && u in nodes && !nodes[u].detached && !lowest
    ensures HalfLists(Joined(nodes, u, e, lowest), rb + {u}, Without(leaves, u), detached)
  {
    hide Without, Distinct;
    var after, rb' := Joined(nodes, u, e, lowest), rb + {u};
    WithoutDistinct(leaves, u);
    forall m: nat ensures m in Without(leaves, u) <==> m in leaves && m != u {
      WithoutMembers(leaves, u, m);
    }
    forall m | m in after && m != u ensures (Cached(after, rb', m) <==> Cached(nodes, rb, m)) && after[m] == nodes[m] {
    }
  }

  lemma JoinKeepsFound(nodes: map<nat, Node>, edges: map<nat, Edge>, rb: set<nat>, start: nat, e: nat, u: nat,
      lowest: bool)
    requires Found(nodes, edges, rb, start) && u in nodes
    ensures Found(Joined(nodes, u, e, lowest), edges, rb + {u}, start)
  {
    var after, rb' := Joined(nodes, u, e, lowest), rb + {u};
    forall m | IsNew(after, rb', m) && m != start ensures HasChild(edges, m) && !after[m].lowest {
      assert IsNew(nodes, rb, m);
    }
  }

  lemma NewNotLowest(nodes: map<nat, Node>, edges: map<nat, Edge>, rb: set<nat>, leaves: seq<nat>, detached: seq<nat>,
      queue: seq<nat>, start: nat, u: nat)
    requires Half(nodes, edges, rb, leaves, detached, queue, start) && start in rb
    ensures IsNew(nodes, rb, u) ==> !nodes[u].lowest
  {
  }

  // ----- the end of it -----

  /** With the queue empty no new block is left: its child edges would lead down for ever. */
  lemma {:induction false} NoNewAt(nodes: map<nat, Node>, edges: map<nat, Edge>, rb: set<nat>, start: nat, n: nat,
      level: nat)
    requires HalfEdges(nodes, edges, rb, []) && Found(nodes, edges, rb, start) && Cached(nodes, rb, start)
    ensures IsNew(nodes, rb, n) ==> nodes[n].level != level
    decreases level
  {
    if IsNew(nodes, rb, n) && nodes[n].level == level {
      assert HasChild(edges, n);
      var e :| e in edges && edges[e].upper == n;
      HalfEdgeOf(nodes, edges, rb, [], e);
      NoNewAt(nodes, edges, rb, start, edges[e].lower, level - 1);
    }
  }

  lemma HalfIsWhole(nodes: map<nat, Node>, edges: map<nat, Edge>, rb: set<nat>, leaves: seq<nat>, detached: seq<nat>,
      start: nat)
    requires Half(nodes, edges, rb, leaves, detached, [], start) && Cached(nodes, rb, start)
    ensures AllCached(nodes, rb) && EdgesOK(nodes, edges) && NodesOK(nodes, edges) && ListsOK(nodes, leaves, detached)
    ensures forall e :: e in edges ==> edges[e].upper in nodes && !nodes[edges[e].upper].detached
  {
    forall n | n in nodes ensures Cached(nodes, rb, n) {
      NoNewAt(nodes, edges, rb, start, n, nodes[n].level);
    }
    forall e | e in edges ensures EdgeOK(nodes, edges[e], e) && !nodes[edges[e].upper].detached {
      HalfEdgeOf(nodes, edges, rb, [], e);
    }
  }

  // ----- what the search does on the way -----

  function NewOnes(nodes: map<nat, Node>, rb: set<nat>): set<nat> {
    set n | n in nodes && n !in rb && !nodes[n].detached
  }

  /** Only edges to detached parents are gone, from the lists of their children too, and
      the orphans are the nodes that lost all their parents. */
  ghost predicate Went(nodes0: map<nat, Node>, edges0: map<nat, Edge>, nodes: map<nat, Node>, edges: map<nat, Edge>,
      orphans: seq<nat>) {
    && nodes.Keys == nodes0.Keys
    && (forall n :: n in nodes ==> StillThere(nodes0[n], nodes[n], edges))
    && (forall e :: e in edges ==> e in edges0 && edges[e] == edges0[e])
    && (forall e :: e in edges0 && e !in edges ==> edges0[e].upper in nodes0 && nodes0[edges0[e].upper].detached)
    && (forall n :: n in orphans <==> n in nodes && nodes0[n].upper != [] && nodes[n].upper == [])
  }

  ghost predicate StillThere(was: Node, now: Node, edges: map<nat, Edge>) {
    && now.level == was.level && now.detached == was.detached
    && forall e :: e in now.upper <==> e in was.upper && e in edges
  }

  lemma WentNowhere(nodes: map<nat, Node>, edges: map<nat, Edge>)
    requires NodesOK(nodes, edges)
    ensures Went(nodes, edges, nodes, edges, [])
  {
    forall n | n in nodes ensures StillThere(nodes[n], nodes[n], edges) {
      NodeOf(nodes, edges, n);
    }
  }

  lemma WentDrop(nodes0: map<nat, Node>, edges0: map<nat, Edge>, nodes: map<nat, Node>, edges: map<nat, Edge>,
      orphans: seq<nat>, e: nat, n: nat, u: nat)
    requires Went(nodes0, edges0, nodes, edges, orphans) && NodesOK(nodes, edges) && e in edges
             && edges[e] == Edge(n, u)
    requires n in nodes && u in nodes && nodes[u].detached && e in nodes[n].upper
    ensures var after := Lowered(nodes, n, e);
            Went(nodes0, edges0, after, edges - {e}, if after[n].upper == [] then [n] + orphans else orphans)
  {
    hide Without, StillThere, NodesOK;
    var after := Lowered(nodes, n, e);
    forall m | m in after ensures StillThere(nodes0[m], after[m], edges - {e}) {
      StillAfterDrop(nodes0[m], nodes[m], edges, m, e, n);
      NodeOf(nodes, edges, m);
    }
    SameFlag(nodes0[u], nodes[u], edges);
    HadParents(nodes0[n], nodes[n], edges, e);
    forall m ensures m in (if after[n].upper == [] then [n] + orphans else orphans)
                <==> m in after && nodes0[m].upper != [] && after[m].upper == [] {
      assert m in orphans <==> m in nodes && nodes0[m].upper != [] && nodes[m].upper == [];
    }
  }

  lemma StillAfterDrop(was: Node, now: Node, edges: map<nat, Edge>, m: nat, e: nat, n: nat)
    requires StillThere(was, now, edges) && e in edges && edges[e].lower == n
    ensures m == n ==> StillThere(was, now.(upper := Without(now.upper, e)), edges - {e})
    ensures m != n && NodeOK(now, edges, m) ==> StillThere(was, now, edges - {e})
  {
    hide Without;
    forall f ensures f in Without(now.upper, e) <==> f in now.upper && f != e {
      WithoutMembers(now.upper, e, f);
    }
  }

  lemma SameFlag(was: Node, now: Node, edges: map<nat, Edge>)
    requires StillThere(was, now, edges)
    ensures now.detached == was.detached && now.level == was.level
  {
  }

  lemma HadParents(was: Node, now: Node, edges: map<nat, Edge>, e: nat)
    requires StillThere(was, now, edges) && e in now.upper
    ensures was.upper != [] && now.upper != []
  {
  }

  lemma WentJoin(nodes0: map<nat, Node>, edges0: map<nat, Edge>, nodes: map<nat, Node>, edges: map<nat, Edge>,
      orphans: seq<nat>, e: nat, u: nat, lowest: bool)
    requires Went(nodes0, edges0, nodes, edges, orphans) && u in nodes
    ensures Went(nodes0, edges0, Joined(nodes, u, e, lowest), edges, orphans)
  {
    var after := Joined(nodes, u, e, lowest);
    forall m | m in after ensures StillThere(nodes0[m], after[m], edges) {
      assert StillThere(nodes0[m], nodes[m], edges);
    }
  }

  /** The new block may be put into the cache: its references were looked at, and it is
      no block of a tree that is only copied on write. */
  predicate Good(n: nat, checked: set<nat>, cowonly: set<nat>) {
    n in checked && n !in cowonly
  }

  ghost predicate AllGood(nodes: map<nat, Node>, rb: set<nat>, checked: set<nat>, cowonly: set<nat>) {
    forall n :: IsNew(nodes, rb, n) ==> Good(n, checked, cowonly)
  }

  /** What got into the cache was new, and good. */
  ghost predicate CachedSince(nodes0: map<nat, Node>, rb0: set<nat>, rb: set<nat>, checked: set<nat>,
      cowonly: set<nat>) {
    rb0 <= rb && forall n :: n in rb && n !in rb0 ==> IsNew(nodes0, rb0, n) && Good(n, checked, cowonly)
  }

  /** The edges that stay are those to parents that are not detached. */
  ghost predicate EdgesKept(nodes0: map<nat, Node>, edges0: map<nat, Edge>, edges: map<nat, Edge>) {
    forall e :: e in edges <==> e in edges0 && edges0[e].upper in nodes0 && !nodes0[edges0[e].upper].detached
  }

  ghost predicate Midway(c: Cache, queue: seq<nat>, start: nat, orphans: seq<nat>, nodes0: map<nat, Node>,
      edges0: map<nat, Edge>)
    reads c
  {
    && Half(c.nodes, c.edges, c.rb, c.leaves, c.detached, queue, start) && Counts(c)
    && Went(nodes0, edges0, c.nodes, c.edges, orphans) && start in c.rb
  }

  /** btrfs_backref_finish_upper_links, for a start block outside the copy-on-write-only
      trees.  The edges go on the lists of their parents, breadth first; new parents get
      into the cache on the way. */
  method FinishUpperLinks(c: Cache, start: nat, checked: set<nat>, cowonly: set<nat>)
      returns (ret: int, orphans: seq<nat>)
    requires Building(c, start) && Good(start, checked, cowonly)
    modifies c`nodes, c`edges, c`leaves, c`rb, c`nrEdges
    ensures old(forall n :: n in c.nodes && n !in c.rb && !c.nodes[n].detached ==> n in checked && n !in cowonly)
            <==> ret == 0
    ensures ret in {0, -117} && (ret == 0 ==> c.Valid())
    // all new blocks get into the cache
    ensures ret == 0
            ==> forall n :: n in c.rb <==> n in old(c.rb) || (n in old(c.nodes) && !old(c.nodes)[n].detached)
    // exactly the edges to detached parents go
    ensures ret == 0
            ==> (forall e :: e in c.edges <==> e in old(c.edges) && old(c.edges)[e].upper in old(c.nodes)
                                               && !old(c.nodes)[old(c.edges)[e].upper].detached)
                && forall e :: e in c.edges ==> c.edges[e] == old(c.edges)[e]
    ensures ret == 0 ==> c.nodes.Keys == old(c.nodes).Keys
    ensures ret == 0
            ==> forall n :: n in c.nodes ==>
                  && c.nodes[n].level == old(c.nodes)[n].level && c.nodes[n].detached == old(c.nodes)[n].detached
                  && forall e :: e in c.nodes[n].upper <==> e in old(c.nodes)[n].upper && e in c.edges
    // the orphans lost all their parents
    ensures ret == 0
            ==> forall n :: n in orphans <==> n in c.nodes && old(c.nodes)[n].upper != [] && c.nodes[n].upper == []
  {
    hide Half, Went, NewOnes, IsNew, AllGood, CachedSince, EdgesKept, AllCached, EdgesOK, NodesOK, ListsOK;
    ghost var nodes0, edges0, rb0 := c.nodes, c.edges, c.rb;
    StartKeeps(c.nodes, c.edges, c.rb, c.leaves, c.detached, start);
    StartOfWalk(c.nodes, c.edges, c.rb, c.leaves, c.detached, start, checked, cowonly);
    var queue := c.nodes[start].upper;
    c.rb := c.rb + {start};
    c.leaves := c.leaves + [start];
    orphans := [];
    while queue != []
      invariant Midway(c, queue, start, orphans, nodes0, edges0)
      invariant CachedSince(nodes0, rb0, c.rb, checked, cowonly)
      decreases NewOnes(c.nodes, c.rb), |queue|
    {
      var bad;
      bad, queue, orphans := LinkNext(c, queue, start, orphans, checked, cowonly, nodes0, edges0, rb0);
      if bad {
        GoodIs(nodes0, rb0, checked, cowonly);
        return -EUCLEAN, orphans;
      }
    }
    GoodIs(nodes0, rb0, checked, cowonly);
    EndOfWalk(c.nodes, c.edges, c.rb, c.leaves, c.detached, start, nodes0, edges0, rb0, orphans, checked, cowonly);
    FinishedIs(nodes0, edges0, rb0, c.nodes, c.edges, c.rb, orphans);
    ret := 0;
  }

  lemma GoodIs(nodes: map<nat, Node>, rb: set<nat>, checked: set<nat>, cowonly: set<nat>)
    ensures AllGood(nodes, rb, checked, cowonly)
            <==> forall n :: n in nodes && n !in rb && !nodes[n].detached ==> n in checked && n !in cowonly
  {
    assert forall n :: IsNew(nodes, rb, n) <==> n in nodes && n !in rb && !nodes[n].detached;
  }

  /** What the walk did, in terms of the nodes and edges. */
  lemma FinishedIs(nodes0: map<nat, Node>, edges0: map<nat, Edge>, rb0: set<nat>, nodes: map<nat, Node>,
      edges: map<nat, Edge>, rb: set<nat>, orphans: seq<nat>)
    requires Went(nodes0, edges0, nodes, edges, orphans) && EdgesKept(nodes0, edges0, edges)
    requires rb == rb0 + NewOnes(nodes0, rb0)
    ensures forall n :: n in rb <==> n in rb0 || (n in nodes0 && !nodes0[n].detached)
    ensures forall e :: e in edges <==> e in edges0 && edges0[e].upper in nodes0 && !nodes0[edges0[e].upper].detached
    ensures forall e :: e in edges ==> edges[e] == edges0[e]
    ensures nodes.Keys == nodes0.Keys
    ensures forall n :: n in nodes ==>
              && nodes[n].level == nodes0[n].level && nodes[n].detached == nodes0[n].detached
              && forall e :: e in nodes[n].upper <==> e in nodes0[n].upper && e in edges
    ensures forall n :: n in orphans <==> n in nodes && nodes0[n].upper != [] && nodes[n].upper == []
  {
    forall n | n in nodes
      ensures nodes[n].level == nodes0[n].level && nodes[n].detached == nodes0[n].detached
              && forall e :: e in nodes[n].upper <==> e in nodes0[n].upper && e in edges
    {
      assert StillThere(nodes0[n], nodes[n], edges);
    }
  }

  lemma StartOfWalk(nodes: map<nat, Node>, edges: map<nat, Edge>, rb: set<nat>, leaves: seq<nat>, detached: seq<nat>,
      start: nat, checked: set<nat>, cowonly: set<nat>)
    requires Half(nodes, edges, rb, leaves, detached, [], start) && IsNew(nodes, rb, start)
             && Good(start, checked, cowonly)
    ensures Went(nodes, edges, nodes, edges, []) && CachedSince(nodes, rb, rb + {start}, checked, cowonly)
            && start in nodes
  {
    hide Went;
    WentNowhere(nodes, edges);
  }

  lemma EndOfWalk(nodes: map<nat, Node>, edges: map<nat, Edge>, rb: set<nat>, leaves: seq<nat>, detached: seq<nat>,
      start: nat, nodes0: map<nat, Node>, edges0: map<nat, Edge>, rb0: set<nat>, orphans: seq<nat>, checked: set<nat>,
        cowonly: set<nat>)
    requires Half(nodes, edges, rb, leaves, detached, [], start) && start in rb && rb <= nodes.Keys
    requires Went(nodes0, edges0, nodes, edges, orphans) && CachedSince(nodes0, rb0, rb, checked, cowonly)
    ensures AllCached(nodes, rb) && EdgesOK(nodes, edges) && NodesOK(nodes, edges) && ListsOK(nodes, leaves, detached)
    ensures AllGood(nodes0, rb0, checked, cowonly) && rb == rb0 + NewOnes(nodes0, rb0)
            && EdgesKept(nodes0, edges0, edges)
  {
    hide Half, EdgesOK, NodesOK, ListsOK, StillThere;
    HalfIsWhole(nodes, edges, rb, leaves, detached, start);
    forall n | n in nodes ensures nodes0[n].detached == nodes[n].detached && Cached(nodes, rb, n) {
      SameFlag(nodes0[n], nodes[n], edges);
    }
  }

  /** One turn of the loop. */
  method LinkNext(c: Cache, queue0: seq<nat>, start: nat, orphans0: seq<nat>, checked: set<nat>, cowonly: set<nat>,
      ghost nodes0: map<nat, Node>, ghost edges0: map<nat, Edge>, ghost rb0: set<nat>)
    returns (bad: bool, queue: seq<nat>, orphans: seq<nat>)
    requires queue0 != [] && Midway(c, queue0, start, orphans0, nodes0, edges0)
    requires CachedSince(nodes0, rb0, c.rb, checked, cowonly)
    modifies c`nodes, c`edges, c`leaves, c`rb, c`nrEdges
    ensures bad ==> !AllGood(nodes0, rb0, checked, cowonly)
    ensures !bad
            ==> Midway(c, queue, start, orphans, nodes0, edges0) && CachedSince(nodes0, rb0, c.rb, checked, cowonly)
    ensures !bad ==> NewOnes(c.nodes, c.rb) < old(NewOnes(c.nodes, c.rb))
                     || (NewOnes(c.nodes, c.rb) == old(NewOnes(c.nodes, c.rb)) && |queue| < |queue0|)
  {
    hide Half, Went, NewOnes, AllGood, CachedSince, Joined, Lowered, NextEdges, Without, Counts, NodesOK;
    var e := queue0[0];
    NextEdge(c.nodes, c.edges, c.rb, c.leaves, c.detached, queue0, start);
    var n, u := c.edges[e].lower, c.edges[e].upper;
    bad, queue, orphans := false, queue0[1..], orphans0;
    if c.nodes[u].detached {
      DropKeeps(c.nodes, c.edges, c.rb, c.leaves, c.detached, queue0, start, e, n, u);
      WentDrop(nodes0, edges0, c.nodes, c.edges, orphans, e, n, u);
      Unlink(c, e, n);
      if c.nodes[n].upper == [] {
        orphans := [n] + orphans;
      }
    } else if u in c.rb {
      JoinKeeps(c.nodes, c.edges, c.rb, c.leaves, c.detached, queue0, start, e, n, u, false);
      WentJoin(nodes0, edges0, c.nodes, c.edges, orphans, e, u, false);
      JoinCached(c, e, u);
      assert c.rb + {u} == c.rb;
    } else {
      NewSince(nodes0, edges0, c.nodes, c.edges, orphans, rb0, c.rb, u, checked, cowonly);
      if u !in checked || u in cowonly {
        return true, queue, orphans;
      }
      NewNotLowest(c.nodes, c.edges, c.rb, c.leaves, c.detached, queue0, start, u);
      JoinKeeps(c.nodes, c.edges, c.rb, c.leaves, c.detached, queue0, start, e, n, u, c.nodes[u].lowest);
      WentJoin(nodes0, edges0, c.nodes, c.edges, orphans, e, u, c.nodes[u].lowest);
      queue := JoinNew(c, e, u, queue0);
    }
  }

  /** What is known of the edge in front of the queue. */
  lemma NextEdge(nodes: map<nat, Node>, edges: map<nat, Edge>, rb: set<nat>, leaves: seq<nat>, detached: seq<nat>,
      queue: seq<nat>, start: nat)
    requires Half(nodes, edges, rb, leaves, detached, queue, start) && queue != []
    ensures NodesOK(nodes, edges) && queue[0] in edges
    ensures var edge := edges[queue[0]];
            && edge == Edge(edge.lower, edge.upper) && edge.lower in nodes && edge.upper in nodes
               && queue[0] in nodes[edge.lower].upper
            && ((edge.upper !in rb && !nodes[edge.upper].detached) || !nodes[edge.upper].lowest
               ==> Without(leaves, edge.upper) == leaves)
            && NextEdges(nodes, rb, queue, edge.upper) == if edge.upper in rb then queue[1..]
               else queue[1..] + nodes[edge.upper].upper
  {
    hide NodesOK, HalfEdges, QueueOK, Found;
    QueueFront(nodes, edges, rb, queue);
  }

  /** list_del and btrfs_backref_free_edge */
  method Unlink(c: Cache, e: nat, n: nat)
    requires Counts(c) && e in c.edges && n in c.nodes
    modifies c`nodes, c`edges, c`nrEdges
    ensures Counts(c) && n in c.nodes && c.nodes == Lowered(old(c.nodes), n, e) && c.edges == old(c.edges) - {e}
    ensures NewOnes(c.nodes, c.rb) == old(NewOnes(c.nodes, c.rb))
  {
    OneEdgeLess(c.edges, e);
    SameNodes(c.nodes, n, c.nodes[n].(upper := Without(c.nodes[n].upper, e)));
    c.nodes := c.nodes[n := c.nodes[n].(upper := Without(c.nodes[n].upper, e))];
    c.edges := c.edges - {e};
    c.nrEdges := c.nrEdges - 1;
  }

  lemma SameNewOnes(nodes: map<nat, Node>, rb: set<nat>, u: nat, node: Node)
    requires u in nodes && node.detached == nodes[u].detached
    ensures NewOnes(nodes[u := node], rb) == NewOnes(nodes, rb)
  {
  }

  /** The parent is in the cache already. */
  method JoinCached(c: Cache, e: nat, u: nat)
    requires Counts(c) && u in c.rb && (!c.nodes[u].lowest ==> Without(c.leaves, u) == c.leaves)
    modifies c`nodes, c`leaves
    ensures Counts(c) && c.nodes == Joined(old(c.nodes), u, e, false) && c.leaves == Without(old(c.leaves), u)
    ensures NewOnes(c.nodes, c.rb) == old(NewOnes(c.nodes, c.rb))
  {
    hide Without, NewOnes;
    SameNewOnes(c.nodes, c.rb, u, c.nodes[u].(lower := c.nodes[u].lower + [e], lowest := false));
    SameNodes(c.nodes, u, c.nodes[u].(lower := c.nodes[u].lower + [e], lowest := false));
    if c.nodes[u].lowest {
      c.leaves := Without(c.leaves, u);
      c.nodes := c.nodes[u := c.nodes[u].(lowest := false)];
    }
    c.nodes := c.nodes[u := c.nodes[u].(lower := c.nodes[u].lower + [e])];
  }

  /** The parent gets into the cache, and its own edges into the queue. */
  method JoinNew(c: Cache, e: nat, u: nat, queue0: seq<nat>) returns (queue: seq<nat>)
    requires Counts(c) && u in c.nodes && u !in c.rb && !c.nodes[u].detached && queue0 != []
    modifies c`nodes, c`rb
    ensures Counts(c) && c.nodes == Joined(old(c.nodes), u, e, old(c.nodes[u].lowest)) && c.rb == old(c.rb) + {u}
    ensures queue == queue0[1..] + old(c.nodes[u].upper) && NewOnes(c.nodes, c.rb) < old(NewOnes(c.nodes, c.rb))
  {
    ghost var before := NewOnes(c.nodes, c.rb);
    SameNodes(c.nodes, u, c.nodes[u].(lower := c.nodes[u].lower + [e]));
    c.rb := c.rb + {u};
    c.nodes := c.nodes[u := c.nodes[u].(lower := c.nodes[u].lower + [e])];
    queue := queue0[1..] + c.nodes[u].upper;
    assert u in before && u !in NewOnes(c.nodes, c.rb);
  }

  lemma NewSince(nodes0: map<nat, Node>, edges0: map<nat, Edge>, nodes: map<nat, Node>, edges: map<nat, Edge>,
      orphans: seq<nat>, rb0: set<nat>, rb: set<nat>, u: nat, checked: set<nat>, cowonly: set<nat>)
    requires Went(nodes0, edges0, nodes, edges, orphans) && CachedSince(nodes0, rb0, rb, checked, cowonly)
    requires u in nodes && u !in rb && !nodes[u].detached
    ensures if Good(u, checked, cowonly) then CachedSince(nodes0, rb0, rb + {u}, checked, cowonly)
            else !AllGood(nodes0, rb0, checked, cowonly)
  {
    hide StillThere;
    SameFlag(nodes0[u], nodes[u], edges);
    assert IsNew(nodes0, rb0, u);
  }
}
