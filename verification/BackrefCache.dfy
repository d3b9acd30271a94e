/** The cache of tree blocks and their parents: taking it down leaves nothing behind. */
module BackrefCache {

  datatype Node = Node(level: nat, upper: seq<nat>, lower: seq<nat>, lowest: bool, detached: bool)

  /** A child and one of its parents. */
  datatype Edge = Edge(lower: nat, upper: nat)

  ghost predicate Distinct(s: seq<nat>) {
    forall i, j :: 0 <= i < j < |s| ==> s[i] != s[j]
  }

  function Without(s: seq<nat>, x: nat): (r: seq<nat>)
    ensures x in s ==> |r| < |s|
    ensures x !in s ==> r == s
  {
    if s == [] then [] else if s[0] == x then Without(s[1..], x) else [s[0]] + Without(s[1..], x)
  }

  lemma {:induction false} WithoutMembers(s: seq<nat>, x: nat, y: nat)
    ensures y in Without(s, x) <==> y in s && y != x
  {
    if s != [] {
      WithoutMembers(s[1..], x, y);
      assert s == [s[0]] + s[1..];
    }
  }

  lemma {:induction false} WithoutDistinct(s: seq<nat>, x: nat)
    requires Distinct(s)
    ensures Distinct(Without(s, x))
  {
    if s != [] {
      WithoutDistinct(s[1..], x);
      WithoutMembers(s[1..], x, s[0]);
      forall y | y in Without(s[1..], x) ensures y != s[0] {
        WithoutMembers(s[1..], x, y);
      }
    }
  }

  // ----- the shape of the cache -----

  /** Edges go up one level and are on the lists of both their nodes. */
  ghost predicate EdgesOK(nodes: map<nat, Node>, edges: map<nat, Edge>) {
    forall e :: e in edges ==> EdgeOK(nodes, edges[e], e)
  }

  predicate EdgeOK(nodes: map<nat, Node>, edge: Edge, e: nat) {
    && edge.lower in nodes && edge.upper in nodes && nodes[edge.upper].level == nodes[edge.lower].level + 1
    && e in nodes[edge.lower].upper && e in nodes[edge.upper].lower
  }

  /** The lists of a node hold its own edges. */
  ghost predicate NodesOK(nodes: map<nat, Node>, edges: map<nat, Edge>) {
    forall n :: n in nodes ==> NodeOK(nodes[n], edges, n)
  }

  ghost predicate NodeOK(node: Node, edges: map<nat, Edge>, n: nat) {
    && Distinct(node.upper) && Distinct(node.lower)
    && (forall e :: e in node.upper ==> e in edges && edges[e].lower == n)
    && (forall e :: e in node.lower ==> e in edges && edges[e].upper == n)
  }

  /** Nodes without children are on one of two lists, and only they are. */
  ghost predicate ListsOK(nodes: map<nat, Node>, leaves: seq<nat>, detached: seq<nat>) {
    && Distinct(leaves) && Distinct(detached)
    && (forall n :: n in leaves ==> n in nodes && nodes[n].lowest && nodes[n].lower == [])
    && (forall n :: n in detached ==> n in nodes && nodes[n].detached && nodes[n].lower == [] && n !in leaves)
    && (forall n :: n in nodes ==> n in leaves || n in detached || nodes[n].lower != [])
    && (forall n :: n in nodes && nodes[n].detached ==> n in detached)
    && (forall n :: n in nodes && nodes[n].lowest && !nodes[n].detached ==> n in leaves)
  }

  // ----- removing one edge -----

  /** The nodes once the first upper edge e of n, to the parent u, is off both lists. */
  function Popped(nodes: map<nat, Node>, n: nat, e: nat, u: nat): map<nat, Node>
    requires n in nodes && u in nodes && nodes[n].upper != []
  {
    var lower := Without(nodes[u].lower, e);
    nodes[n := nodes[n].(upper := nodes[n].upper[1..])][u := nodes[u].(lower := lower, lowest := nodes[u].lowest
      || lower == [])]
  }

  function Dropped(nodes: map<nat, Node>, n: nat): (r: map<nat, Node>)
    ensures r.Keys == nodes.Keys - {n}
  {
    nodes - {n}
  }

  ghost predicate FirstEdge(nodes: map<nat, Node>, edges: map<nat, Edge>, n: nat, e: nat, u: nat) {
    n in nodes && nodes[n].upper != [] && e == nodes[n].upper[0] && e in edges && edges[e] == Edge(n, u)
      && EdgeOK(nodes, edges[e], e)
  }

  lemma FirstEdgeIs(nodes: map<nat, Node>, edges: map<nat, Edge>, n: nat)
    requires EdgesOK(nodes, edges) && NodesOK(nodes, edges) && n in nodes && nodes[n].upper != []
    ensures var e := nodes[n].upper[0];
            e in edges && edges[e].lower == n && FirstEdge(nodes, edges, n, e, edges[e].upper)
  {
    assert NodeOK(nodes[n], edges, n);
    assert nodes[n].upper[0] in nodes[n].upper;
  }

  lemma PopKeepsEdges(nodes: map<nat, Node>, edges: map<nat, Edge>, n: nat, e: nat, u: nat)
    requires EdgesOK(nodes, edges) && NodesOK(nodes, edges) && FirstEdge(nodes, edges, n, e, u)
    ensures EdgesOK(Popped(nodes, n, e, u), edges - {e})
  {
    hide NodesOK;
    var after := Popped(nodes, n, e, u);
    forall f | f in edges - {e} ensures EdgeOK(after, (edges - {e})[f], f) {
      assert EdgeOK(nodes, edges[f], f);
      WithoutMembers(nodes[u].lower, e, f);
      assert nodes[n].upper == [e] + nodes[n].upper[1..];
    }
  }

  lemma PopKeepsNodes(nodes: map<nat, Node>, edges: map<nat, Edge>, n: nat, e: nat, u: nat)
    requires NodesOK(nodes, edges) && FirstEdge(nodes, edges, n, e, u)
    ensures NodesOK(Popped(nodes, n, e, u), edges - {e})
  {
    var after, rest := Popped(nodes, n, e, u), edges - {e};
    forall m | m in after ensures NodeOK(after[m], rest, m) {
      assert NodeOK(nodes[m], edges, m);
      if m == u {
        WithoutDistinct(nodes[u].lower, e);
        forall f | f in after[u].lower ensures f in nodes[u].lower && f != e {
          WithoutMembers(nodes[u].lower, e, f);
        }
      } else if m == n {
        assert nodes[n].upper == [e] + nodes[n].upper[1..];
      }
    }
  }

  lemma PopKeepsLists(nodes: map<nat, Node>, edges: map<nat, Edge>, n: nat, e: nat, u: nat, leaves: seq<nat>,
      detached: seq<nat>)
    requires FirstEdge(nodes, edges, n, e, u) && ListsOK(nodes, leaves, detached)
    ensures var after := Popped(nodes, n, e, u);
            ListsOK(after, if after[u].lower == [] then leaves + [u] else leaves, detached)
  {
    assert e in nodes[u].lower;
    assert u !in leaves && u !in detached;
  }

  predicate SameParents(was: Node, now: Node) {
    now.level == was.level && now.upper == was.upper && now.detached == was.detached
  }

  lemma NoUpperEdge(nodes: map<nat, Node>, edges: map<nat, Edge>, n: nat)
    requires EdgesOK(nodes, edges) && n in nodes && nodes[n].upper == []
    ensures forall e :: e in edges ==> edges[e].lower != n
  {
    forall e | e in edges ensures edges[e].lower != n {
      assert EdgeOK(nodes, edges[e], e);
    }
  }

  /** The other lists hold nodes of the cache, and the counters count. */
  predicate Tallies(nodes: map<nat, Node>, edges: map<nat, Edge>, pending: set<nat>, changed: set<nat>, rb: set<nat>,
      nrNodes: int, nrEdges: int) {
    && pending <= nodes.Keys && changed <= nodes.Keys && rb <= nodes.Keys
    && nrNodes == |nodes| && nrEdges == |edges|
  }

  ghost predicate Shape(nodes: map<nat, Node>, edges: map<nat, Edge>, leaves: seq<nat>, detached: seq<nat>,
      pending: set<nat>, changed: set<nat>, rb: set<nat>, nrNodes: int, nrEdges: int) {
    && EdgesOK(nodes, edges) && NodesOK(nodes, edges) && ListsOK(nodes, leaves, detached)
    && Tallies(nodes, edges, pending, changed, rb, nrNodes, nrEdges)
  }

  lemma DropShape(nodes: map<nat, Node>, edges: map<nat, Edge>, leaves: seq<nat>, detached: seq<nat>,
      pending: set<nat>, changed: set<nat>, rb: set<nat>, nrNodes: int, nrEdges: int, n: nat)
    requires Shape(nodes, edges, leaves, detached, pending, changed, rb, nrNodes, nrEdges)
    requires n in nodes && nodes[n].upper == [] && nodes[n].lower == []
    ensures Shape(Dropped(nodes, n), edges, Without(leaves, n), Without(detached, n), pending - {n}, changed - {n},
            rb - {n}, nrNodes - 1, nrEdges)
  {
    hide EdgesOK, NodesOK, ListsOK, Tallies, Dropped, Without;
    DropKeepsGraph(nodes, edges, n);
    DropKeepsLists(nodes, n, leaves, detached);
    DropTallies(nodes, edges, pending, changed, rb, nrNodes, nrEdges, n);
  }

  lemma DropTallies(nodes: map<nat, Node>, edges: map<nat, Edge>, pending: set<nat>, changed: set<nat>, rb: set<nat>,
      nrNodes: int, nrEdges: int, n: nat)
    requires Tallies(nodes, edges, pending, changed, rb, nrNodes, nrEdges) && n in nodes
    ensures Tallies(Dropped(nodes, n), edges, pending - {n}, changed - {n}, rb - {n}, nrNodes - 1, nrEdges)
  {
    OneNodeLess(nodes, n);
  }

  lemma PopTallies(nodes: map<nat, Node>, edges: map<nat, Edge>, pending: set<nat>, changed: set<nat>, rb: set<nat>,
      nrNodes: int, nrEdges: int, n: nat, e: nat, u: nat)
    requires Tallies(nodes, edges, pending, changed, rb, nrNodes, nrEdges)
    requires n in nodes && u in nodes && n != u && nodes[n].upper != [] && e in edges
    ensures Tallies(Popped(nodes, n, e, u), edges - {e}, pending, changed, rb, nrNodes, nrEdges - 1)
  {
    hide Popped;
    PoppedFacts(nodes, n, e, u);
    OneEdgeLess(edges, e);
  }

  /** struct btrfs_backref_cache; pending stands for the lists of all levels, and rb for
      the nodes in the tree of block numbers. */
  class Cache {
    var nodes: map<nat, Node>
    var edges: map<nat, Edge>
    var leaves: seq<nat>
    var detached: seq<nat>
    var pending: set<nat>
    var changed: set<nat>
    var rb: set<nat>
    var nrNodes: int
    var nrEdges: int

    ghost predicate Valid()
      reads this
    {
      Shape(nodes, edges, leaves, detached, pending, changed, rb, nrNodes, nrEdges)
    }

    constructor ()
      ensures Valid() && nodes == map[]
    {
      nodes, edges, leaves, detached := map[], map[], [], [];
      pending, changed, rb, nrNodes, nrEdges := {}, {}, {}, 0, 0;
    }

    /** One turn of the loop in btrfs_backref_cleanup_node: the first upper edge goes, and
        a parent that has no child left becomes a leaf. */
    method PopEdge(n: nat)
      requires Valid() && n in nodes && nodes[n].upper != [] && nodes[n].lower == []
      modifies this`nodes, this`edges, this`leaves, this`nrEdges
      ensures Valid() && nodes.Keys == old(nodes.Keys)
      ensures nodes[n] == old(nodes[n]).(upper := old(nodes[n]).upper[1..])
      ensures var e := old(nodes[n].upper[0]);
              && e in old(edges) && old(edges)[e].lower == n && edges == old(edges) - {e}
              && var u := old(edges)[e].upper;
                 && u != n && u in nodes && SameParents(old(nodes)[u], nodes[u])
                 && nodes[u].lower == Without(old(nodes)[u].lower, e)
                 && (nodes[u].lowest <==> old(nodes)[u].lowest || nodes[u].lower == [])
                 && leaves == (if nodes[u].lower == [] then old(leaves) + [u] else old(leaves))
                 && forall m :: m in nodes && m != n && m != u ==> nodes[m] == old(nodes)[m]
    {
      hide EdgesOK, NodesOK, ListsOK, FirstEdge, EdgeOK, Without, Popped, SameParents, Tallies;
      FirstEdgeIs(nodes, edges, n);
      ghost var before := nodes;
      var e := nodes[n].upper[0];
      var upper := edges[e].upper;
      ParentIsOther(nodes, edges, n, e, upper);
      PoppedFacts(nodes, n, e, upper);
      PopKeepsEdges(nodes, edges, n, e, upper);
      PopKeepsNodes(nodes, edges, n, e, upper);
      PopKeepsLists(nodes, edges, n, e, upper, leaves, detached);
      PopTallies(nodes, edges, pending, changed, rb, nrNodes, nrEdges, n, e, upper);
      nodes := nodes[n := nodes[n].(upper := nodes[n].upper[1..])];
      nodes := nodes[upper := nodes[upper].(lower := Without(nodes[upper].lower, e))];
      edges := edges - {e};
      nrEdges := nrEdges - 1;
      if nodes[upper].lower == [] {
        leaves := leaves + [upper];
        nodes := nodes[upper := nodes[upper].(lowest := true)];
      }
      PoppedIs(before, nodes, n, e, upper);
    }

    /** btrfs_backref_drop_node, on a node that has no edges left. */
    method DropNode(n: nat)
      requires Valid() && n in nodes && nodes[n].upper == [] && nodes[n].lower == []
      modifies this`nodes, this`leaves, this`detached, this`pending, this`changed, this`rb, this`nrNodes
      ensures Valid() && nodes == old(nodes) - {n}
      ensures leaves == Without(old(leaves), n) && detached == Without(old(detached), n)
      ensures rb == old(rb) - {n} && pending == old(pending) - {n} && changed == old(changed) - {n}
    {
      hide Shape, Without;
      DropShape(nodes, edges, leaves, detached, pending, changed, rb, nrNodes, nrEdges, n);
      detached := Without(detached, n);    // list_del_init(&node->list)
      pending, changed := pending - {n}, changed - {n};
      leaves := Without(leaves, n);        // list_del_init(&node->lower)
      rb := rb - {n};
      nrNodes := nrNodes - 1;
      nodes := Dropped(nodes, n);
    }

    /** btrfs_backref_cleanup_node: the node goes with its edges to parents, and nothing
        else does. */
    method CleanupNode(n: nat)
      requires Valid() && n in nodes && nodes[n].lower == [] && (nodes[n].lowest || nodes[n].detached)
      modifies this
      ensures Valid() && nodes.Keys == old(nodes.Keys) - {n} && detached == Without(old(detached), n)
      ensures forall e :: e in edges <==> e in old(edges) && old(edges)[e].lower != n
      ensures forall e :: e in edges ==> edges[e] == old(edges)[e]
      ensures forall m :: m in nodes ==> SameParents(old(nodes)[m], nodes[m])
      ensures rb == old(rb) - {n} && pending == old(pending) - {n} && changed == old(changed) - {n}
    {
      hide EdgesOK, NodesOK, ListsOK, Without;
      while nodes[n].upper != []
        invariant Valid() && n in nodes && nodes.Keys == old(nodes.Keys) && nodes[n].lower == []
                  && detached == old(detached)
        invariant forall e :: e in edges ==> e in old(edges) && edges[e] == old(edges)[e]
        invariant forall e :: e in old(edges) && e !in edges ==> old(edges)[e].lower == n
        invariant forall m :: m in nodes && m != n ==> SameParents(old(nodes)[m], nodes[m])
        invariant rb == old(rb) && pending == old(pending) && changed == old(changed)
        decreases |nodes[n].upper|
      {
        PopEdge(n);
      }
      NoUpperEdge(nodes, edges, n);
      DropNode(n);
    }

    /** btrfs_backref_alloc_node, put into the cache as its lowest block. */
    method AddLeaf(n: nat, level: nat)
      requires Valid() && n !in nodes
      modifies this`nodes, this`leaves, this`rb, this`nrNodes
      ensures Valid() && nodes == old(nodes)[n := Node(level, [], [], true, false)] && leaves == old(leaves) + [n]
              && rb == old(rb) + {n}
    {
      hide EdgesOK, NodesOK, ListsOK;
      AddKeepsGraph(nodes, edges, n, level);
      AddKeepsLists(nodes, n, level, leaves, detached);
      OneNodeMore(nodes, n, Node(level, [], [], true, false));
      nodes := nodes[n := Node(level, [], [], true, false)];
      leaves := leaves + [n];
      rb := rb + {n};
      nrNodes := nrNodes + 1;
    }

    /** btrfs_backref_link_edge and the cached case of btrfs_backref_finish_upper_links: a
        parent that was a leaf stops being one. */
    method LinkEdge(e: nat, n: nat, upper: nat)
      requires Valid() && n in nodes && upper in nodes && e !in edges
      requires nodes[upper].level == nodes[n].level + 1 && upper !in detached
      modifies this`nodes, this`edges, this`leaves, this`nrEdges
      ensures Valid() && edges == old(edges)[e := Edge(n, upper)] && leaves == Without(old(leaves), upper)
      ensures nodes.Keys == old(nodes).Keys
      ensures forall m :: m in nodes && m != n && m != upper ==> nodes[m] == old(nodes)[m]
      ensures n != upper && nodes[n] == old(nodes)[n].(upper := old(nodes)[n].upper + [e])
      ensures nodes[upper] == old(nodes)[upper].(lower := old(nodes)[upper].lower + [e], lowest := false)
    {
      hide EdgesOK, NodesOK, ListsOK;
      LinkKeepsEdges(nodes, edges, n, e, upper);
      LinkKeepsNodes(nodes, edges, n, e, upper);
      LinkKeepsLists(nodes, n, e, upper, leaves, detached);
      LinkedFacts(nodes, n, e, upper);
      edges := edges[e := Edge(n, upper)];
      nrEdges := nrEdges + 1;
      NotALeaf(nodes, leaves, detached, upper);
      if nodes[upper].lowest {
        leaves := Without(leaves, upper);
      }
      nodes := Linked(nodes, n, e, upper);
    }

    /** btrfs_backref_release_cache: nothing is left, and all the counts are zero. */
    method ReleaseCache()
      requires Valid()
      modifies this
      ensures Valid() && nodes == map[] && edges == map[] && rb == {} && nrNodes == 0 && nrEdges == 0
      ensures leaves == [] && detached == [] && pending == {} && changed == {}
    {
      hide EdgesOK, NodesOK, ListsOK, Without;
      while detached != []
        invariant Valid()
        decreases nodes.Keys
      {
        OnDetached(nodes, leaves, detached);
        CleanupNode(detached[0]);
      }
      while leaves != []
        invariant Valid() && detached == []
        decreases nodes.Keys
      {
        OnLeaves(nodes, leaves, detached);
        CleanupNode(leaves[0]);
      }
      NothingLeft(nodes, edges);
    }
  }

  lemma PoppedFacts(nodes: map<nat, Node>, n: nat, e: nat, u: nat)
    requires n in nodes && u in nodes && n != u && nodes[n].upper != []
    ensures var after := Popped(nodes, n, e, u);
            && after.Keys == nodes.Keys && |after| == |nodes| && after[u].lower == Without(nodes[u].lower, e)
            && SameParents(nodes[u], after[u]) && (after[u].lowest <==> nodes[u].lowest || after[u].lower == [])
            && (forall m :: m in nodes && m != n && m != u ==> after[m] == nodes[m])
            && after[n] == nodes[n].(upper := nodes[n].upper[1..])
            && forall m :: m in nodes && m != n ==> SameParents(nodes[m], after[m])
  {
    var after := Popped(nodes, n, e, u);
    assert after.Keys == nodes.Keys;
    assert |after.Keys| == |after| && |nodes.Keys| == |nodes|;
  }

  lemma PoppedIs(before: map<nat, Node>, after: map<nat, Node>, n: nat, e: nat, u: nat)
    requires n in before && u in before && n != u && before[n].upper != []
    requires var lower := Without(before[u].lower, e);
             var once := before[n := before[n].(upper := before[n].upper[1..])][u := before[u].(lower := lower)];
             after == if lower == [] then once[u := once[u].(lowest := true)] else once
    ensures after == Popped(before, n, e, u)
  {
  }

  lemma ParentIsOther(nodes: map<nat, Node>, edges: map<nat, Edge>, n: nat, e: nat, u: nat)
    requires FirstEdge(nodes, edges, n, e, u)
    ensures n != u && u in nodes && e in edges
  {
  }

  lemma OneEdgeLess(edges: map<nat, Edge>, e: nat)
    requires e in edges
    ensures |edges - {e}| == |edges| - 1 && (edges - {e}).Keys < edges.Keys
  {
    assert (edges - {e}).Keys == edges.Keys - {e};
    assert |edges.Keys| == |edges| && |(edges - {e}).Keys| == |edges - {e}|;
    assert e !in (edges - {e}).Keys;
  }

  lemma OneNodeLess(nodes: map<nat, Node>, n: nat)
    requires n in nodes
    ensures |Dropped(nodes, n)| == |nodes| - 1 && Dropped(nodes, n).Keys == nodes.Keys - {n}
  {
    assert |nodes.Keys| == |nodes| && |Dropped(nodes, n).Keys| == |Dropped(nodes, n)|;
  }

  lemma DropKeepsGraph(nodes: map<nat, Node>, edges: map<nat, Edge>, n: nat)
    requires EdgesOK(nodes, edges) && NodesOK(nodes, edges) && n in nodes && nodes[n].upper == []
             && nodes[n].lower == []
    ensures EdgesOK(Dropped(nodes, n), edges) && NodesOK(Dropped(nodes, n), edges)
  {
    forall e | e in edges ensures EdgeOK(Dropped(nodes, n), edges[e], e) {
      assert EdgeOK(nodes, edges[e], e);
    }
    forall m | m in Dropped(nodes, n) ensures NodeOK(Dropped(nodes, n)[m], edges, m) {
      assert NodeOK(nodes[m], edges, m);
    }
  }

  lemma DropKeepsLists(nodes: map<nat, Node>, n: nat, leaves: seq<nat>, detached: seq<nat>)
    requires ListsOK(nodes, leaves, detached) && n in nodes
    ensures ListsOK(Dropped(nodes, n), Without(leaves, n), Without(detached, n))
  {
    WithoutDistinct(leaves, n);
    WithoutDistinct(detached, n);
    forall m: nat ensures (m in Without(leaves, n) <==> m in leaves && m != n)
        && (m in Without(detached, n) <==> m in detached && m != n) {
      WithoutMembers(leaves, n, m);
      WithoutMembers(detached, n, m);
    }
  }

  lemma OnDetached(nodes: map<nat, Node>, leaves: seq<nat>, detached: seq<nat>)
    requires ListsOK(nodes, leaves, detached) && detached != []
    ensures detached[0] in nodes && nodes[detached[0]].lower == [] && nodes[detached[0]].detached
  {
  }

  lemma OnLeaves(nodes: map<nat, Node>, leaves: seq<nat>, detached: seq<nat>)
    requires ListsOK(nodes, leaves, detached) && leaves != []
    ensures leaves[0] in nodes && nodes[leaves[0]].lower == [] && nodes[leaves[0]].lowest
  {
  }

  /** From a node that has a child edge, edges lead down for ever; so there is none. */
  lemma {:induction false} NoNodeAt(nodes: map<nat, Node>, edges: map<nat, Edge>, n: nat, level: nat)
    requires EdgesOK(nodes, edges) && NodesOK(nodes, edges) && ListsOK(nodes, [], [])
    ensures n in nodes ==> nodes[n].level != level
    decreases level
  {
    if n in nodes && nodes[n].level == level {
      assert nodes[n].lower != [];
      var e := nodes[n].lower[0];
      assert NodeOK(nodes[n], edges, n) && e in nodes[n].lower;
      assert EdgeOK(nodes, edges[e], e);
      NoNodeAt(nodes, edges, edges[e].lower, level - 1);
    }
  }

  lemma NothingLeft(nodes: map<nat, Node>, edges: map<nat, Edge>)
    requires EdgesOK(nodes, edges) && NodesOK(nodes, edges) && ListsOK(nodes, [], [])
    ensures nodes == map[] && edges == map[] && nodes.Keys == {}
  {
    forall n ensures n !in nodes {
      if n in nodes {
        NoNodeAt(nodes, edges, n, nodes[n].level);
      }
    }
    forall e ensures e !in edges {
      if e in edges {
        EdgeHasEnds(nodes, edges, e);
      }
    }
  }

  lemma EdgeHasEnds(nodes: map<nat, Node>, edges: map<nat, Edge>, e: nat)
    requires EdgesOK(nodes, edges) && e in edges
    ensures edges[e].lower in nodes
  {
    assert EdgeOK(nodes, edges[e], e);
  }

  // ----- adding one edge -----

  /** The nodes once edge e from n to its cached parent u is on both lists. */
  function Linked(nodes: map<nat, Node>, n: nat, e: nat, u: nat): map<nat, Node>
    requires n in nodes && u in nodes
  {
    nodes[n := nodes[n].(upper := nodes[n].upper + [e])][u := nodes[u].(lower := nodes[u].lower + [e], lowest := false)]
  }

  lemma LinkedFacts(nodes: map<nat, Node>, n: nat, e: nat, u: nat)
    requires n in nodes && u in nodes
    ensures Linked(nodes, n, e, u).Keys == nodes.Keys && |Linked(nodes, n, e, u)| == |nodes|
  {
    var after := Linked(nodes, n, e, u);
    assert after.Keys == nodes.Keys;
    assert |after.Keys| == |after| && |nodes.Keys| == |nodes|;
  }

  lemma NotALeaf(nodes: map<nat, Node>, leaves: seq<nat>, detached: seq<nat>, u: nat)
    requires ListsOK(nodes, leaves, detached) && u in nodes
    ensures !nodes[u].lowest ==> Without(leaves, u) == leaves
  {
  }

  lemma AddKeepsGraph(nodes: map<nat, Node>, edges: map<nat, Edge>, n: nat, level: nat)
    requires EdgesOK(nodes, edges) && NodesOK(nodes, edges) && n !in nodes
    ensures var after := nodes[n := Node(level, [], [], true, false)]; EdgesOK(after, edges) && NodesOK(after, edges)
  {
    var after := nodes[n := Node(level, [], [], true, false)];
    forall e | e in edges ensures EdgeOK(after, edges[e], e) {
      assert EdgeOK(nodes, edges[e], e);
    }
    forall m | m in after ensures NodeOK(after[m], edges, m) {
      if m != n {
        assert NodeOK(nodes[m], edges, m);
      }
    }
  }

  lemma AddKeepsLists(nodes: map<nat, Node>, n: nat, level: nat, leaves: seq<nat>, detached: seq<nat>)
    requires ListsOK(nodes, leaves, detached) && n !in nodes
    ensures ListsOK(nodes[n := Node(level, [], [], true, false)], leaves + [n], detached)
  {
    assert n !in leaves && n !in detached;
  }

  lemma OneNodeMore(nodes: map<nat, Node>, n: nat, node: Node)
    requires n !in nodes
    ensures |nodes[n := node]| == |nodes| + 1
  {
    assert nodes[n := node].Keys == nodes.Keys + {n};
    assert |nodes.Keys| == |nodes| && |nodes[n := node].Keys| == |nodes[n := node]|;
  }

  lemma LinkKeepsEdges(nodes: map<nat, Node>, edges: map<nat, Edge>, n: nat, e: nat, u: nat)
    requires EdgesOK(nodes, edges) && n in nodes && u in nodes && nodes[u].level == nodes[n].level + 1
    ensures EdgesOK(Linked(nodes, n, e, u), edges[e := Edge(n, u)])
  {
    var after, more := Linked(nodes, n, e, u), edges[e := Edge(n, u)];
    forall f | f in more ensures EdgeOK(after, more[f], f) {
      if f != e {
        assert EdgeOK(nodes, edges[f], f);
      }
    }
  }

  lemma LinkKeepsNodes(nodes: map<nat, Node>, edges: map<nat, Edge>, n: nat, e: nat, u: nat)
    requires NodesOK(nodes, edges) && n in nodes && u in nodes && e !in edges && n != u
    ensures NodesOK(Linked(nodes, n, e, u), edges[e := Edge(n, u)])
  {
    var after, more := Linked(nodes, n, e, u), edges[e := Edge(n, u)];
    forall m | m in after ensures NodeOK(after[m], more, m) {
      assert NodeOK(nodes[m], edges, m);
    }
  }

  lemma LinkKeepsLists(nodes: map<nat, Node>, n: nat, e: nat, u: nat, leaves: seq<nat>, detached: seq<nat>)
    requires ListsOK(nodes, leaves, detached) && n in nodes && u in nodes && u != n && u !in detached
    ensures ListsOK(Linked(nodes, n, e, u), Without(leaves, u), detached)
  {
    WithoutDistinct(leaves, u);
    forall m: nat ensures m in Without(leaves, u) <==> m in leaves && m != u {
      WithoutMembers(leaves, u, m);
    }
  }
}
