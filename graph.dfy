/**
 * The undirected graph the mind map is built in: nodes are identified by
 * their label, a node may carry a `type` attribute, and an edge is an
 * unordered pair of labels. Re-adding a node keeps one node and overwrites
 * its attribute; re-adding an edge, in either direction, keeps one edge.
 */
module Graph {

  /** The three values the mind map writes into a node's `type` attribute. */
  datatype Kind = Central | Subtopic | Detail

  /**
   * An undirected edge is the set of its end points, so {u, v} == {v, u};
   * a self-loop {u, u} is the singleton {u}.
   */
  type Edge = set<string>

  /** A value view of a graph; `kind` holds the attribute of the nodes that carry one. */
  datatype Snapshot = Snapshot(nodes: set<string>, kind: map<string, Kind>, edges: set<Edge>)

  function Empty(): Snapshot
  {
    Snapshot({}, map[], {})
  }

  /** Every attribute belongs to a node and every edge joins two nodes. */
  ghost predicate WellFormed(g: Snapshot)
  {
    && g.kind.Keys <= g.nodes
    && forall e :: e in g.edges ==> e <= g.nodes
  }

  /** `add_node(n, type=k)`: adds `n` unless present and sets its attribute to `k`. */
  function WithNode(g: Snapshot, n: string, k: Kind): Snapshot
  {
    Snapshot(g.nodes + {n}, g.kind[n := k], g.edges)
  }

  /** `add_edge(u, v)`: adds the end points that are absent (without attribute) and the pair. */
  function WithEdge(g: Snapshot, u: string, v: string): Snapshot
  {
    Snapshot(g.nodes + {u, v}, g.kind, g.edges + {{u, v}})
  }

  /** One step of the mind-map build: add `child` with kind `k`, then the edge parent-child. */
  function Attach(g: Snapshot, parent: string, child: string, k: Kind): Snapshot
  {
    WithEdge(WithNode(g, child, k), parent, child)
  }

  /** A walk: a non-empty sequence of nodes, each consecutive two joined by an edge. */
  ghost predicate IsWalk(g: Snapshot, w: seq<string>)
  {
    && |w| > 0
    && (forall k :: 0 <= k < |w| ==> w[k] in g.nodes)
    && (forall k :: 0 <= k < |w| - 1 ==> {w[k], w[k + 1]} in g.edges)
  }

  /** Every node is reached by a walk that starts at `root`. */
  ghost predicate Connected(g: Snapshot, root: string)
  {
    && root in g.nodes
    && forall n :: n in g.nodes ==> exists w :: IsWalk(g, w) && w[0] == root && w[|w| - 1] == n
  }

  /**
   * A tree rooted at `root`: connected, no self-loops, and one edge fewer
   * than nodes (a connected graph with |V| - 1 edges has no cycle).
   */
  ghost predicate IsTree(g: Snapshot, root: string)
  {
    Connected(g, root) && TreeSized(g)
  }

  /** No self-loops and one edge fewer than nodes. */
  ghost predicate TreeSized(g: Snapshot)
  {
    && (forall e :: e in g.edges ==> |e| == 2)
    && |g.edges| + 1 == |g.nodes|
  }

  /** Edges are unordered: adding v-u is adding u-v. */
  lemma EdgeIsUnordered(g: Snapshot, u: string, v: string)
    ensures WithEdge(g, v, u) == WithEdge(g, u, v)
  {
    assert {v, u} == {u, v};
  }

  /** Adding an edge that is present, in either direction, changes nothing. */
  lemma EdgeAddedOnce(g: Snapshot, u: string, v: string)
    ensures WithEdge(WithEdge(g, u, v), v, u) == WithEdge(g, u, v)
  {
    assert {v, u} == {u, v};
  }

  /** Re-adding a node keeps one node and the later attribute wins. */
  lemma NodeLastWriteWins(g: Snapshot, n: string, k1: Kind, k2: Kind)
    ensures WithNode(WithNode(g, n, k1), n, k2) == WithNode(g, n, k2)
    ensures |WithNode(WithNode(g, n, k1), n, k2).nodes| == |g.nodes + {n}|
  {
  }

  /** A walk stays a walk when nodes and edges are only added. */
  lemma WalkSurvivesGrowth(g: Snapshot, h: Snapshot, w: seq<string>)
    requires IsWalk(g, w)
    requires g.nodes <= h.nodes && g.edges <= h.edges
    ensures IsWalk(h, w)
  {
  }

  /**
   * Attaching a child to a node that is reachable keeps the graph connected,
   * whether or not the child was already there.
   */
  lemma AttachKeepsConnected(g: Snapshot, root: string, p: string, v: string, k: Kind)
    requires Connected(g, root)
    requires p in g.nodes
    ensures Connected(Attach(g, p, v, k), root)
  {
    var h := Attach(g, p, v, k);
    forall n | n in h.nodes
      ensures exists w :: IsWalk(h, w) && w[0] == root && w[|w| - 1] == n
    {
      if n in g.nodes {
        var w :| IsWalk(g, w) && w[0] == root && w[|w| - 1] == n;
        WalkSurvivesGrowth(g, h, w);
      } else {
        assert n == v;
        var w :| IsWalk(g, w) && w[0] == root && w[|w| - 1] == p;
        WalkSurvivesGrowth(g, h, w);
        var w' := w + [v];
        assert {w'[|w| - 1], w'[|w|]} == {p, v};
        assert IsWalk(h, w');
      }
    }
  }

  /** Attaching a fresh child to a node adds exactly one node and one proper edge. */
  lemma AttachFreshSize(g: Snapshot, p: string, v: string, k: Kind)
    requires WellFormed(g) && TreeSized(g)
    requires p in g.nodes && v !in g.nodes
    ensures WellFormed(Attach(g, p, v, k)) && TreeSized(Attach(g, p, v, k))
    ensures |Attach(g, p, v, k).nodes| == |g.nodes| + 1
  {
    var h := Attach(g, p, v, k);
    assert h.nodes == g.nodes + {v};
    assert v in {p, v} && !({p, v} <= g.nodes);
    assert {p, v} !in g.edges;
    assert h.edges == g.edges + {{p, v}};
    assert |{p, v}| == 2 by {
      assert p != v;
      assert {p, v} == {p} + {v};
    }
  }

  /** Attaching a fresh child to a tree node gives a tree with one more node and edge. */
  lemma AttachKeepsTree(g: Snapshot, root: string, p: string, v: string, k: Kind)
    requires IsTree(g, root) && WellFormed(g)
    requires p in g.nodes && v !in g.nodes
    ensures IsTree(Attach(g, p, v, k), root) && WellFormed(Attach(g, p, v, k))
    ensures |Attach(g, p, v, k).nodes| == |g.nodes| + 1
  {
    AttachKeepsConnected(g, root, p, v, k);
    AttachFreshSize(g, p, v, k);
  }

  /**
   * The graph object the mind map is built in. Its methods change the
   * fields in place as `add_node` and `add_edge` do.
   */
  class UndirectedGraph {
    var nodes: set<string>
    var kind: map<string, Kind>
    var edges: set<Edge>

    /** The current contents as a value. */
    function View(): Snapshot
      reads this
    {
      Snapshot(nodes, kind, edges)
    }

    constructor ()
      ensures View() == Empty()
    {
      nodes, kind, edges := {}, map[], {};
    }

    /** `add_node(n, type=k)`: one node per label; the attribute is overwritten. */
    method AddNode(n: string, k: Kind)
      modifies this
      ensures nodes == old(nodes) + {n}
      ensures kind == old(kind)[n := k]
      ensures edges == old(edges)
      ensures View() == WithNode(old(View()), n, k)
    {
      nodes := nodes + {n};
      kind := kind[n := k];
    }

    /** `add_edge(u, v)`: absent end points become nodes without attribute; one edge per pair. */
    method AddEdge(u: string, v: string)
      modifies this
      ensures nodes == old(nodes) + {u, v}
      ensures kind == old(kind)
      ensures edges == old(edges) + {{u, v}}
      ensures View() == WithEdge(old(View()), u, v)
    {
      nodes := nodes + {u, v};
      edges := edges + {{u, v}};
    }
  }
}
