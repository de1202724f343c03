/**
 * `create_mind_map`: the central topic becomes a node of kind Central; each
 * subtopic, in the dictionary's iteration order, becomes a node of kind
 * Subtopic joined to the central topic; each of its details becomes a node
 * of kind Detail joined to the subtopic. Nodes are identified by label.
 */
module Builder {
  import opened Graph

  /** The subtopic dictionary in iteration (insertion) order: a label and its details. */
  type Subtopics = seq<(string, seq<string>)>

  // ---------------------------------------------------------------------
  // Reference definition of the build, one `add_node`/`add_edge` pair at a time
  // ---------------------------------------------------------------------

  /** The inner loop over the details of subtopic `s`; it only ever adds. */
  function AddDetails(g: Snapshot, s: string, ds: seq<string>): (r: Snapshot)
    ensures g.nodes <= r.nodes && g.edges <= r.edges && g.kind.Keys <= r.kind.Keys
    decreases |ds|
  {
    if ds == [] then g
    else Attach(AddDetails(g, s, ds[..|ds| - 1]), s, ds[|ds| - 1], Detail)
  }

  /** The graph `create_mind_map(c, subs)` returns; the central topic is always one of its nodes. */
  function Build(c: string, subs: Subtopics): (g: Snapshot)
    ensures c in g.nodes && c in g.kind
    decreases |subs|
  {
    if subs == [] then WithNode(Empty(), c, Central)
    else
      var s := subs[|subs| - 1].0;
      AddDetails(Attach(Build(c, subs[..|subs| - 1]), c, s, Subtopic), s, subs[|subs| - 1].1)
  }

  // ---------------------------------------------------------------------
  // Independent descriptions of the result
  // ---------------------------------------------------------------------

  ghost function SubtopicLabels(subs: Subtopics): set<string>
  {
    set i | 0 <= i < |subs| :: subs[i].0
  }

  ghost function DetailLabels(subs: Subtopics): set<string>
  {
    set i, j | 0 <= i < |subs| && 0 <= j < |subs[i].1| :: subs[i].1[j]
  }

  /** The edges central-subtopic. */
  ghost function Spokes(c: string, subs: Subtopics): set<Edge>
  {
    set i | 0 <= i < |subs| :: {c, subs[i].0}
  }

  /** The edges subtopic-detail. */
  ghost function Leaves(subs: Subtopics): set<Edge>
  {
    set i, j | 0 <= i < |subs| && 0 <= j < |subs[i].1| :: {subs[i].0, subs[i].1[j]}
  }

  ghost function Elems(ds: seq<string>): set<string>
  {
    set d | d in ds
  }

  /** The edges from `s` to each of `ds`. */
  ghost function EdgesTo(s: string, ds: seq<string>): set<Edge>
  {
    set d | d in ds :: {s, d}
  }

  /** The number of details over all subtopics. */
  function TotalDetails(subs: Subtopics): nat
    decreases |subs|
  {
    if subs == [] then 0 else TotalDetails(subs[..|subs| - 1]) + |subs[|subs| - 1].1|
  }

  /**
   * The `add_node` calls of the build, in the order they are made: one for
   * the central topic first, then one per subtopic and one per detail.
   */
  function Writes(c: string, subs: Subtopics): (w: seq<(string, Kind)>)
    ensures |w| == 1 + |subs| + TotalDetails(subs)
    ensures w[0] == (c, Central)
    decreases |subs|
  {
    if subs == [] then [(c, Central)]
    else Writes(c, subs[..|subs| - 1]) + [(subs[|subs| - 1].0, Subtopic)] + DetailWrites(subs[|subs| - 1].1)
  }

  function DetailWrites(ds: seq<string>): seq<(string, Kind)>
  {
    seq(|ds|, j requires 0 <= j < |ds| => (ds[j], Detail))
  }

  ghost function Labels(w: seq<(string, Kind)>): set<string>
  {
    set k | 0 <= k < |w| :: w[k].0
  }

  /** `w[k]` is the last write to its label. */
  ghost predicate IsLastWrite(w: seq<(string, Kind)>, k: int)
  {
    && 0 <= k < |w|
    && forall m :: k < m < |w| ==> w[m].0 != w[k].0
  }

  /** The nodes of `g` are the labels written, each with the kind its last write gave it. */
  ghost predicate Records(g: Snapshot, w: seq<(string, Kind)>)
  {
    && g.nodes == Labels(w)
    && g.kind.Keys == g.nodes
    && forall k :: IsLastWrite(w, k) ==> w[k].0 in g.kind && g.kind[w[k].0] == w[k].1
  }

  /** The central label, every subtopic label and every detail are pairwise distinct. */
  ghost predicate DistinctLabels(c: string, subs: Subtopics)
  {
    DistinctWrites(Writes(c, subs))
  }

  ghost predicate DistinctWrites(w: seq<(string, Kind)>)
  {
    forall a, b :: 0 <= a < b < |w| ==> w[a].0 != w[b].0
  }

  /**
   * The roles `create_mind_map` means its nodes to play: the central topic
   * is Central; each subtopic is Subtopic and joined to it; each detail is
   * Detail and joined only to its subtopic.
   */
  ghost predicate RolesMatch(g: Snapshot, c: string, subs: Subtopics)
  {
    && c in g.kind && g.kind[c] == Central
    && (forall i :: 0 <= i < |subs| ==>
          subs[i].0 in g.kind && g.kind[subs[i].0] == Subtopic && {c, subs[i].0} in g.edges)
    && (forall i, j :: 0 <= i < |subs| && 0 <= j < |subs[i].1| ==>
          subs[i].1[j] in g.kind && g.kind[subs[i].1[j]] == Detail)
    && (forall i, j, e :: 0 <= i < |subs| && 0 <= j < |subs[i].1| && e in g.edges && subs[i].1[j] in e ==>
          e == {subs[i].0, subs[i].1[j]})
  }

  // ---------------------------------------------------------------------
  // The imperative build
  // ---------------------------------------------------------------------

  /** `create_mind_map(central_topic, subtopics)`. */
  method CreateMindMap(c: string, subs: Subtopics) returns (g: UndirectedGraph)
    ensures fresh(g)
    ensures g.View() == Build(c, subs)
    ensures g.nodes == {c} + SubtopicLabels(subs) + DetailLabels(subs)
    ensures g.edges == Spokes(c, subs) + Leaves(subs)
    ensures g.kind.Keys == g.nodes
  {
    g := new UndirectedGraph();
    g.AddNode(c, Central);
    var i := 0;
    while i < |subs|
      invariant 0 <= i <= |subs|
      invariant g.View() == Build(c, subs[..i])
    {
      var (s, ds) := subs[i];
      g.AddNode(s, Subtopic);
      g.AddEdge(c, s);
      ghost var start := g.View();
      var j := 0;
      while j < |ds|
        invariant 0 <= j <= |ds|
        invariant g.View() == AddDetails(start, s, ds[..j])
      {
        g.AddNode(ds[j], Detail);
        g.AddEdge(s, ds[j]);
        assert ds[..j + 1][..j] == ds[..j];
        j := j + 1;
      }
      assert ds[..j] == ds;
      assert subs[..i + 1][..i] == subs[..i];
      i := i + 1;
    }
    assert subs[..i] == subs;
    BuildShape(c, subs);
  }

  // ---------------------------------------------------------------------
  // Lemmas: what the build produces for every input
  // ---------------------------------------------------------------------

  lemma SubtopicLabelsSnoc(subs: Subtopics)
    requires subs != []
    ensures SubtopicLabels(subs) == SubtopicLabels(subs[..|subs| - 1]) + {subs[|subs| - 1].0}
  {
    var p := subs[..|subs| - 1];
    forall x | x in SubtopicLabels(p) ensures x in SubtopicLabels(subs) {
      var i :| 0 <= i < |p| && p[i].0 == x;
      assert subs[i] == p[i];
    }
    assert subs[|subs| - 1].0 in SubtopicLabels(subs);
  }

  lemma DetailLabelsSnoc(subs: Subtopics)
    requires subs != []
    ensures DetailLabels(subs) == DetailLabels(subs[..|subs| - 1]) + Elems(subs[|subs| - 1].1)
  {
    var p, n := subs[..|subs| - 1], |subs| - 1;
    var ds := subs[n].1;
    forall x | x in DetailLabels(subs) ensures x in DetailLabels(p) || x in ds {
      var i, j :| 0 <= i < |subs| && 0 <= j < |subs[i].1| && subs[i].1[j] == x;
      if i < n {
        assert p[i] == subs[i];
      }
    }
    forall x | x in DetailLabels(p) ensures x in DetailLabels(subs) {
      var i, j :| 0 <= i < |p| && 0 <= j < |p[i].1| && p[i].1[j] == x;
      assert subs[i] == p[i];
    }
    forall x | x in ds ensures x in DetailLabels(subs) {
      var j :| 0 <= j < |ds| && ds[j] == x;
      assert subs[n].1[j] == x;
    }
  }

  lemma SpokesSnoc(c: string, subs: Subtopics)
    requires subs != []
    ensures Spokes(c, subs) == Spokes(c, subs[..|subs| - 1]) + {{c, subs[|subs| - 1].0}}
  {
    var p := subs[..|subs| - 1];
    forall e | e in Spokes(c, p) ensures e in Spokes(c, subs) {
      var i :| 0 <= i < |p| && e == {c, p[i].0};
      assert subs[i] == p[i];
    }
    assert {c, subs[|subs| - 1].0} in Spokes(c, subs);
  }

  lemma LeavesSnoc(subs: Subtopics)
    requires subs != []
    ensures Leaves(subs) == Leaves(subs[..|subs| - 1]) + EdgesTo(subs[|subs| - 1].0, subs[|subs| - 1].1)
  {
    var p, n := subs[..|subs| - 1], |subs| - 1;
    var s, ds := subs[n].0, subs[n].1;
    forall e | e in Leaves(subs) ensures e in Leaves(p) || exists d :: d in ds && e == {s, d} {
      var i, j :| 0 <= i < |subs| && 0 <= j < |subs[i].1| && e == {subs[i].0, subs[i].1[j]};
      if i < n {
        assert p[i] == subs[i];
      } else {
        assert ds[j] in ds;
      }
    }
    forall e | e in Leaves(p) ensures e in Leaves(subs) {
      var i, j :| 0 <= i < |p| && 0 <= j < |p[i].1| && e == {p[i].0, p[i].1[j]};
      assert subs[i] == p[i];
    }
    forall d | d in ds ensures {s, d} in Leaves(subs) {
      var j :| 0 <= j < |ds| && ds[j] == d;
      assert {subs[n].0, subs[n].1[j]} == {s, d};
    }
  }

  /** The inner loop adds each detail as a node of kind Detail and the edge to `s`. */
  lemma {:induction false} AddDetailsShape(g: Snapshot, s: string, ds: seq<string>)
    requires s in g.nodes
    ensures AddDetails(g, s, ds).nodes == g.nodes + Elems(ds)
    ensures AddDetails(g, s, ds).kind.Keys == g.kind.Keys + Elems(ds)
    ensures forall n :: n in Elems(ds) ==> AddDetails(g, s, ds).kind[n] == Detail
    ensures forall n :: n in g.kind && n !in Elems(ds) ==> AddDetails(g, s, ds).kind[n] == g.kind[n]
    ensures AddDetails(g, s, ds).edges == g.edges + EdgesTo(s, ds)
    decreases |ds|
  {
    if ds != [] {
      var front, d := ds[..|ds| - 1], ds[|ds| - 1];
      AddDetailsShape(g, s, front);
      assert ds == front + [d];
      assert Elems(ds) == Elems(front) + {d};
      assert EdgesTo(s, ds) == EdgesTo(s, front) + {{s, d}};
    }
  }

  /** The edges of the build: a spoke per subtopic and a leaf per detail. */
  lemma {:induction false} BuildEdges(c: string, subs: Subtopics)
    ensures Build(c, subs).edges == Spokes(c, subs) + Leaves(subs)
    decreases |subs|
  {
    if subs != [] {
      var p, s, ds := subs[..|subs| - 1], subs[|subs| - 1].0, subs[|subs| - 1].1;
      BuildEdges(c, p);
      var g1 := Attach(Build(c, p), c, s, Subtopic);
      assert g1.edges == Build(c, p).edges + {{c, s}};
      AddDetailsShape(g1, s, ds);
      SpokesSnoc(c, subs);
      LeavesSnoc(subs);
    }
  }

  /** A graph with the closed-form nodes and edges joins only its own nodes. */
  lemma ShapeWellFormed(g: Snapshot, c: string, subs: Subtopics)
    requires g.nodes == {c} + SubtopicLabels(subs) + DetailLabels(subs)
    requires g.edges == Spokes(c, subs) + Leaves(subs)
    requires g.kind.Keys == g.nodes
    ensures WellFormed(g)
  {
    forall e | e in g.edges ensures e <= g.nodes {
      if e in Spokes(c, subs) {
        var i :| 0 <= i < |subs| && e == {c, subs[i].0};
        assert subs[i].0 in SubtopicLabels(subs);
      } else {
        var i, j :| 0 <= i < |subs| && 0 <= j < |subs[i].1| && e == {subs[i].0, subs[i].1[j]};
        assert subs[i].0 in SubtopicLabels(subs) && subs[i].1[j] in DetailLabels(subs);
      }
    }
  }

  /** The nodes of the build, each with an attribute. */
  lemma {:induction false} BuildNodes(c: string, subs: Subtopics)
    ensures Build(c, subs).nodes == {c} + SubtopicLabels(subs) + DetailLabels(subs)
    ensures Build(c, subs).kind.Keys == Build(c, subs).nodes
    decreases |subs|
  {
    if subs != [] {
      var p, s, ds := subs[..|subs| - 1], subs[|subs| - 1].0, subs[|subs| - 1].1;
      var g0 := Build(c, p);
      BuildNodes(c, p);
      var g1 := Attach(g0, c, s, Subtopic);
      assert g1.nodes == g0.nodes + {s};
      assert g1.kind.Keys == g1.nodes;
      AddDetailsShape(g1, s, ds);
      SubtopicLabelsSnoc(subs);
      DetailLabelsSnoc(subs);
    }
  }

  /** Nodes, edges and attributes of the build, for every input. */
  lemma BuildShape(c: string, subs: Subtopics)
    ensures Build(c, subs).nodes == {c} + SubtopicLabels(subs) + DetailLabels(subs)
    ensures Build(c, subs).edges == Spokes(c, subs) + Leaves(subs)
    ensures Build(c, subs).kind.Keys == Build(c, subs).nodes
    ensures WellFormed(Build(c, subs))
  {
    BuildNodes(c, subs);
    BuildEdges(c, subs);
    ShapeWellFormed(Build(c, subs), c, subs);
  }
}
