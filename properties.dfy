/**
 * What `create_mind_map` guarantees: which node ends up with which kind
 * (the last `add_node` for a label wins), that the result is always
 * connected from the central topic, and that distinct labels are enough to
 * make it a tree whose nodes play their intended roles. Distinct labels are
 * not needed for a tree, but a subtopic carrying the central label or a
 * detail carrying its own subtopic's label rules one out (a self-loop), and
 * so does a detail shared by two subtopics when it differs from the central
 * label and from both subtopics (shown on one input: a cycle).
 */
module BuildProperties {
  import opened Graph
  import opened Builder

  // ---------------------------------------------------------------------
  // Last write wins
  // ---------------------------------------------------------------------

  lemma LabelsSnoc(w: seq<(string, Kind)>, x: (string, Kind))
    ensures Labels(w + [x]) == Labels(w) + {x.0}
  {
    var w' := w + [x];
    forall y | y in Labels(w) ensures y in Labels(w') {
      var i :| 0 <= i < |w| && w[i].0 == y;
      assert w'[i] == w[i];
    }
    forall y | y in Labels(w') ensures y in Labels(w) + {x.0} {
      var i :| 0 <= i < |w'| && w'[i].0 == y;
      if i < |w| {
        assert w'[i] == w[i];
      }
    }
    assert w'[|w|].0 == x.0;
  }

  lemma RecordsAttach(g: Snapshot, w: seq<(string, Kind)>, p: string, v: string, k: Kind)
    requires Records(g, w) && p in g.nodes
    ensures Records(Attach(g, p, v, k), w + [(v, k)])
  {
    var h, w' := Attach(g, p, v, k), w + [(v, k)];
    LabelsSnoc(w, (v, k));
    assert h.nodes == g.nodes + {v};
    assert h.kind == g.kind[v := k];
    forall i | IsLastWrite(w', i) ensures w'[i].0 in h.kind && h.kind[w'[i].0] == w'[i].1 {
      if i < |w| {
        assert w'[i] == w[i];
        assert w'[|w|].0 != w[i].0;
        forall m | i < m < |w| ensures w[m].0 != w[i].0 {
          assert w'[m] == w[m];
        }
        assert IsLastWrite(w, i);
      }
    }
  }

  lemma DetailWritesSnoc(ds: seq<string>)
    requires ds != []
    ensures DetailWrites(ds) == DetailWrites(ds[..|ds| - 1]) + [(ds[|ds| - 1], Detail)]
  {
  }

  lemma {:induction false} RecordsAddDetails(g: Snapshot, w: seq<(string, Kind)>, s: string, ds: seq<string>)
    requires Records(g, w) && s in g.nodes
    ensures Records(AddDetails(g, s, ds), w + DetailWrites(ds))
    decreases |ds|
  {
    if ds != [] {
      var front, d := ds[..|ds| - 1], ds[|ds| - 1];
      RecordsAddDetails(g, w, s, front);
      AddDetailsShape(g, s, front);
      RecordsAttach(AddDetails(g, s, front), w + DetailWrites(front), s, d, Detail);
      DetailWritesSnoc(ds);
      assert w + DetailWrites(front) + [(d, Detail)] == w + DetailWrites(ds);
    } else {
      assert w + DetailWrites(ds) == w;
    }
  }

  /**
   * The nodes are exactly the labels passed to `add_node`, and each node's
   * kind is the one its last `add_node` wrote.
   */
  lemma {:induction false} KindIsLastWrite(c: string, subs: Subtopics)
    ensures Records(Build(c, subs), Writes(c, subs))
    decreases |subs|
  {
    if subs == [] {
      assert Labels([(c, Central)]) == {c} by {
        assert [(c, Central)][0].0 == c;
      }
    } else {
      var p, s, ds := subs[..|subs| - 1], subs[|subs| - 1].0, subs[|subs| - 1].1;
      KindIsLastWrite(c, p);
      BuildShape(c, p);
      RecordsAttach(Build(c, p), Writes(c, p), c, s, Subtopic);
      RecordsAddDetails(Attach(Build(c, p), c, s, Subtopic), Writes(c, p) + [(s, Subtopic)], s, ds);
    }
  }

  /** Every label written has a last write, at or after any write to it. */
  lemma {:induction false} LastWriteExists(w: seq<(string, Kind)>, k: int)
    requires 0 <= k < |w|
    ensures exists m :: k <= m && IsLastWrite(w, m) && w[m].0 == w[k].0
    decreases |w| - k
  {
    if !IsLastWrite(w, k) {
      var m :| k < m < |w| && w[m].0 == w[k].0;
      LastWriteExists(w, m);
    }
  }

  /** After the central topic's write, no write says Central, and each writes a subtopic or a detail. */
  lemma {:induction false} WritesShape(c: string, subs: Subtopics)
    ensures |Writes(c, subs)| == 1 + |subs| + TotalDetails(subs)
    ensures Writes(c, subs)[0] == (c, Central)
    ensures forall k :: 1 <= k < |Writes(c, subs)| ==> Writes(c, subs)[k].1 != Central
    ensures forall k :: 1 <= k < |Writes(c, subs)| ==>
              Writes(c, subs)[k].0 in SubtopicLabels(subs) + DetailLabels(subs)
    decreases |subs|
  {
    if subs != [] {
      var p, s, ds := subs[..|subs| - 1], subs[|subs| - 1].0, subs[|subs| - 1].1;
      WritesShape(c, p);
      SubtopicLabelsSnoc(subs);
      DetailLabelsSnoc(subs);
      var wp, w := Writes(c, p), Writes(c, subs);
      assert w == wp + [(s, Subtopic)] + DetailWrites(ds);
      forall k | 1 <= k < |w| ensures w[k].1 != Central && w[k].0 in SubtopicLabels(subs) + DetailLabels(subs) {
        if k < |wp| {
          assert w[k] == wp[k];
        } else if k > |wp| {
          assert w[k] == (ds[k - |wp| - 1], Detail);
        }
      }
    }
  }

  /** Label `n` is written by some call after the central topic's. */
  ghost predicate WrittenLater(w: seq<(string, Kind)>, n: string)
  {
    exists k :: 1 <= k < |w| && w[k].0 == n
  }

  /** Every subtopic and detail label is written by some call after the central topic's. */
  lemma {:induction false} WritesCover(c: string, subs: Subtopics)
    ensures forall n :: n in SubtopicLabels(subs) + DetailLabels(subs) ==> WrittenLater(Writes(c, subs), n)
    decreases |subs|
  {
    if subs != [] {
      var p, s, ds := subs[..|subs| - 1], subs[|subs| - 1].0, subs[|subs| - 1].1;
      WritesCover(c, p);
      SubtopicLabelsSnoc(subs);
      DetailLabelsSnoc(subs);
      var wp, w := Writes(c, p), Writes(c, subs);
      assert w == wp + [(s, Subtopic)] + DetailWrites(ds);
      forall n | n in SubtopicLabels(subs) + DetailLabels(subs) ensures WrittenLater(w, n) {
        if n in SubtopicLabels(p) + DetailLabels(p) {
          var k :| 1 <= k < |wp| && wp[k].0 == n;
          assert w[k] == wp[k];
        } else if n == s {
          assert w[|wp|].0 == n;
        } else {
          assert n in Elems(ds);
          var j :| 0 <= j < |ds| && ds[j] == n;
          assert w[|wp| + 1 + j].0 == n;
        }
      }
    } else {
      assert SubtopicLabels(subs) == {} && DetailLabels(subs) == {};
    }
  }

  /**
   * The central topic keeps kind Central exactly when no subtopic and no
   * detail carries its label; otherwise a later write overwrote it.
   */
  lemma CentralKeepsKindIff(c: string, subs: Subtopics)
    ensures c in Build(c, subs).kind
    ensures Build(c, subs).kind[c] == Central <==> c !in SubtopicLabels(subs) && c !in DetailLabels(subs)
  {
    var g, w := Build(c, subs), Writes(c, subs);
    KindIsLastWrite(c, subs);
    WritesShape(c, subs);
    WritesCover(c, subs);
    if c in SubtopicLabels(subs) + DetailLabels(subs) {
      assert WrittenLater(w, c);
      var k :| 1 <= k < |w| && w[k].0 == c;
      LastWriteExists(w, k);
      var m :| k <= m && IsLastWrite(w, m) && w[m].0 == c;
      assert g.kind[c] == w[m].1;
    } else {
      assert IsLastWrite(w, 0);
    }
  }

  /** In a graph recording a log whose only Central write is the first, only that label is Central. */
  lemma RecordsOneCentral(g: Snapshot, w: seq<(string, Kind)>, c: string)
    requires Records(g, w) && |w| > 0 && w[0] == (c, Central)
    requires forall k :: 1 <= k < |w| ==> w[k].1 != Central
    ensures forall n :: n in g.kind && g.kind[n] == Central ==> n == c
  {
    forall n | n in g.kind && g.kind[n] == Central ensures n == c {
      var k :| 0 <= k < |w| && w[k].0 == n;
      LastWriteExists(w, k);
      var m :| k <= m && IsLastWrite(w, m) && w[m].0 == n;
      assert g.kind[n] == w[m].1;
    }
  }

  /** Only the central topic's label can have kind Central. */
  lemma AtMostOneCentral(c: string, subs: Subtopics)
    ensures forall n :: n in Build(c, subs).kind && Build(c, subs).kind[n] == Central ==> n == c
  {
    KindIsLastWrite(c, subs);
    WritesShape(c, subs);
    RecordsOneCentral(Build(c, subs), Writes(c, subs), c);
  }

  /** The last write of a log decides the kind of its label. */
  lemma LastWriteDecides(g: Snapshot, w: seq<(string, Kind)>)
    requires Records(g, w) && w != []
    ensures w[|w| - 1].0 in g.kind && g.kind[w[|w| - 1].0] == w[|w| - 1].1
  {
    assert IsLastWrite(w, |w| - 1);
  }

  /**
   * When the very last `add_node` call is a detail carrying the central
   * label, the central topic's node ends with kind Detail.
   */
  lemma DetailEqualToCentral(c: string, subs: Subtopics)
    requires subs != [] && subs[|subs| - 1].1 != []
    requires subs[|subs| - 1].1[|subs[|subs| - 1].1| - 1] == c
    ensures c in Build(c, subs).kind && Build(c, subs).kind[c] == Detail
  {
    var p, s, ds := subs[..|subs| - 1], subs[|subs| - 1].0, subs[|subs| - 1].1;
    var w := Writes(c, subs);
    assert w == Writes(c, p) + [(s, Subtopic)] + DetailWrites(ds);
    assert w[|w| - 1] == DetailWrites(ds)[|ds| - 1] == (c, Detail);
    KindIsLastWrite(c, subs);
    LastWriteDecides(Build(c, subs), w);
  }

  /** The smallest such input: the central node becomes a detail, and only two nodes remain. */
  lemma DetailEqualToCentralExample()
    ensures Build("Topic", [("Part", ["Topic"])]).kind["Topic"] == Detail
    ensures Build("Topic", [("Part", ["Topic"])]).nodes == {"Topic", "Part"}
  {
    DetailEqualToCentral("Topic", [("Part", ["Topic"])]);
    KindIsLastWrite("Topic", [("Part", ["Topic"])]);
    var w := Writes("Topic", [("Part", ["Topic"])]);
    assert w == [("Topic", Central), ("Part", Subtopic), ("Topic", Detail)];
    assert IsLastWrite(w, 2);
    assert Labels(w) == {"Topic", "Part"} by {
      assert w[0].0 == "Topic" && w[1].0 == "Part";
    }
  }

  // ---------------------------------------------------------------------
  // Node count
  // ---------------------------------------------------------------------

  /** Appending a write with a fresh label keeps a log distinct, and only then. */
  lemma DistinctWritesSnoc(w: seq<(string, Kind)>)
    requires w != [] && w[|w| - 1].0 !in Labels(w[..|w| - 1])
    ensures DistinctWrites(w) <==> DistinctWrites(w[..|w| - 1])
  {
    var front := w[..|w| - 1];
    if DistinctWrites(front) {
      forall a, b | 0 <= a < b < |w| ensures w[a].0 != w[b].0 {
        assert w[a] == front[a];
        if b < |front| { assert w[b] == front[b]; }
      }
    }
    if DistinctWrites(w) {
      forall a, b | 0 <= a < b < |front| ensures front[a].0 != front[b].0 {
        assert w[a] == front[a] && w[b] == front[b];
      }
    }
  }

  /** There are at most as many labels as writes, and as many exactly when they are distinct. */
  lemma {:induction false} LabelCount(w: seq<(string, Kind)>)
    ensures |Labels(w)| <= |w|
    ensures |Labels(w)| == |w| <==> DistinctWrites(w)
    decreases |w|
  {
    if w != [] {
      var front, last := w[..|w| - 1], w[|w| - 1];
      LabelCount(front);
      assert w == front + [last];
      LabelsSnoc(front, last);
      if last.0 in Labels(front) {
        var i :| 0 <= i < |front| && front[i].0 == last.0;
        assert w[i].0 == w[|w| - 1].0;
      } else {
        DistinctWritesSnoc(w);
      }
    }
  }

  /**
   * The build has at most 1 + |subtopics| + (number of details) nodes, and
   * exactly that many when the labels are pairwise distinct; any shared
   * label merges nodes.
   */
  lemma NodeCountIffDistinct(c: string, subs: Subtopics)
    ensures |Build(c, subs).nodes| <= 1 + |subs| + TotalDetails(subs)
    ensures |Build(c, subs).nodes| == 1 + |subs| + TotalDetails(subs) <==> DistinctLabels(c, subs)
  {
    KindIsLastWrite(c, subs);
    WritesShape(c, subs);
    LabelCount(Writes(c, subs));
  }

  // ---------------------------------------------------------------------
  // Connectivity and the tree shape
  // ---------------------------------------------------------------------

  lemma {:induction false} AddDetailsKeepsConnected(g: Snapshot, root: string, s: string, ds: seq<string>)
    requires Connected(g, root) && s in g.nodes
    ensures Connected(AddDetails(g, s, ds), root)
    decreases |ds|
  {
    if ds != [] {
      var front := ds[..|ds| - 1];
      AddDetailsKeepsConnected(g, root, s, front);
      AddDetailsShape(g, s, front);
      AttachKeepsConnected(AddDetails(g, s, front), root, s, ds[|ds| - 1], Detail);
    }
  }

  /** Whatever the labels, every node is reached from the central topic. */
  lemma {:induction false} AlwaysConnected(c: string, subs: Subtopics)
    ensures Connected(Build(c, subs), c)
    decreases |subs|
  {
    if subs == [] {
      var g := Build(c, subs);
      assert IsWalk(g, [c]);
    } else {
      var p, s, ds := subs[..|subs| - 1], subs[|subs| - 1].0, subs[|subs| - 1].1;
      AlwaysConnected(c, p);
      AttachKeepsConnected(Build(c, p), c, c, s, Subtopic);
      AddDetailsKeepsConnected(Attach(Build(c, p), c, s, Subtopic), c, s, ds);
    }
  }

  ghost predicate DistinctSeq(ds: seq<string>)
  {
    forall a, b :: 0 <= a < b < |ds| ==> ds[a] != ds[b]
  }

  /** Dropping the last detail keeps the rest distinct, inside the whole, and apart from the last. */
  lemma DistinctFront(ds: seq<string>)
    requires ds != [] && DistinctSeq(ds)
    ensures DistinctSeq(ds[..|ds| - 1])
    ensures Elems(ds[..|ds| - 1]) <= Elems(ds)
    ensures ds[|ds| - 1] in Elems(ds) && ds[|ds| - 1] !in Elems(ds[..|ds| - 1])
  {
    var front, d := ds[..|ds| - 1], ds[|ds| - 1];
    forall x | x in Elems(front) ensures x in Elems(ds) && x != d {
      var j :| 0 <= j < |front| && front[j] == x;
      assert ds[j] == x;
    }
    forall a, b | 0 <= a < b < |front| ensures front[a] != front[b] {
      assert front[a] == ds[a] && front[b] == ds[b];
    }
  }

  lemma {:induction false} AddDetailsFreshSize(g: Snapshot, s: string, ds: seq<string>)
    requires TreeSized(g) && WellFormed(g) && s in g.nodes
    requires DistinctSeq(ds) && Elems(ds) !! g.nodes
    ensures TreeSized(AddDetails(g, s, ds)) && WellFormed(AddDetails(g, s, ds))
    decreases |ds|
  {
    if ds != [] {
      var front, d := ds[..|ds| - 1], ds[|ds| - 1];
      DistinctFront(ds);
      AddDetailsFreshSize(g, s, front);
      var h := AddDetails(g, s, front);
      AddDetailsShape(g, s, front);
      AttachFreshSize(h, s, d, Detail);
      assert AddDetails(g, s, ds) == Attach(h, s, d, Detail);
    }
  }

  lemma AddDetailsKeepsTree(g: Snapshot, root: string, s: string, ds: seq<string>)
    requires IsTree(g, root) && WellFormed(g) && s in g.nodes
    requires DistinctSeq(ds) && Elems(ds) !! g.nodes
    ensures IsTree(AddDetails(g, s, ds), root) && WellFormed(AddDetails(g, s, ds))
  {
    AddDetailsKeepsConnected(g, root, s, ds);
    AddDetailsFreshSize(g, s, ds);
  }

  /** Distinct labels in a log, split after a prefix, one write and a run of detail writes. */
  lemma DistinctSplit(wp: seq<(string, Kind)>, s: string, ds: seq<string>)
    requires DistinctWrites(wp + [(s, Subtopic)] + DetailWrites(ds))
    ensures DistinctWrites(wp)
    ensures s !in Labels(wp) && s !in Elems(ds)
    ensures Elems(ds) !! Labels(wp)
    ensures DistinctSeq(ds)
  {
    var w := wp + [(s, Subtopic)] + DetailWrites(ds);
    forall a, b | 0 <= a < b < |wp| ensures wp[a].0 != wp[b].0 {
      assert w[a] == wp[a] && w[b] == wp[b];
    }
    assert w[|wp|].0 == s;
    forall k | 0 <= k < |wp| ensures wp[k].0 != s {
      assert w[k] == wp[k];
    }
    forall j | 0 <= j < |ds| ensures ds[j] !in Labels(wp) && ds[j] != s {
      assert w[|wp| + 1 + j].0 == ds[j];
      forall k | 0 <= k < |wp| ensures wp[k].0 != ds[j] {
        assert w[k] == wp[k];
      }
    }
    forall a, b | 0 <= a < b < |ds| ensures ds[a] != ds[b] {
      assert w[|wp| + 1 + a].0 == ds[a] && w[|wp| + 1 + b].0 == ds[b];
    }
  }

  /** What distinct labels give about the latest subtopic, relative to the earlier build. */
  lemma FreshLabels(c: string, subs: Subtopics)
    requires subs != [] && DistinctLabels(c, subs)
    ensures DistinctLabels(c, subs[..|subs| - 1])
    ensures subs[|subs| - 1].0 !in Build(c, subs[..|subs| - 1]).nodes
    ensures subs[|subs| - 1].0 !in Elems(subs[|subs| - 1].1)
    ensures Elems(subs[|subs| - 1].1) !! Build(c, subs[..|subs| - 1]).nodes
    ensures DistinctSeq(subs[|subs| - 1].1)
  {
    var p, s, ds := subs[..|subs| - 1], subs[|subs| - 1].0, subs[|subs| - 1].1;
    assert Writes(c, subs) == Writes(c, p) + [(s, Subtopic)] + DetailWrites(ds);
    DistinctSplit(Writes(c, p), s, ds);
    KindIsLastWrite(c, p);
  }

  /** What one round of the outer loop, for subtopic `s` with details `ds`, does to `g0`. */
  ghost predicate Round(g0: Snapshot, g2: Snapshot, c: string, s: string, ds: seq<string>)
  {
    && g2.kind.Keys == g0.kind.Keys + {s} + Elems(ds)
    && (forall n :: n in Elems(ds) ==> g2.kind[n] == Detail)
    && (s !in Elems(ds) ==> g2.kind[s] == Subtopic)
    && (forall n :: n in g0.kind && n != s && n !in Elems(ds) ==> g2.kind[n] == g0.kind[n])
    && g2.edges == g0.edges + {{c, s}} + EdgesTo(s, ds)
  }

  lemma RoundOfBuild(c: string, subs: Subtopics)
    requires subs != []
    ensures Round(Build(c, subs[..|subs| - 1]), Build(c, subs), c, subs[|subs| - 1].0, subs[|subs| - 1].1)
    ensures WellFormed(Build(c, subs[..|subs| - 1])) && c in Build(c, subs[..|subs| - 1]).nodes
    ensures Build(c, subs[..|subs| - 1]).kind.Keys == Build(c, subs[..|subs| - 1]).nodes
  {
    var p, s, ds := subs[..|subs| - 1], subs[|subs| - 1].0, subs[|subs| - 1].1;
    var g0 := Build(c, p);
    BuildShape(c, p);
    var g1 := Attach(g0, c, s, Subtopic);
    assert g1.nodes == g0.nodes + {s};
    assert g1.kind == g0.kind[s := Subtopic];
    assert g1.edges == g0.edges + {{c, s}};
    var g2 := AddDetails(g1, s, ds);
    assert g2 == Build(c, subs);
    AddDetailsShape(g1, s, ds);
    assert Round(g0, g2, c, s, ds) by {
      assert g2.kind.Keys == g0.kind.Keys + {s} + Elems(ds);
      assert forall n :: n in g0.kind && n != s && n !in Elems(ds) ==> g2.kind[n] == g0.kind[n];
    }
  }

  lemma SubtopicRolesRound(g0: Snapshot, g2: Snapshot, c: string, p: Subtopics, s: string, ds: seq<string>)
    requires Round(g0, g2, c, s, ds) && RolesMatch(g0, c, p)
    requires g0.kind.Keys == g0.nodes && c in g0.nodes
    requires s !in g0.nodes && s !in Elems(ds) && Elems(ds) !! g0.nodes
    ensures c in g2.kind && g2.kind[c] == Central
    ensures forall i :: 0 <= i < |p + [(s, ds)]| ==>
              (p + [(s, ds)])[i].0 in g2.kind && g2.kind[(p + [(s, ds)])[i].0] == Subtopic
              && {c, (p + [(s, ds)])[i].0} in g2.edges
  {
    var subs := p + [(s, ds)];
    forall i | 0 <= i < |subs|
      ensures subs[i].0 in g2.kind && g2.kind[subs[i].0] == Subtopic && {c, subs[i].0} in g2.edges
    {
      if i < |p| {
        assert subs[i] == p[i];
        assert subs[i].0 in g0.kind;
      }
    }
  }

  lemma DetailKindsRound(g0: Snapshot, g2: Snapshot, c: string, p: Subtopics, s: string, ds: seq<string>)
    requires Round(g0, g2, c, s, ds) && RolesMatch(g0, c, p)
    requires g0.kind.Keys == g0.nodes
    requires s !in g0.nodes && Elems(ds) !! g0.nodes
    ensures forall i, j :: 0 <= i < |p + [(s, ds)]| && 0 <= j < |(p + [(s, ds)])[i].1| ==>
              (p + [(s, ds)])[i].1[j] in g2.kind && g2.kind[(p + [(s, ds)])[i].1[j]] == Detail
  {
    var subs := p + [(s, ds)];
    forall i, j | 0 <= i < |subs| && 0 <= j < |subs[i].1|
      ensures subs[i].1[j] in g2.kind && g2.kind[subs[i].1[j]] == Detail
    {
      if i < |p| {
        assert subs[i] == p[i];
        assert subs[i].1[j] in g0.kind;
      } else {
        assert subs[i].1[j] in Elems(ds);
      }
    }
  }

  lemma DetailEdgesRound(g0: Snapshot, g2: Snapshot, c: string, p: Subtopics, s: string, ds: seq<string>)
    requires Round(g0, g2, c, s, ds) && RolesMatch(g0, c, p) && WellFormed(g0)
    requires g0.kind.Keys == g0.nodes
    requires s !in g0.nodes && s !in Elems(ds) && Elems(ds) !! g0.nodes
    ensures forall i, j, e ::
              0 <= i < |p + [(s, ds)]| && 0 <= j < |(p + [(s, ds)])[i].1| && e in g2.edges && (p + [(s, ds)])[i].1[j] in e
              ==> e == {(p + [(s, ds)])[i].0, (p + [(s, ds)])[i].1[j]}
  {
    var subs := p + [(s, ds)];
    forall i, j, e | 0 <= i < |subs| && 0 <= j < |subs[i].1| && e in g2.edges && subs[i].1[j] in e
      ensures e == {subs[i].0, subs[i].1[j]}
    {
      var d := subs[i].1[j];
      if i < |p| {
        assert subs[i] == p[i];
        assert d in g0.kind && g0.kind[d] == Detail;
        assert d != c && d != s && d !in Elems(ds);
        assert e !in EdgesTo(s, ds);
        assert e in g0.edges;
      } else {
        assert d in Elems(ds) && d !in g0.nodes;
        assert e !in g0.edges && e != {c, s};
        var x :| x in ds && e == {s, x};
        assert x == d;
      }
    }
  }

  /** One round of the outer loop with fresh labels extends the roles to the new subtopic. */
  lemma RolesRound(g0: Snapshot, g2: Snapshot, c: string, p: Subtopics, s: string, ds: seq<string>)
    requires Round(g0, g2, c, s, ds) && RolesMatch(g0, c, p) && WellFormed(g0)
    requires g0.kind.Keys == g0.nodes && c in g0.nodes
    requires s !in g0.nodes && s !in Elems(ds) && Elems(ds) !! g0.nodes
    ensures RolesMatch(g2, c, p + [(s, ds)])
  {
    SubtopicRolesRound(g0, g2, c, p, s, ds);
    DetailKindsRound(g0, g2, c, p, s, ds);
    DetailEdgesRound(g0, g2, c, p, s, ds);
  }

  /** One round of the outer loop with fresh labels keeps a tree a tree. */
  lemma RoundKeepsTree(g0: Snapshot, c: string, s: string, ds: seq<string>)
    requires IsTree(g0, c) && WellFormed(g0)
    requires s !in g0.nodes && s !in Elems(ds) && Elems(ds) !! g0.nodes && DistinctSeq(ds)
    ensures IsTree(AddDetails(Attach(g0, c, s, Subtopic), s, ds), c)
  {
    var g1 := Attach(g0, c, s, Subtopic);
    AttachKeepsTree(g0, c, c, s, Subtopic);
    assert g1.nodes == g0.nodes + {s};
    AddDetailsKeepsTree(g1, c, s, ds);
  }

  lemma {:induction false} DistinctTree(c: string, subs: Subtopics)
    requires DistinctLabels(c, subs)
    ensures IsTree(Build(c, subs), c)
    decreases |subs|
  {
    if subs == [] {
      assert IsWalk(Build(c, subs), [c]);
    } else {
      var p, s, ds := subs[..|subs| - 1], subs[|subs| - 1].0, subs[|subs| - 1].1;
      FreshLabels(c, subs);
      DistinctTree(c, p);
      RoundOfBuild(c, subs);
      RoundKeepsTree(Build(c, p), c, s, ds);
    }
  }

  lemma {:induction false} DistinctRoles(c: string, subs: Subtopics)
    requires DistinctLabels(c, subs)
    ensures RolesMatch(Build(c, subs), c, subs)
    decreases |subs|
  {
    if subs != [] {
      var p, s, ds := subs[..|subs| - 1], subs[|subs| - 1].0, subs[|subs| - 1].1;
      var g0, g2 := Build(c, p), Build(c, subs);
      FreshLabels(c, subs);
      DistinctRoles(c, p);
      RoundOfBuild(c, subs);
      assert subs == p + [(s, ds)];
      RolesRound(g0, g2, c, p, s, ds);
    }
  }

  /**
   * With pairwise distinct labels the build is a tree rooted at the
   * central topic, with 1 + |subtopics| + (number of details) nodes and one
   * edge fewer, and every node plays its intended role: the central topic
   * is the only Central node, each subtopic has kind Subtopic and an edge to
   * the central topic, and each detail has kind Detail and its only edge
   * goes to its own subtopic.
   */
  lemma DistinctLabelsGiveTree(c: string, subs: Subtopics)
    requires DistinctLabels(c, subs)
    ensures IsTree(Build(c, subs), c)
    ensures |Build(c, subs).nodes| == 1 + |subs| + TotalDetails(subs)
    ensures |Build(c, subs).edges| == |subs| + TotalDetails(subs)
    ensures RolesMatch(Build(c, subs), c, subs)
    ensures forall n :: n in Build(c, subs).kind && Build(c, subs).kind[n] == Central ==> n == c
  {
    DistinctTree(c, subs);
    DistinctRoles(c, subs);
    NodeCountIffDistinct(c, subs);
    AtMostOneCentral(c, subs);
  }

  // ---------------------------------------------------------------------
  // When labels collide
  // ---------------------------------------------------------------------

  /** A subtopic that carries the central topic's label gives a self-loop. */
  lemma SubtopicNamedLikeCentralLoops(c: string, subs: Subtopics, i: int)
    requires 0 <= i < |subs| && subs[i].0 == c
    ensures {c} in Build(c, subs).edges
    ensures !IsTree(Build(c, subs), c)
  {
    BuildShape(c, subs);
    assert {c, subs[i].0} in Spokes(c, subs);
    assert {c, subs[i].0} == {c};
    assert |{c}| == 1;
  }

  /** A detail that carries its own subtopic's label gives a self-loop on that subtopic. */
  lemma DetailNamedLikeSubtopicLoops(c: string, subs: Subtopics, i: int, j: int)
    requires 0 <= i < |subs| && 0 <= j < |subs[i].1| && subs[i].1[j] == subs[i].0
    ensures {subs[i].0} in Build(c, subs).edges
    ensures !IsTree(Build(c, subs), c)
  {
    BuildShape(c, subs);
    assert {subs[i].0, subs[i].1[j]} in Leaves(subs);
    assert {subs[i].0, subs[i].1[j]} == {subs[i].0};
    assert |{subs[i].0}| == 1;
  }

  /**
   * The widget's blank inputs: one subtopic "" with two details "", under
   * the default central topic. The details carry the subtopic's label.
   */
  lemma BlankInputLoops()
    ensures {""} in Build("Central Idea", [("", ["", ""])]).edges
    ensures !IsTree(Build("Central Idea", [("", ["", ""])]), "Central Idea")
  {
    DetailNamedLikeSubtopicLoops("Central Idea", [("", ["", ""])], 0, 0);
  }

  /** The smallest such input: one node carrying one self-loop. */
  lemma SelfLoopExample()
    ensures Build("A", [("A", [])]).nodes == {"A"}
    ensures Build("A", [("A", [])]).edges == {{"A"}}
    ensures Build("A", [("A", [])]).kind["A"] == Subtopic
  {
    assert {"A", "A"} == {"A"};
  }

  /** The first round of the shared-detail input: a path C-S-X. */
  lemma SharedDetailFirstRound()
    ensures Build("C", [("S", ["X"])]).nodes == {"C", "S", "X"}
    ensures Build("C", [("S", ["X"])]).edges == {{"C", "S"}, {"S", "X"}}
  {
    var subs := [("S", ["X"])];
    assert subs[..0] == [] && ["X"][..0] == [];
    assert Build("C", subs) == AddDetails(Attach(Build("C", []), "C", "S", Subtopic), "S", ["X"]);
  }

  /** A path C-S-X is a tree rooted at C. */
  lemma PathIsTree(g: Snapshot)
    requires g.nodes == {"C", "S", "X"} && g.edges == {{"C", "S"}, {"S", "X"}}
    ensures IsTree(g, "C")
  {
    forall n | n in g.nodes ensures exists w :: IsWalk(g, w) && w[0] == "C" && w[|w| - 1] == n {
      if n == "C" {
        assert IsWalk(g, ["C"]);
      } else if n == "S" {
        assert IsWalk(g, ["C", "S"]);
      } else {
        assert IsWalk(g, ["C", "S", "X"]);
      }
    }
    assert {"C", "S"} != {"S", "X"} by { assert "C" !in {"S", "X"}; }
    assert |{"C", "S"}| == 2 && |{"S", "X"}| == 2;
  }

  /** The graph built from a detail repeated under one subtopic. */
  lemma RepeatedDetailGraph()
    ensures Build("C", [("S", ["X", "X"])]).nodes == {"C", "S", "X"}
    ensures Build("C", [("S", ["X", "X"])]).edges == {{"C", "S"}, {"S", "X"}}
  {
    var subs := [("S", ["X", "X"])];
    assert subs[..0] == [] && ["X", "X"][..1] == ["X"] && ["X"][..0] == [];
    assert Build("C", subs) == AddDetails(Attach(Build("C", []), "C", "S", Subtopic), "S", ["X", "X"]);
  }

  /**
   * A detail repeated under one subtopic merges into one node and one edge:
   * the labels are not distinct, yet the result is still a tree.
   */
  lemma RepeatedDetailStillTree()
    ensures !DistinctLabels("C", [("S", ["X", "X"])])
    ensures Build("C", [("S", ["X", "X"])]).nodes == {"C", "S", "X"}
    ensures IsTree(Build("C", [("S", ["X", "X"])]), "C")
  {
    var subs := [("S", ["X", "X"])];
    assert subs[..0] == [];
    var w := Writes("C", subs);
    assert DetailWrites(["X", "X"]) == [("X", Detail), ("X", Detail)];
    assert w[2].0 == w[3].0;
    RepeatedDetailGraph();
    PathIsTree(Build("C", subs));
  }

  /**
   * Central "C" with subtopics "S" and "T" that share the detail "X": four
   * nodes and four edges, a cycle C-S-X-T, so not a tree. (A shared detail
   * equal to the central label would only repeat the spokes.)
   */
  lemma SharedDetailMakesCycle()
    ensures |Build("C", [("S", ["X"]), ("T", ["X"])]).nodes| == 4
    ensures |Build("C", [("S", ["X"]), ("T", ["X"])]).edges| == 4
    ensures !IsTree(Build("C", [("S", ["X"]), ("T", ["X"])]), "C")
  {
    var subs := [("S", ["X"]), ("T", ["X"])];
    assert subs[..1] == [("S", ["X"])];
    assert ["X"][..0] == [];
    SharedDetailFirstRound();
    var g1 := Build("C", subs[..1]);
    var g := Build("C", subs);
    assert g == AddDetails(Attach(g1, "C", "T", Subtopic), "T", ["X"]);
    assert g.nodes == {"C", "S", "X", "T"};
    assert g.edges == {{"C", "S"}, {"S", "X"}, {"C", "T"}, {"T", "X"}};
    assert {"C", "S"} != {"S", "X"} by { assert "C" !in {"S", "X"}; }
    assert {"C", "S"} != {"C", "T"} by { assert "S" !in {"C", "T"}; }
    assert {"C", "S"} != {"T", "X"} by { assert "C" !in {"T", "X"}; }
    assert {"S", "X"} != {"C", "T"} by { assert "S" !in {"C", "T"}; }
    assert {"S", "X"} != {"T", "X"} by { assert "S" !in {"T", "X"}; }
    assert {"C", "T"} != {"T", "X"} by { assert "C" !in {"T", "X"}; }
  }

  /**
   * Details that repeat subtopic labels can join every pair of five labels:
   * the complete graph on five nodes, which has no planar drawing.
   */
  lemma CollisionsCanBuildCompleteGraph()
    ensures var g := Build("a", [("b", ["c", "d", "e"]), ("c", ["d", "e"]), ("d", ["e"]), ("e", [])]);
      && {"a", "b"} in g.edges && {"a", "c"} in g.edges && {"a", "d"} in g.edges && {"a", "e"} in g.edges
      && {"b", "c"} in g.edges && {"b", "d"} in g.edges && {"b", "e"} in g.edges
      && {"c", "d"} in g.edges && {"c", "e"} in g.edges
      && {"d", "e"} in g.edges
  {
    var subs := [("b", ["c", "d", "e"]), ("c", ["d", "e"]), ("d", ["e"]), ("e", [])];
    BuildShape("a", subs);
    assert {"a", subs[0].0} in Spokes("a", subs) && {"a", subs[1].0} in Spokes("a", subs);
    assert {"a", subs[2].0} in Spokes("a", subs) && {"a", subs[3].0} in Spokes("a", subs);
    assert {subs[0].0, subs[0].1[0]} in Leaves(subs) && {subs[0].0, subs[0].1[1]} in Leaves(subs);
    assert {subs[0].0, subs[0].1[2]} in Leaves(subs) && {subs[1].0, subs[1].1[0]} in Leaves(subs);
    assert {subs[1].0, subs[1].1[1]} in Leaves(subs) && {subs[2].0, subs[2].1[0]} in Leaves(subs);
  }

  // ---------------------------------------------------------------------
  // Worked inputs
  // ---------------------------------------------------------------------

  /** No subtopics: the central topic alone, kind Central, no edges. */
  lemma NoSubtopics(c: string)
    ensures Build(c, []).nodes == {c}
    ensures Build(c, []).kind == map[c := Central]
    ensures Build(c, []).edges == {}
    ensures IsTree(Build(c, []), c)
  {
    assert IsWalk(Build(c, []), [c]);
  }

  /** The `add_node` log of the worked two-subtopic input. */
  lemma ProjectWrites()
    ensures Writes("Project X", [("Design", ["UI", "API"]), ("Testing", ["Unit", "Integration"])])
         == [("Project X", Central), ("Design", Subtopic), ("UI", Detail), ("API", Detail),
             ("Testing", Subtopic), ("Unit", Detail), ("Integration", Detail)]
  {
    var subs := [("Design", ["UI", "API"]), ("Testing", ["Unit", "Integration"])];
    assert subs[..1] == [("Design", ["UI", "API"])] && subs[..1][..0] == [];
    assert DetailWrites(["UI", "API"]) == [("UI", Detail), ("API", Detail)];
    assert DetailWrites(["Unit", "Integration"]) == [("Unit", Detail), ("Integration", Detail)];
    assert Writes("Project X", subs[..1]) == [("Project X", Central), ("Design", Subtopic), ("UI", Detail), ("API", Detail)];
  }

  /** Two subtopics with two details each: seven nodes and six edges. */
  lemma ProjectExample()
    ensures |Build("Project X", [("Design", ["UI", "API"]), ("Testing", ["Unit", "Integration"])]).nodes| == 7
    ensures |Build("Project X", [("Design", ["UI", "API"]), ("Testing", ["Unit", "Integration"])]).edges| == 6
    ensures IsTree(Build("Project X", [("Design", ["UI", "API"]), ("Testing", ["Unit", "Integration"])]), "Project X")
  {
    var subs := [("Design", ["UI", "API"]), ("Testing", ["Unit", "Integration"])];
    ProjectWrites();
    var w := Writes("Project X", subs);
    assert DistinctWrites(w) by {
      // The seven labels have seven different lengths.
      assert |w[0].0| == 9 && |w[1].0| == 6 && |w[2].0| == 2 && |w[3].0| == 3;
      assert |w[4].0| == 7 && |w[5].0| == 4 && |w[6].0| == 11;
      forall a, b | 0 <= a < b < |w| ensures w[a].0 != w[b].0 {
        assert |w[a].0| != |w[b].0|;
      }
    }
    DistinctTree("Project X", subs);
    NodeCountIffDistinct("Project X", subs);
  }
}
