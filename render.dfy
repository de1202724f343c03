/**
 * The selection logic of `visualize_mind_map`: which layout a style name
 * picks, which nodes each of the three node passes draws, and the colour,
 * size and marker each pass uses. The layout geometry and the drawing
 * itself are not modelled.
 */
module Render {
  import opened Graph
  import opened Builder
  import opened BuildProperties

  datatype Option<T> = None | Some(value: T)

  /** The four layout functions the drawing can use. */
  datatype Layout = SpringLayout | CircularLayout | ShellLayout | PlanarLayout

  /** The names the layout select box offers. */
  const LayoutChoices: seq<string> := ["Spring", "Circular", "Shell", "Planar"]

  /** The if/elif chain on the style name; any name it does not list falls back to spring. */
  function SelectLayout(style: string): (l: Layout)
    ensures l == CircularLayout <==> style == "Circular"
    ensures l == ShellLayout <==> style == "Shell"
    ensures l == PlanarLayout <==> style == "Planar"
    ensures l == SpringLayout <==> style != "Circular" && style != "Shell" && style != "Planar"
  {
    if style == "Spring" then SpringLayout
    else if style == "Circular" then CircularLayout
    else if style == "Shell" then ShellLayout
    else if style == "Planar" then PlanarLayout
    else SpringLayout
  }

  /** The select-box name of each layout. */
  function LayoutName(l: Layout): string
  {
    match l
    case SpringLayout => "Spring"
    case CircularLayout => "Circular"
    case ShellLayout => "Shell"
    case PlanarLayout => "Planar"
  }

  /** Each offered name selects its own layout, and every layout is offered. */
  lemma SelectLayoutRoundTrip(l: Layout)
    ensures LayoutName(l) in LayoutChoices
    ensures SelectLayout(LayoutName(l)) == l
  {
  }

  /** The four offered names select four different layouts. */
  lemma ChoicesSelectDistinctLayouts()
    ensures forall a, b :: 0 <= a < b < |LayoutChoices| ==>
              SelectLayout(LayoutChoices[a]) != SelectLayout(LayoutChoices[b])
  {
  }

  /** The node lists of the three node passes. */
  datatype NodeLists = NodeLists(central: set<string>, subtopic: set<string>, detail: set<string>)

  /**
   * The three comprehensions over the nodes and their `type` attribute.
   * Reading the attribute of a node that has none fails (None).
   */
  function PartitionByKind(g: Snapshot): (r: Option<NodeLists>)
    ensures r.None? <==> exists n :: n in g.nodes && n !in g.kind
    ensures r.Some? ==> r.value.central + r.value.subtopic + r.value.detail == g.nodes
    ensures r.Some? ==> r.value.central !! r.value.subtopic && r.value.central !! r.value.detail
                        && r.value.subtopic !! r.value.detail
    ensures r.Some? ==> forall n :: n in r.value.central ==> g.kind[n] == Central
    ensures r.Some? ==> forall n :: n in r.value.subtopic ==> g.kind[n] == Subtopic
    ensures r.Some? ==> forall n :: n in r.value.detail ==> g.kind[n] == Detail
  {
    if !(g.nodes <= g.kind.Keys) then None
    else
      Some(NodeLists(
        set n | n in g.nodes && g.kind[n] == Central,
        set n | n in g.nodes && g.kind[n] == Subtopic,
        set n | n in g.nodes && g.kind[n] == Detail))
  }

  /** A graph whose nodes carry the roles of a mind map splits into those roles. */
  lemma PartitionOfRoles(g: Snapshot, c: string, subs: Subtopics)
    requires g.nodes == {c} + SubtopicLabels(subs) + DetailLabels(subs) && g.kind.Keys == g.nodes
    requires RolesMatch(g, c, subs)
    ensures PartitionByKind(g) == Some(NodeLists({c}, SubtopicLabels(subs), DetailLabels(subs)))
  {
    forall n | n in SubtopicLabels(subs) ensures g.kind[n] == Subtopic {
      var i :| 0 <= i < |subs| && subs[i].0 == n;
    }
    forall n | n in DetailLabels(subs) ensures g.kind[n] == Detail {
      var i, j :| 0 <= i < |subs| && 0 <= j < |subs[i].1| && subs[i].1[j] == n;
    }
    var r := PartitionByKind(g).value;
    assert r.central == {c};
    assert r.subtopic == SubtopicLabels(subs);
    assert r.detail == DetailLabels(subs);
  }

  /**
   * The partition of a built mind map never fails, and only the central
   * topic can be in the central pass. With distinct labels the passes are
   * exactly {central}, the subtopics and the details.
   */
  lemma BuiltMindMapPartition(c: string, subs: Subtopics)
    ensures PartitionByKind(Build(c, subs)).Some?
    ensures PartitionByKind(Build(c, subs)).value.central <= {c}
    ensures DistinctLabels(c, subs) ==>
              PartitionByKind(Build(c, subs)) == Some(NodeLists({c}, SubtopicLabels(subs), DetailLabels(subs)))
  {
    BuildShape(c, subs);
    AtMostOneCentral(c, subs);
    if DistinctLabels(c, subs) {
      DistinctRoles(c, subs);
      PartitionOfRoles(Build(c, subs), c, subs);
    }
  }

  /** The side-bar options the node passes read. */
  datatype NodeOptions = NodeOptions(
    centralColor: string, subtopicColor: string, detailColor: string,
    centralShape: string, subtopicShape: string, nodeSize: int)

  /** How one pass draws its nodes. */
  datatype NodeStyle = NodeStyle(color: string, size: real, shape: string)

  /** The marker the drawing library uses when none is given (the detail pass gives none). */
  const DefaultShape: string := "o"

  /**
   * The style of the pass for kind `k`: its colour and marker options, at
   * the base size for the central pass and a smaller one for the others.
   */
  function PassStyle(o: NodeOptions, k: Kind): (r: NodeStyle)
    ensures o.nodeSize > 0 ==> 0.0 < r.size <= o.nodeSize as real
    ensures r.size == o.nodeSize as real <==> k == Central || o.nodeSize == 0
  {
    match k
    case Central => NodeStyle(o.centralColor, o.nodeSize as real, o.centralShape)
    case Subtopic => NodeStyle(o.subtopicColor, o.nodeSize as real * 0.8, o.subtopicShape)
    case Detail => NodeStyle(o.detailColor, o.nodeSize as real * 0.6, DefaultShape)
  }

  /**
   * For a positive base size, central nodes are drawn at the base size,
   * subtopics at four fifths and details at three fifths of it, so larger
   * for nodes nearer the root; the detail marker ignores the options.
   */
  lemma PassSizesShrinkWithDepth(o: NodeOptions)
    requires o.nodeSize > 0
    ensures PassStyle(o, Central).size == o.nodeSize as real
    ensures 5.0 * PassStyle(o, Subtopic).size == 4.0 * PassStyle(o, Central).size
    ensures 5.0 * PassStyle(o, Detail).size == 3.0 * PassStyle(o, Central).size
    ensures PassStyle(o, Central).size > PassStyle(o, Subtopic).size > PassStyle(o, Detail).size > 0.0
    ensures PassStyle(o, Detail).shape == DefaultShape
  {
  }

  /**
   * The style every node is drawn with: the style of the one pass whose
   * list holds it. None when the partition fails.
   */
  function DrawnStyles(g: Snapshot, o: NodeOptions): (r: Option<map<string, NodeStyle>>)
    ensures r.None? <==> PartitionByKind(g).None?
    ensures r.Some? ==> r.value.Keys == g.nodes
    ensures r.Some? ==> forall n :: n in g.nodes ==> n in g.kind && r.value[n] == PassStyle(o, g.kind[n])
  {
    match PartitionByKind(g)
    case None => None
    case Some(lists) =>
      Some((map n | n in lists.central :: PassStyle(o, Central))
           + (map n | n in lists.subtopic :: PassStyle(o, Subtopic))
           + (map n | n in lists.detail :: PassStyle(o, Detail)))
  }

  /**
   * With distinct labels, a built mind map draws the central topic at the
   * base size, each subtopic at 0.8 times and each detail at 0.6 times it.
   */
  lemma BuiltMindMapSizes(c: string, subs: Subtopics, o: NodeOptions)
    requires DistinctLabels(c, subs)
    ensures DrawnStyles(Build(c, subs), o).Some?
    ensures c in DrawnStyles(Build(c, subs), o).value
    ensures DrawnStyles(Build(c, subs), o).value[c].size == o.nodeSize as real
    ensures forall i :: 0 <= i < |subs| ==>
              subs[i].0 in DrawnStyles(Build(c, subs), o).value
              && DrawnStyles(Build(c, subs), o).value[subs[i].0].size == o.nodeSize as real * 0.8
    ensures forall i, j :: 0 <= i < |subs| && 0 <= j < |subs[i].1| ==>
              subs[i].1[j] in DrawnStyles(Build(c, subs), o).value
              && DrawnStyles(Build(c, subs), o).value[subs[i].1[j]].size == o.nodeSize as real * 0.6
  {
    BuiltMindMapPartition(c, subs);
    DistinctLabelsGiveTree(c, subs);
    BuildShape(c, subs);
    var g := Build(c, subs);
    var m := DrawnStyles(g, o).value;
    forall i | 0 <= i < |subs| ensures subs[i].0 in m && m[subs[i].0].size == o.nodeSize as real * 0.8 {
      assert subs[i].0 in SubtopicLabels(subs);
    }
    forall i, j | 0 <= i < |subs| && 0 <= j < |subs[i].1|
      ensures subs[i].1[j] in m && m[subs[i].1[j]].size == o.nodeSize as real * 0.6
    {
      assert subs[i].1[j] in DetailLabels(subs);
    }
  }
}
