# Mind-map builder and render selection, modelled in Dafny

This project models the core of the mind-map generator (`mind_map/mind_map_app.py`):

- `create_mind_map` builds an undirected graph from a central topic and an ordered
  dictionary of subtopics, each with a list of details. The central topic becomes a
  node of kind `central`. Each subtopic becomes a node of kind `subtopic` joined to the
  central topic. Each detail becomes a node of kind `detail` joined to its subtopic.
  Nodes are identified by their label. Adding a label again keeps one node and
  overwrites its `type` attribute. Adding an edge again, in either direction, keeps one
  edge.
- `visualize_mind_map` has three pieces of selection logic. It maps a style name to one
  of four layouts, with spring as the fallback. It splits the nodes into three lists by
  their `type`. It draws each list with its own colour option and size (1.0, 0.8 or 0.6
  times the base size). The central and subtopic passes use their marker option; the
  detail pass has none and uses the library's default marker.

Files:

- `graph.dfy` (module `Graph`): the graph as a value (`Snapshot`) and as an object
  (`UndirectedGraph`, whose `AddNode` and `AddEdge` change its fields in place). It also
  holds walks, connectivity and the tree predicate. An edge is the set of its end
  points, so `{u, v} == {v, u}` and a self-loop is the singleton `{u}`.
- `builder.dfy` (module `Builder`): the imperative `CreateMindMap`, with the nested loops
  of the source. `Build` is the reference definition it is proved against. The module
  also gives closed-form descriptions of the result and the log of `add_node` calls
  (`Writes`).
- `properties.dfy` (module `BuildProperties`): which kind each node ends with, node
  counts, connectivity, the tree shape when labels are distinct, and what label
  collisions do.
- `render.dfy` (module `Render`): layout dispatch, the partition by kind, and the
  per-kind node style.

The subtopic dictionary is a sequence of `(label, details)` pairs in the dictionary's
iteration order. That order decides which kind wins when labels collide. A Python
dictionary cannot repeat a key. The model does not require distinct keys, and every
lemma holds for all sequences.

What the source does when labels repeat, and what the model proves about it:

- `add_node` is called unconditionally for every subtopic and detail, so a label
  already present keeps one node and has its `type` overwritten. The kind of each
  node is the one written by the last `add_node` for its label (`KindIsLastWrite`).
- Pairwise distinct labels are sufficient for a tree rooted at the central topic
  (`DistinctLabelsGiveTree`), and they are exactly the condition for the full node
  count (`NodeCountIffDistinct`). They are not necessary for a tree: a detail
  repeated under one subtopic merges into one node and one edge, and the result is
  still a tree (`RepeatedDetailStillTree`). That input arises from the widget script
  when two detail boxes of one subtopic are left blank. Some collisions do rule out a
  tree. A subtopic carrying the central label makes a self-loop
  (`SubtopicNamedLikeCentralLoops`). So does a detail carrying its own subtopic's label
  (`DetailNamedLikeSubtopicLoops`). The widget's blank inputs reach the build as the
  subtopic "" with the details "" and "", and so give the self-loop {""}
  (`BlankInputLoops`). A detail shared by two subtopics closes a cycle when it differs
  from the central label and from both subtopics; this is shown for one input
  (`SharedDetailMakesCycle`). A shared detail equal to the central label only repeats
  the spokes.
- "Planar" always selects `planar_layout`, with no fallback to another layout
  (`SelectLayout`). Repeated labels can produce the complete graph on five nodes
  (`CollisionsCanBuildCompleteGraph`), and that graph has no planar drawing.
- The graph is connected from the central topic for every input, collisions included
  (`AlwaysConnected`).

Running the build twice on the same input gives the same graph, because
`CreateMindMap` ensures its result equals the function `Build` of its inputs.

## Model

| member | source | states |
|---|---|---|
| `Graph.UndirectedGraph.constructor` | mind_map/mind_map_app.py:8 | `nx.Graph()` starts with no nodes, no attributes and no edges |
| `Graph.UndirectedGraph.AddNode` | mind_map/mind_map_app.py:15 | adding a node keeps one node per label, sets its kind (last write wins) and leaves the edges alone |
| `Graph.UndirectedGraph.AddEdge` | mind_map/mind_map_app.py:16 | adding an edge adds the unordered pair and any absent end point, without an attribute; kinds are unchanged |
| `Graph.EdgeIsUnordered` | mind_map/mind_map_app.py:20 | adding edge v-u is the same as adding u-v |
| `Graph.EdgeAddedOnce` | mind_map/mind_map_app.py:16 | adding an edge that is present, in either direction, changes nothing |
| `Graph.NodeLastWriteWins` | mind_map/mind_map_app.py:19 | re-adding a label keeps one node, and the second kind replaces the first |
| `Graph.AttachKeepsConnected` | mind_map/mind_map_app.py:15-16 | adding a child node and its edge to a reachable parent keeps every node reachable from the root |
| `Graph.AttachKeepsTree` | mind_map/mind_map_app.py:19-20 | attaching a fresh child to a tree node gives a tree with one more node and one more edge |
| `Builder.Build` | mind_map/mind_map_app.py:7-22 | the functional form of `create_mind_map`: the central `add_node`, then per subtopic an `add_node` and the edge to the centre, then the inner loop over its details; the central topic is always a node with an attribute |
| `Builder.AddDetails` | mind_map/mind_map_app.py:18-20 | the inner loop over one subtopic's details; it only adds nodes, edges and attributes, never removes one |
| `Builder.Writes` | mind_map/mind_map_app.py:11-19 | the log of `add_node` calls in call order: one per subtopic and one per detail after the central topic's, so 1 + subtopics + details writes, the first being (central, Central) |
| `Builder.CreateMindMap` | mind_map/mind_map_app.py:7-22 | the nested loops build exactly `Build(c, subs)`. Nodes are the central label, every subtopic label and every detail. Edges are central-subtopic for each subtopic and subtopic-detail for each detail. Every node has a kind |
| `Builder.AddDetailsShape` | mind_map/mind_map_app.py:18-20 | the inner loop adds each detail as a node of kind detail with an edge to its subtopic, and leaves every other node's kind alone |
| `Builder.BuildShape` | mind_map/mind_map_app.py:11-20 | for every input, the nodes are {central} plus the subtopic labels plus the details, and the edges are the central-subtopic spokes plus the subtopic-detail leaves. Every node has a kind and every edge joins nodes |
| `BuildProperties.KindIsLastWrite` | mind_map/mind_map_app.py:11-19 | the nodes are exactly the labels passed to `add_node`, and each node's kind is the one written by the last `add_node` for its label |
| `BuildProperties.CentralKeepsKindIff` | mind_map/mind_map_app.py:11-19 | the central topic keeps kind central if and only if no subtopic and no detail carries its label |
| `BuildProperties.AtMostOneCentral` | mind_map/mind_map_app.py:11 | no node other than the central topic can have kind central |
| `BuildProperties.DetailEqualToCentral` | mind_map/mind_map_app.py:19 | when the last detail of the last subtopic carries the central label, that is the last `add_node` call and the central node ends with kind detail (a later subtopic of the same label would win instead) |
| `BuildProperties.DetailEqualToCentralExample` | mind_map/mind_map_app.py:11-19 | central "Topic" with subtopic "Part" whose one detail is "Topic" gives the two nodes {Topic, Part}, and Topic has kind detail |
| `BuildProperties.RepeatedDetailStillTree` | mind_map/mind_map_app.py:18-20 | the labels of central "C" with subtopic "S" and details "X", "X" are not distinct, yet the build has the nodes {C, S, X} and is a tree |
| `BuildProperties.NodeCountIffDistinct` | mind_map/mind_map_app.py:7-22 | the node count is at most 1 + number of subtopics + number of details, with equality if and only if all labels are pairwise distinct |
| `BuildProperties.AlwaysConnected` | mind_map/mind_map_app.py:14-20 | for every input, every node is reachable from the central topic |
| `BuildProperties.DistinctLabelsGiveTree` | mind_map/mind_map_app.py:7-22 | with pairwise distinct labels, the result is a tree rooted at the central topic with 1 + subtopics + details nodes and one edge fewer. The central topic is the only central node. Each subtopic has kind subtopic and an edge to the centre. Each detail has kind detail and its only edge goes to its own subtopic |
| `BuildProperties.SubtopicNamedLikeCentralLoops` | mind_map/mind_map_app.py:16 | a subtopic labelled like the central topic creates a self-loop, so the result is not a tree |
| `BuildProperties.SelfLoopExample` | mind_map/mind_map_app.py:11-16 | central "A" with the one subtopic "A" gives one node, kind subtopic, with one self-loop |
| `BuildProperties.DetailNamedLikeSubtopicLoops` | mind_map/mind_map_app.py:18-20 | for every input, a detail equal to its own subtopic's label puts the self-loop on that subtopic among the edges, so the result is not a tree |
| `BuildProperties.BlankInputLoops` | mind_map/mind_map_app.py:69-82 | the blank widget inputs, central "Central Idea" with subtopic "" and details "", "", give the self-loop {""}, so the result is not a tree |
| `BuildProperties.SharedDetailMakesCycle` | mind_map/mind_map_app.py:18-20 | central "C" with subtopics "S" and "T" both having the detail "X" gives four nodes and four edges, the cycle C-S-X-T, so not a tree |
| `BuildProperties.CollisionsCanBuildCompleteGraph` | mind_map/mind_map_app.py:14-20 | details that repeat subtopic labels can join all ten pairs of five labels, which is a non-planar graph |
| `BuildProperties.NoSubtopics` | mind_map/mind_map_app.py:8-11 | an empty subtopic dictionary gives exactly one node, the central topic with kind central, and no edges |
| `BuildProperties.ProjectExample` | mind_map/mind_map_app.py:7-22 | two subtopics with two details each give 7 nodes and 6 edges, forming a tree |
| `Render.SelectLayout` | mind_map/mind_map_app.py:27-36 | "Circular", "Shell" and "Planar" each select their own layout; every other name, "Spring" included, selects spring |
| `Render.SelectLayoutRoundTrip` | mind_map/mind_map_app.py:87 | every layout is offered in the select box, and its name selects it |
| `Render.ChoicesSelectDistinctLayouts` | mind_map/mind_map_app.py:87 | the four offered names select four different layouts |
| `Render.PartitionByKind` | mind_map/mind_map_app.py:41-43 | the three comprehensions fail if and only if some node has no `type`. Otherwise the central, subtopic and detail lists are pairwise disjoint, together hold every node, and each holds only nodes of its kind |
| `Render.PartitionOfRoles` | mind_map/mind_map_app.py:41-43 | a graph whose nodes carry the mind-map roles splits into {central}, the subtopics and the details |
| `Render.BuiltMindMapPartition` | mind_map/mind_map_app.py:41-43 | the partition of a built mind map never fails, and its central list holds at most the central topic. With distinct labels the lists are exactly {central}, the subtopics and the details |
| `Render.PassStyle` | mind_map/mind_map_app.py:45-47 | each pass draws with its own colour option; the central pass uses its marker option and the base size; the subtopic pass uses its marker option and 0.8 times the base size; the detail pass uses the default marker and 0.6 times the base size. For a positive base size every pass draws at a positive size no larger than the base, and only the central pass draws at the base size |
| `Render.PassSizesShrinkWithDepth` | mind_map/mind_map_app.py:45-47 | the central pass draws at the base size, subtopics at 4/5 and details at 3/5 of it, strictly decreasing. The detail marker is the fixed default |
| `Render.DrawnStyles` | mind_map/mind_map_app.py:41-47 | when the partition succeeds, every node is drawn exactly once, with the style of its kind's pass |
| `Render.BuiltMindMapSizes` | mind_map/mind_map_app.py:45-47 | with distinct labels, the central topic is drawn at the base size, each subtopic at 0.8 times it and each detail at 0.6 times it |

## Left out

- The layout algorithms (spring, circular, shell, planar) at mind_map/mind_map_app.py:28-36: their geometry is floating-point library code. Only which one is selected is modelled. A failure of the planar layout is not modelled either.
- The drawing of edges (fixed colour, chosen width) and of labels (chosen font size), the figure, the title and `savefig` at mind_map/mind_map_app.py:38-62: these are image output through the plotting library.
- The PNG, JPG and PDF download buffers at mind_map/mind_map_app.py:107-140: these are image encoding and user-interface output.
- The Streamlit widget script at mind_map/mind_map_app.py:65-146: this is user-interface input. The model takes the subtopic sequence as given. Line 82 assigns into a dictionary, so a repeated subtopic label (several empty inputs, for instance) keeps only the last entry's details; that dictionary-building step is not modelled.
- Render.PartitionByKind: the source's lists are in node-insertion order. The model gives sets, so the drawing order within a pass is not captured.
- Render.PassStyle: `node_size * 0.8` and `* 0.6` are floating-point products in the source. The model uses exact reals (4/5 and 3/5), so rounding is not captured.
- dashboard_generator/dashboard_app.py: CSV loading, charting, query filtering and its user interface are glue over pandas, seaborn and Streamlit.
- Word Cloud/word_cloud_app.py is not part of this model.
