/**
  The linked-list panel: lays the nodes out in a row, draws one arrow between
  neighbours, labels each node's pointer and places the HEAD and TAIL markers.
  All of it is a function of the node list, the current visual step and the
  traversal index.
 */
module LinkedListVisualization {
  import opened Wrappers
  import opened Text

  /** What the attempt last asked the panel to show. */
  datatype VisualStep = Idle | Create | Assign | Link | Traverse

  const NodeWidth: int := 100
  const NodeHeight: int := 60
  const Gap: int := 80
  const FirstX: int := 50
  const RowY: int := 120

  /** One laid-out node; `D` is the type of the data shown inside it. */
  datatype VisualNode<D> = VisualNode(id: string, data: D, x: int, y: int, isNew: bool, isTraversing: bool)

  /** An arrow from one node to the next. `highlighted` is the `connection-line` class. */
  datatype Segment = Segment(x1: int, y1: int, x2: int, y2: int, highlighted: bool)

  datatype PointerLabel = NextArrow | NullPointer

  datatype Point = Point(left: int, top: int)

  /** Everything the panel draws. */
  datatype View<D> = View(
    nodes: seq<VisualNode<D>>,
    segments: seq<Segment>,
    labels: seq<PointerLabel>,
    head: Option<Point>,
    tail: Option<Point>,
    emptyState: bool)

  function NodeId(i: nat): string
  {
    "node-" + Show(i)
  }

  /** The node at position `i` of a list of `n` nodes. */
  function PlaceNode<D>(data: D, i: nat, n: nat, step: VisualStep, traverseIndex: int): VisualNode<D>
  {
    VisualNode(NodeId(i), data, FirstX + i * (NodeWidth + Gap), RowY,
               i == n - 1 && step == Create,
               step == Traverse && i == traverseIndex)
  }

  /** The `nodes.map(...)` of the panel's effect. */
  function Layout<D>(nodes: seq<D>, step: VisualStep, traverseIndex: int): (vs: seq<VisualNode<D>>)
    ensures |vs| == |nodes|
    ensures forall i :: 0 <= i < |vs| ==> vs[i].data == nodes[i] && vs[i].id == NodeId(i) && vs[i].y == RowY
  {
    seq(|nodes|, i requires 0 <= i < |nodes| => PlaceNode(nodes[i], i, |nodes|, step, traverseIndex))
  }

  /** Nodes sit left to right in list order, one node width plus one gap apart. */
  lemma LayoutSpacing<D>(nodes: seq<D>, step: VisualStep, traverseIndex: int, i: nat, j: nat)
    requires i < j < |nodes|
    ensures Layout(nodes, step, traverseIndex)[0].x == FirstX
    ensures Layout(nodes, step, traverseIndex)[i].x < Layout(nodes, step, traverseIndex)[j].x
    ensures Layout(nodes, step, traverseIndex)[j].x - Layout(nodes, step, traverseIndex)[i].x == (j - i) * (NodeWidth + Gap)
  {
    var vs := Layout(nodes, step, traverseIndex);
    assert vs[j].x - vs[i].x == (j - i) * (NodeWidth + Gap);
  }

  /** No two nodes get the same id, so the renderer's keys are unique. */
  lemma LayoutIdsDistinct<D>(nodes: seq<D>, step: VisualStep, traverseIndex: int, i: nat, j: nat)
    requires i < j < |nodes|
    ensures Layout(nodes, step, traverseIndex)[i].id != Layout(nodes, step, traverseIndex)[j].id
  {
    var vs := Layout(nodes, step, traverseIndex);
    if vs[i].id == vs[j].id {
      PrefixedShowInjective("node-", i, j);
    }
  }

  function NewIndices<D>(vs: seq<VisualNode<D>>): set<int>
  {
    set i | 0 <= i < |vs| && vs[i].isNew
  }

  function TraversingIndices<D>(vs: seq<VisualNode<D>>): set<int>
  {
    set i | 0 <= i < |vs| && vs[i].isTraversing
  }

  /** Only the last node can be marked new, and only while the step is `create`. */
  lemma AtMostLastIsNew<D>(nodes: seq<D>, step: VisualStep, traverseIndex: int)
    ensures NewIndices(Layout(nodes, step, traverseIndex)) ==
      if step == Create && |nodes| > 0 then {|nodes| - 1} else {}
  {
    var vs := Layout(nodes, step, traverseIndex);
    if step == Create && |nodes| > 0 {
      assert vs[|nodes| - 1].isNew;
    }
  }

  /**
    At most one node is highlighted by a traversal: the one at `traverseIndex`,
    while the step is `traverse` and the index names a node (never for -1).
   */
  lemma AtMostOneTraversing<D>(nodes: seq<D>, step: VisualStep, traverseIndex: int)
    ensures TraversingIndices(Layout(nodes, step, traverseIndex)) ==
      if step == Traverse && 0 <= traverseIndex < |nodes| then {traverseIndex} else {}
  {
    var vs := Layout(nodes, step, traverseIndex);
    if step == Traverse && 0 <= traverseIndex < |nodes| {
      assert vs[traverseIndex].isTraversing;
    }
  }

  /** The arrows: one per node except the last (the source maps the last one to `null`). */
  function Connections<D>(vs: seq<VisualNode<D>>, step: VisualStep): (segs: seq<Segment>)
    ensures |segs| == if |vs| == 0 then 0 else |vs| - 1
  {
    if |vs| <= 1 then
      []
    else
      seq(|vs| - 1, i requires 0 <= i < |vs| - 1 =>
        Segment(vs[i].x + NodeWidth, vs[i].y + NodeHeight / 2,
                vs[i + 1].x, vs[i + 1].y + NodeHeight / 2,
                step == Link && i == |vs| - 2))
  }

  /**
    For a laid-out row, arrow `i` runs horizontally at mid-height from the right
    edge of node `i` to the left edge of node `i + 1`, spanning exactly the gap;
    only the newest arrow is highlighted, and only on a `link` step.
   */
  lemma ConnectionsJoinNeighbours<D>(nodes: seq<D>, step: VisualStep, traverseIndex: int, i: nat)
    requires i + 1 < |nodes|
    ensures var vs := Layout(nodes, step, traverseIndex);
      var s := Connections(vs, step)[i];
      && s.x1 == vs[i].x + NodeWidth && s.x2 == vs[i + 1].x
      && s.y1 == s.y2 == RowY + NodeHeight / 2
      && s.x2 - s.x1 == Gap
      && (s.highlighted <==> step == Link && i == |nodes| - 2)
  {
  }

  /** Consecutive arrows do not overlap: each ends before the next one starts. */
  lemma ConnectionsDisjoint<D>(nodes: seq<D>, step: VisualStep, traverseIndex: int, i: nat)
    requires i + 2 < |nodes|
    ensures var segs := Connections(Layout(nodes, step, traverseIndex), step);
      segs[i].x2 < segs[i + 1].x1
  {
  }

  function PointerLabels<D>(vs: seq<VisualNode<D>>): (ls: seq<PointerLabel>)
    ensures |ls| == |vs|
    ensures NullPointer in ls <==> vs != []
    ensures forall i :: 0 <= i < |ls| - 1 ==> ls[i] == NextArrow
  {
    var ls := seq(|vs|, i requires 0 <= i < |vs| => if i < |vs| - 1 then NextArrow else NullPointer);
    assert vs != [] ==> ls[|vs| - 1] == NullPointer;
    ls
  }

  /** Exactly the last node's pointer reads `null`; every other reads `next →`. */
  lemma OnlyLastPointsToNull<D>(vs: seq<VisualNode<D>>)
    ensures forall i :: 0 <= i < |vs| ==> (PointerLabels(vs)[i] == NullPointer <==> i == |vs| - 1)
  {
  }

  function HeadMarker<D>(vs: seq<VisualNode<D>>): (p: Option<Point>)
    ensures p.Some? <==> vs != []
    ensures p.Some? ==> p.value.top + 50 == RowY && p.value.left + 20 == FirstX + NodeWidth / 2
  {
    if |vs| > 0 then Some(Point(FirstX + NodeWidth / 2 - 20, 70)) else None
  }

  function TailMarker<D>(vs: seq<VisualNode<D>>): (p: Option<Point>)
    ensures p.Some? <==> vs != []
    ensures p.Some? ==> p.value.top == RowY + NodeHeight + 20 && p.value.left + 15 == vs[|vs| - 1].x + NodeWidth / 2
  {
    if |vs| > 0 then Some(Point(vs[|vs| - 1].x + NodeWidth / 2 - 15, 200)) else None
  }

  /** The panel's full output for one render. */
  function Render<D>(nodes: seq<D>, step: VisualStep, traverseIndex: int): (v: View<D>)
    ensures v.nodes == Layout(nodes, step, traverseIndex)
    ensures |v.segments| == |v.labels| - 1 || (nodes == [] && v.segments == [])
    ensures v.emptyState <==> v.head.None?
    ensures v.head.Some? <==> v.tail.Some?
  {
    var vs := Layout(nodes, step, traverseIndex);
    View(vs, Connections(vs, step), PointerLabels(vs), HeadMarker(vs), TailMarker(vs), |vs| == 0)
  }

  /**
    HEAD and TAIL are drawn exactly when the list is non-empty and the empty-state
    placeholder exactly when it is empty; HEAD is centred (less its 20-pixel
    offset) over the first node and TAIL (less 15) over the last.
   */
  lemma MarkersIffNonEmpty<D>(nodes: seq<D>, step: VisualStep, traverseIndex: int)
    ensures var v := Render(nodes, step, traverseIndex);
      && (v.head.Some? <==> |nodes| > 0)
      && (v.tail.Some? <==> |nodes| > 0)
      && (v.emptyState <==> |nodes| == 0)
      && (|nodes| > 0 ==> v.head.value.left + 20 == v.nodes[0].x + NodeWidth / 2)
      && (|nodes| > 0 ==> v.tail.value.left + 15 == v.nodes[|nodes| - 1].x + NodeWidth / 2)
  {
  }
}
