/** The drag-and-reposition logic of src/screens/HomeScreen.tsx, with the four
    sizes from its constants module taken as a parameter: the next-state
    functions of the two drag handlers, the geometry the renderer derives from
    the node list, and the view state that the handlers replace wholesale. */
module HomeScreen {
  import opened Utils

  /** PARENT_WIDTH, PARENT_HEIGHT, CHILD_WIDTH and CHILD_HEIGHT. */
  datatype Sizes = Sizes(parentWidth: real, parentHeight: real, childWidth: real, childHeight: real)
  {
    /** A child rectangle is no larger than its container. */
    predicate Valid()
    {
      childWidth <= parentWidth && childHeight <= parentHeight
    }
  }

  /** The fields of a d3 drag event that the handlers read: the pointer
      position and its movement since the previous event. */
  datatype DragEvent = DragEvent(x: real, y: real, dx: real, dy: real)

  /** `Math.min`. */
  function Min(a: real, b: real): real
  {
    if a <= b then a else b
  }

  // ---------------------------------------------------------------------
  // Parent drag
  // ---------------------------------------------------------------------

  /** The list `onParentDrag` stores: the node whose id is `id` moves to the
      pointer position, every other node is kept. */
  function MoveParent(nodes: seq<NodeType>, id: string, ev: DragEvent): (r: seq<NodeType>)
    ensures |r| == |nodes|
    ensures forall k :: 0 <= k < |nodes| && nodes[k].id == id ==>
              r[k] == nodes[k].(x := Num(ev.x), y := Num(ev.y))
    ensures forall k :: 0 <= k < |nodes| && nodes[k].id != id ==> r[k] == nodes[k]
  {
    if |nodes| == 0 then []
    else
      var node := nodes[0];
      [if node.id == id then node.(x := Num(ev.x), y := Num(ev.y)) else node]
        + MoveParent(nodes[1..], id, ev)
  }

  // ---------------------------------------------------------------------
  // Child drag
  // ---------------------------------------------------------------------

  /** `-(i * CHILD_WIDTH)`: how far left of the container's origin the child
      in slot `i` may go. */
  function XFloor(s: Sizes, i: nat): real
  {
    -((i as real) * s.childWidth)
  }

  /** `PARENT_WIDTH - (i + 1) * CHILD_WIDTH`: how far right the child in slot
      `i` may be moved by a delta. */
  function XCap(s: Sizes, i: nat): real
  {
    s.parentWidth - ((i + 1) as real) * s.childWidth
  }

  /** `PARENT_HEIGHT - CHILD_HEIGHT`. */
  function YCap(s: Sizes): real
  {
    s.parentHeight - s.childHeight
  }

  /** The window of x offsets is never empty when a child fits its container. */
  lemma FloorBelowCap(s: Sizes, i: nat)
    ensures s.Valid() ==> XFloor(s, i) <= XCap(s, i) && 0.0 <= YCap(s)
  {
    assert ((i + 1) as real) * s.childWidth == (i as real) * s.childWidth + s.childWidth;
  }

  /** The new x of a matched child in slot `i`: the delta-moved position capped
      on the right, or the pointer x for a never-positioned child, then floored
      on the left. */
  function DraggedX(s: Sizes, c: ChildNodeType, i: nat, ev: DragEvent): (r: real)
    ensures XFloor(s, i) <= r
    ensures s.Valid() && c.x.Num? ==> r <= XCap(s, i)
    ensures c.x.Null? ==> r == if ev.x <= XFloor(s, i) then XFloor(s, i) else ev.x
  {
    var getX := if c.x.Num? then Min(c.x.n + ev.dx, XCap(s, i)) else ev.x;
    FloorBelowCap(s, i);
    if getX <= XFloor(s, i) then XFloor(s, i) else getX
  }

  /** The new y of a matched child: the delta-moved position capped at the
      bottom, or, for a never-positioned child, the pointer's x (as the source
      writes it), then floored at 0. */
  function DraggedY(s: Sizes, c: ChildNodeType, ev: DragEvent): (r: real)
    ensures 0.0 <= r
    ensures s.Valid() && c.y.Num? ==> r <= YCap(s)
    ensures c.y.Null? ==> r == if ev.x <= 0.0 then 0.0 else ev.x
  {
    var getY := if c.y.Num? then Min(c.y.n + ev.dy, YCap(s)) else ev.x;
    if getY <= 0.0 then 0.0 else getY
  }

  /** The child at index `i` of its container after a drag of `name`: a
      record with that name gets numeric coordinates inside its window, any
      other record is returned as it was. */
  function DragChild(s: Sizes, c: ChildNodeType, i: nat, name: string, ev: DragEvent): (r: ChildNodeType)
    ensures r.name == c.name
    ensures c.name != name ==> r == c
    ensures c.name == name ==> r.x.Num? && r.y.Num? && XFloor(s, i) <= r.x.n && 0.0 <= r.y.n
  {
    if c.name == name then c.(x := Num(DraggedX(s, c, i, ev)), y := Num(DraggedY(s, c, ev)))
    else c
  }

  /** `children.map((child, i) => ...)` over a container's inline records. */
  function DragChildren(s: Sizes, items: seq<ChildNodeType>, name: string, ev: DragEvent): (r: seq<ChildNodeType>)
    ensures |r| == |items|
    ensures forall i :: 0 <= i < |items| ==> r[i] == DragChild(s, items[i], i, name, ev)
  {
    if |items| == 0 then []
    else
      var last := |items| - 1;
      DragChildren(s, items[..last], name, ev) + [DragChild(s, items[last], last, name, ev)]
  }

  /** One node after a child drag: only its inline records can change; a node
      whose children are string ids keeps them. */
  function DragNode(s: Sizes, node: NodeType, name: string, ev: DragEvent): (r: NodeType)
    ensures r.id == node.id && r.x == node.x && r.y == node.y && r.name == node.name
    ensures r.Type() == node.Type() && r.ChildCount() == node.ChildCount()
    ensures node.props.ParentProps? ==> r == node
  {
    match node.props
    case ParentProps(_) => node
    case ChildProps(items) => node.(props := ChildProps(DragChildren(s, items, name, ev)))
  }

  /** The list `onChildDrag` stores: every node of the list, in every
      container, has its records labelled `name` moved. */
  function MoveChild(s: Sizes, nodes: seq<NodeType>, name: string, ev: DragEvent): (r: seq<NodeType>)
    ensures |r| == |nodes|
    ensures forall k :: 0 <= k < |nodes| ==> r[k] == DragNode(s, nodes[k], name, ev)
  {
    if |nodes| == 0 then []
    else [DragNode(s, nodes[0], name, ev)] + MoveChild(s, nodes[1..], name, ev)
  }

  // ---------------------------------------------------------------------
  // Geometry derived by the renderer
  // ---------------------------------------------------------------------

  /** The `x` attribute of the rectangle of the child at index `i`: its
      default slot when it has no x. */
  function RectX(s: Sizes, c: ChildNodeType, i: nat): (r: real)
    ensures c.x.Null? ==> r == (i as real) * s.childWidth && r + XFloor(s, i) == 0.0
    ensures c.x.Num? ==> r == c.x.n
  {
    if c.x.Null? then (i as real) * s.childWidth else c.x.n
  }

  /** The `y` attribute of a child's rectangle: 0 when it has no y. */
  function RectY(c: ChildNodeType): (r: real)
    ensures c.y.Null? ==> r == 0.0
    ensures c.y.Num? ==> r == c.y.n
  {
    if c.y.Null? then 0.0 else c.y.n
  }

  /** The translation of a node's group, reading null as 0. */
  function NodeTranslate(node: NodeType): (r: (real, real))
    ensures node.x.Null? ==> r.0 == 0.0
    ensures node.x.Num? ==> r.0 == node.x.n
    ensures node.y.Null? ==> r.1 == 0.0
    ensures node.y.Num? ==> r.1 == node.y.n
  {
    (OrZero(node.x), OrZero(node.y))
  }

  /** `nodes.flatMap(n => n.children)`, keeping the inline records only: the
      lookup by label is modelled for the child groups bound to records, not
      for those bound to the root's string ids. */
  function Flatten(nodes: seq<NodeType>): (r: seq<ChildNodeType>)
    ensures forall k, i :: 0 <= k < |nodes| && nodes[k].props.ChildProps? && 0 <= i < |nodes[k].props.items| ==>
              nodes[k].props.items[i] in r
  {
    if |nodes| == 0 then []
    else
      match nodes[0].props
      case ParentProps(_) => Flatten(nodes[1..])
      case ChildProps(items) => items + Flatten(nodes[1..])
  }

  /** `Array.prototype.find` by label: the index of the first record carrying
      `name`, if any. */
  function FindFirst(items: seq<ChildNodeType>, name: string): (r: Option<nat>)
    ensures r.Some? ==> r.value < |items| && items[r.value].name == name
    ensures r.Some? ==> forall j :: 0 <= j < r.value ==> items[j].name != name
    ensures r.None? ==> forall j :: 0 <= j < |items| ==> items[j].name != name
  {
    if |items| == 0 then None
    else if items[0].name == name then Some(0)
    else
      match FindFirst(items[1..], name)
      case None => None
      case Some(k) => Some(k + 1)
  }

  /** The translation of the child group labelled `name`: the coordinates of
      the first record with that name over all containers, or (0, 0) when
      there is none. A found record's null coordinate is passed on as null. */
  function ChildTranslate(nodes: seq<NodeType>, name: string): (r: (Coord, Coord))
    ensures var flat := Flatten(nodes);
      (forall j :: 0 <= j < |flat| ==> flat[j].name != name) ==> r == (Num(0.0), Num(0.0))
    ensures var flat := Flatten(nodes);
      forall j :: (0 <= j < |flat| && flat[j].name == name &&
                   forall j' :: 0 <= j' < j ==> flat[j'].name != name) ==> r == (flat[j].x, flat[j].y)
  {
    var flat := Flatten(nodes);
    match FindFirst(flat, name)
    case None => (Num(0.0), Num(0.0))
    case Some(j) => (flat[j].x, flat[j].y)
  }

  /** A connector line, from (x1, y1) to (x2, y2). */
  datatype Line = Line(x1: real, y1: real, x2: real, y2: real)

  /** The lines from an anchor point to the top of each node of `rest`; the
      end point is the node's x plus 150 and its y, null read as 0. */
  function LinesFrom(ax: real, ay: real, rest: seq<NodeType>): (r: seq<Line>)
    ensures |r| == |rest|
    ensures forall k :: 0 <= k < |rest| ==>
              r[k].x1 == ax && r[k].y1 == ay &&
              r[k].x2 == OrZero(rest[k].x) + 150.0 && r[k].y2 == OrZero(rest[k].y)
  {
    if |rest| == 0 then []
    else [Line(ax, ay, OrZero(rest[0].x) + 150.0, OrZero(rest[0].y))] + LinesFrom(ax, ay, rest[1..])
  }

  /** The links: one line per node after the first, each starting at the
      bottom centre of `nodes[0]`. */
  function Links(s: Sizes, nodes: seq<NodeType>): (r: seq<Line>)
    ensures |nodes| == 0 ==> r == []
    ensures |nodes| > 0 ==> |r| == |nodes| - 1
    ensures forall k :: 0 <= k < |r| ==>
              r[k].x1 == OrZero(nodes[0].x) + s.parentWidth / 2.0 &&
              r[k].y1 == OrZero(nodes[0].y) + s.parentHeight &&
              r[k].x2 == OrZero(nodes[k + 1].x) + 150.0 && r[k].y2 == OrZero(nodes[k + 1].y)
  {
    if |nodes| == 0 then []
    else LinesFrom(OrZero(nodes[0].x) + s.parentWidth / 2.0, OrZero(nodes[0].y) + s.parentHeight, nodes[1..])
  }

  // ---------------------------------------------------------------------
  // View state
  // ---------------------------------------------------------------------

  /** The component's `nodes` state; each drag handler replaces it wholesale
      with the list computed from the previous one. */
  class DiagramState {
    const sizes: Sizes
    var nodes: seq<NodeType>

    constructor (sizes: Sizes, initial: seq<NodeType>)
      requires sizes.Valid()
      ensures this.sizes == sizes && nodes == initial
    {
      this.sizes := sizes;
      nodes := initial;
    }

    /** `onParentDrag`. */
    method OnParentDrag(dragged: NodeType, ev: DragEvent)
      modifies this
      ensures nodes == MoveParent(old(nodes), dragged.id, ev)
    {
      nodes := MoveParent(nodes, dragged.id, ev);
    }

    /** `onChildDrag`, for a drag of the child group bound to `dragged`. */
    method OnChildDrag(dragged: ChildNodeType, ev: DragEvent)
      modifies this
      ensures nodes == MoveChild(sizes, old(nodes), dragged.name, ev)
    {
      nodes := MoveChild(sizes, nodes, dragged.name, ev);
    }

  }
}
