/** The second copy of the diagram view (src/screen/index.tsx): the same drag
    logic with its sizes fixed at 300 x 225 for a container and 60 x 50 for a
    child, and connector lines written with literal offsets. */
module Screen {
  import opened Utils
  import opened HomeScreen
  import DragProperties

  /** PARENT_WIDTH = 300, PARENT_HEIGHT = 225, CHILD_WIDTH = 60, CHILD_HEIGHT = 50. */
  const Constants: Sizes := Sizes(300.0, 225.0, 60.0, 50.0)

  /** The file's doc comment: child labels are distinct within every container. */
  ghost predicate ContainerNamesDistinct(nodes: seq<NodeType>)
  {
    forall k, i, j :: DragProperties.HasItem(nodes, k, i) && DragProperties.HasItem(nodes, k, j) && i != j ==>
      nodes[k].props.items[i].name != nodes[k].props.items[j].name
  }

  /** The connector lines of this copy: from (root.x + 150, root.y + 225) to
      (d.x + 150, d.y) for every node d after the first, null read as 0. */
  function Links(nodes: seq<NodeType>): (r: seq<Line>)
    ensures |nodes| == 0 ==> r == []
    ensures |nodes| > 0 ==> |r| == |nodes| - 1
    ensures forall k :: 0 <= k < |r| ==>
              r[k] == Line(OrZero(nodes[0].x) + 150.0, OrZero(nodes[0].y) + 225.0,
                           OrZero(nodes[k + 1].x) + 150.0, OrZero(nodes[k + 1].y))
  {
    if |nodes| == 0 then []
    else LinesFrom(OrZero(nodes[0].x) + 150.0, OrZero(nodes[0].y) + 225.0, nodes[1..])
  }

  /** The literal offsets are the bottom centre of a 300 x 225 container: this
      copy draws the same lines as the parameterised one, one per node after
      the first. */
  lemma LinksMatchHomeScreen(nodes: seq<NodeType>)
    ensures Links(nodes) == HomeScreen.Links(Constants, nodes)
    ensures |nodes| > 0 ==> |Links(nodes)| == |nodes| - 1
  {
  }

  /** With the fixed sizes, a dragged record at index `i` that had number
      coordinates ends with -(60 * i) <= x <= 300 - 60 * (i + 1) and
      0 <= y <= 175, in whichever container it sits. */
  lemma ChildDragBounds(nodes: seq<NodeType>, name: string, ev: DragEvent, k: nat, i: nat)
    requires DragProperties.HasItem(nodes, k, i)
    requires nodes[k].props.items[i].name == name
    requires nodes[k].props.items[i].x.Num? && nodes[k].props.items[i].y.Num?
    ensures var after := MoveChild(Constants, nodes, name, ev);
      DragProperties.HasItem(after, k, i) &&
      var c := after[k].props.items[i];
      && c.x.Num? && c.y.Num?
      && -(60.0 * (i as real)) <= c.x.n <= 300.0 - 60.0 * ((i + 1) as real)
      && 0.0 <= c.y.n <= 175.0
  {
    DragProperties.ChildDragMovesEveryMatch(Constants, nodes, name, ev, k, i);
    var c := nodes[k].props.items[i];
    DragProperties.DraggedXClamps(Constants, c, i, ev);
    DragProperties.DraggedYClamps(Constants, c, ev);
  }

  /** A record drawn in its default slot (60 * i, 0) and translated by its
      dragged coordinates stays inside the 300 x 225 container. */
  lemma ChildStaysInsideContainer(c: ChildNodeType, i: nat, ev: DragEvent)
    requires c.x.Num? && c.y.Num?
    ensures var r, slot := DragChild(Constants, c, i, c.name, ev), ChildNodeType(c.name, Null, Null);
      && RectX(Constants, slot, i) == 60.0 * (i as real) && RectY(slot) == 0.0
      && 0.0 <= 60.0 * (i as real) + r.x.n && 60.0 * (i as real) + r.x.n + 60.0 <= 300.0
      && 0.0 <= r.y.n && r.y.n + 50.0 <= 225.0
  {
    DragProperties.DraggedChildInsideParent(Constants, c, i, ev);
  }

  /** The record at index 1 at (50, 150) dragged by (-200, +100): x is stopped
      at -60 on the left and y at 175 at the bottom. */
  lemma ClampScenario(px: real, py: real)
    ensures DragChild(Constants, ChildNodeType("NY-2", Num(50.0), Num(150.0)), 1, "NY-2", DragEvent(px, py, -200.0, 100.0))
         == ChildNodeType("NY-2", Num(-60.0), Num(175.0))
  {
  }

  /** A never-dragged record at index 0 and a first drag with the pointer at
      (500, 80) and no movement: the record jumps to x = 500 and, since the
      null-y branch reads the pointer's x, to y = 500 rather than 80. */
  lemma FirstDragScenario()
    ensures DragChild(Constants, ChildNodeType("NY-1", Null, Null), 0, "NY-1", DragEvent(500.0, 80.0, 0.0, 0.0))
         == ChildNodeType("NY-1", Num(500.0), Num(500.0))
  {
  }

  /** Number coordinates alone do not make a drag with no movement a no-op:
      after the uncapped first drag above leaves the record at (500, 500),
      outside its window, the next event with no movement pulls it back to
      the caps (240, 175). */
  lemma FirstDragThenStillDrag()
    ensures var ev0 := DragEvent(500.0, 80.0, 0.0, 0.0);
      var once := DragChild(Constants, ChildNodeType("NY-1", Null, Null), 0, "NY-1", ev0);
      && once == ChildNodeType("NY-1", Num(500.0), Num(500.0))
      && !DragProperties.InWindow(Constants, once, 0)
      && DragChild(Constants, once, 0, "NY-1", ev0) == ChildNodeType("NY-1", Num(240.0), Num(175.0))
  {
  }

  /** Two containers that both hold a record labelled "S-1". */
  function TwoContainers(): seq<NodeType>
  {
    [ NodeType("root", Num(0.0), Num(0.0), "Root", ParentProps(["p", "q"])),
      NodeType("p", Num(100.0), Num(400.0), "P", ChildProps([ChildNodeType("S-1", Num(0.0), Num(0.0)), ChildNodeType("S-2", Null, Null)])),
      NodeType("q", Num(500.0), Num(400.0), "Q", ChildProps([ChildNodeType("S-1", Num(0.0), Num(0.0))])) ]
  }

  /** Labels distinct within each container do not scope a drag: a drag of
      "S-1" by (10, 20) moves the "S-1" record of both containers. */
  lemma GlobalMatchScenario()
    ensures var nodes, moved := TwoContainers(), ChildNodeType("S-1", Num(10.0), Num(20.0));
      MoveChild(Constants, nodes, "S-1", DragEvent(0.0, 0.0, 10.0, 20.0)) ==
        [ nodes[0],
          nodes[1].(props := ChildProps([moved, ChildNodeType("S-2", Null, Null)])),
          nodes[2].(props := ChildProps([moved])) ]
  {
    var nodes, ev := TwoContainers(), DragEvent(0.0, 0.0, 10.0, 20.0);
    var a, b := ChildNodeType("S-1", Num(0.0), Num(0.0)), ChildNodeType("S-2", Null, Null);
    var moved := ChildNodeType("S-1", Num(10.0), Num(20.0));
    assert "S-1"[2] != "S-2"[2];
    assert DragChild(Constants, a, 0, "S-1", ev) == moved;
    assert DragChild(Constants, b, 1, "S-1", ev) == b;
    var first, second := DragChildren(Constants, [a, b], "S-1", ev), DragChildren(Constants, [a], "S-1", ev);
    assert first[0] == moved && first[1] == b;
    assert first == [moved, b];
    assert second[0] == moved;
    assert second == [moved];
    var after := MoveChild(Constants, nodes, "S-1", ev);
    assert after[0] == DragNode(Constants, nodes[0], "S-1", ev) == nodes[0];
    assert after[1] == DragNode(Constants, nodes[1], "S-1", ev) == nodes[1].(props := ChildProps(first));
    assert after[2] == DragNode(Constants, nodes[2], "S-1", ev) == nodes[2].(props := ChildProps(second));
  }

  /** The two containers of the scenario above keep the labels of each
      container distinct, as the file's doc comment asks. */
  lemma TwoContainersNamesDistinct()
    ensures ContainerNamesDistinct(TwoContainers())
  {
    var nodes := TwoContainers();
    forall k, i, j | DragProperties.HasItem(nodes, k, i) && DragProperties.HasItem(nodes, k, j) && i != j
      ensures nodes[k].props.items[i].name != nodes[k].props.items[j].name
    {
      assert k == 1;
      assert "S-1"[2] != "S-2"[2];
    }
  }

  /** Two containers whose labels are distinct within each, with the record
      `a` at index 0 of "p" and the record `b` at index 1 of "q". */
  function RepeatedLabel(a: ChildNodeType, b: ChildNodeType): seq<NodeType>
  {
    [ NodeType("root", Num(0.0), Num(0.0), "Root", ParentProps(["p", "q"])),
      NodeType("p", Num(100.0), Num(400.0), "P", ChildProps([a])),
      NodeType("q", Num(500.0), Num(400.0), "Q", ChildProps([ChildNodeType("Q-1", Null, Null), b])) ]
  }

  /** A drag of "S-1" moves both records of that label, each for its own index. */
  lemma RepeatedLabelDrag(a: ChildNodeType, b: ChildNodeType, ev: DragEvent)
    requires a.name == "S-1" && b.name == "S-1"
    ensures MoveChild(Constants, RepeatedLabel(a, b), "S-1", ev) ==
            RepeatedLabel(DragChild(Constants, a, 0, "S-1", ev), DragChild(Constants, b, 1, "S-1", ev))
  {
    var nodes, other := RepeatedLabel(a, b), ChildNodeType("Q-1", Null, Null);
    var a', b' := DragChild(Constants, a, 0, "S-1", ev), DragChild(Constants, b, 1, "S-1", ev);
    assert "Q-1"[0] != "S-1"[0];
    assert DragChild(Constants, other, 0, "S-1", ev) == other;
    var first, second := DragChildren(Constants, [a], "S-1", ev), DragChildren(Constants, [other, b], "S-1", ev);
    assert first[0] == a';
    assert first == [a'];
    assert second[0] == other && second[1] == b';
    assert second == [other, b'];
    var after := MoveChild(Constants, nodes, "S-1", ev);
    assert after[0] == DragNode(Constants, nodes[0], "S-1", ev) == nodes[0];
    assert after[1] == DragNode(Constants, nodes[1], "S-1", ev) == nodes[1].(props := ChildProps(first));
    assert after[2] == DragNode(Constants, nodes[2], "S-1", ev) == nodes[2].(props := ChildProps(second));
  }

  /** Both "S-1" groups are translated by p's record, whatever q's is. */
  lemma RepeatedLabelLookup(a: ChildNodeType, b: ChildNodeType)
    requires a.name == "S-1"
    ensures ChildTranslate(RepeatedLabel(a, b), "S-1") == (a.x, a.y)
  {
    DragProperties.FirstContainerWins(RepeatedLabel(a, b), "S-1", 1, 0);
  }

  /** A repeated label draws a later container's group with the first
      container's record. From null, a first event with the pointer at x = 0
      puts both "S-1" records at (0, 0); an event moving by 240 puts p's at
      x = 240 and q's at x = 180, each inside its own window. Both groups are
      translated by p's record, (240, 0), so q's rectangle, drawn at its slot
      60, spans x from 300 to 360, outside the 300-wide container. */
  lemma RepeatedLabelScenario()
    ensures var start := ChildNodeType("S-1", Null, Null);
      var ev1, ev2 := DragEvent(0.0, 0.0, 0.0, 0.0), DragEvent(0.0, 0.0, 240.0, 0.0);
      var a, b := ChildNodeType("S-1", Num(240.0), Num(0.0)), ChildNodeType("S-1", Num(180.0), Num(0.0));
      var after := MoveChild(Constants, MoveChild(Constants, RepeatedLabel(start, start), "S-1", ev1), "S-1", ev2);
      && after == RepeatedLabel(a, b)
      && DragProperties.InWindow(Constants, b, 1)
      && ChildTranslate(after, "S-1") == (Num(240.0), Num(0.0))
      && RectX(Constants, start, 1) == 60.0
      && RectX(Constants, start, 1) + 240.0 == Constants.parentWidth
  {
    var start, zero := ChildNodeType("S-1", Null, Null), ChildNodeType("S-1", Num(0.0), Num(0.0));
    var ev1, ev2 := DragEvent(0.0, 0.0, 0.0, 0.0), DragEvent(0.0, 0.0, 240.0, 0.0);
    var a, b := ChildNodeType("S-1", Num(240.0), Num(0.0)), ChildNodeType("S-1", Num(180.0), Num(0.0));
    assert DragChild(Constants, start, 0, "S-1", ev1) == zero;
    assert DragChild(Constants, start, 1, "S-1", ev1) == zero;
    assert DragChild(Constants, zero, 0, "S-1", ev2) == a;
    assert DragChild(Constants, zero, 1, "S-1", ev2) == b;
    RepeatedLabelDrag(start, start, ev1);
    RepeatedLabelDrag(zero, zero, ev2);
    RepeatedLabelLookup(a, b);
  }

  /** Lookup by label returns the first record over the flattened children
      and (0, 0) for a label no record carries. */
  lemma LookupScenario()
    ensures var nodes := [
        NodeType("root", Num(0.0), Num(0.0), "Root", ParentProps(["p", "q"])),
        NodeType("p", Num(100.0), Num(400.0), "P", ChildProps([ChildNodeType("S-1", Num(5.0), Null)])),
        NodeType("q", Num(500.0), Num(400.0), "Q", ChildProps([ChildNodeType("S-1", Num(7.0), Num(8.0))]))
      ];
      && ChildTranslate(nodes, "S-1") == (Num(5.0), Null)
      && ChildTranslate(nodes, "S-9") == (Num(0.0), Num(0.0))
  {
  }

  /** The `nodes` state of this copy, replaced wholesale by its two drag
      behaviours. */
  class ScreenState {
    var nodes: seq<NodeType>

    constructor (initial: seq<NodeType>)
      ensures nodes == initial
    {
      nodes := initial;
    }

    /** The `toMove` drag behaviour on the container bound to `dragged`. */
    method ToMove(dragged: NodeType, ev: DragEvent)
      modifies this
      ensures nodes == MoveParent(old(nodes), dragged.id, ev)
    {
      nodes := MoveParent(nodes, dragged.id, ev);
    }

    /** The `childDrag` behaviour on the child group bound to `dragged`. */
    method ChildDrag(dragged: ChildNodeType, ev: DragEvent)
      modifies this
      ensures nodes == MoveChild(Constants, old(nodes), dragged.name, ev)
    {
      nodes := MoveChild(Constants, nodes, dragged.name, ev);
    }
  }
}
