/** Properties of the drag handlers and of the geometry the renderer derives
    from the node list (src/screens/HomeScreen.tsx). */
module DragProperties {
  import opened Utils
  import opened HomeScreen

  // ---------------------------------------------------------------------
  // Parent drag
  // ---------------------------------------------------------------------

  /** A drag event for an id that no node carries leaves the list as it was. */
  lemma UnknownIdIsNoOp(nodes: seq<NodeType>, id: string, ev: DragEvent)
    requires forall k :: 0 <= k < |nodes| ==> nodes[k].id != id
    ensures MoveParent(nodes, id, ev) == nodes
  {
  }

  /** Delivering the same parent drag event twice gives the list it gives once. */
  lemma ParentDragIdempotent(nodes: seq<NodeType>, id: string, ev: DragEvent)
    ensures MoveParent(MoveParent(nodes, id, ev), id, ev) == MoveParent(nodes, id, ev)
  {
  }

  /** The moved node is drawn at the pointer; every other node is drawn where
      it was. */
  lemma ParentDragTranslate(nodes: seq<NodeType>, id: string, ev: DragEvent, k: nat)
    requires k < |nodes|
    ensures var after := MoveParent(nodes, id, ev);
      NodeTranslate(after[k]) == if nodes[k].id == id then (ev.x, ev.y) else NodeTranslate(nodes[k])
  {
  }

  /** The flattened list holds nothing but the containers' own records. */
  lemma {:induction false} FlattenOnlyRecords(nodes: seq<NodeType>, c: ChildNodeType)
    requires c in Flatten(nodes)
    ensures exists k :: 0 <= k < |nodes| && nodes[k].props.ChildProps? && c in nodes[k].props.items
  {
    if nodes[0].props.ChildProps? && c in nodes[0].props.items {
    } else {
      FlattenOnlyRecords(nodes[1..], c);
      var k :| 0 <= k < |nodes[1..]| && nodes[1..][k].props.ChildProps? && c in nodes[1..][k].props.items;
      assert nodes[k + 1] == nodes[1..][k];
    }
  }

  /** `j` is the first index of `flat` whose record is named `name`. */
  predicate FirstNamedAt(flat: seq<ChildNodeType>, name: string, j: int)
  {
    0 <= j < |flat| && flat[j].name == name && forall j' :: 0 <= j' < j ==> flat[j'].name != name
  }

  /** `flatMap` keeps node order and then index order: the first record named
      `name` in the first container holding one is also the first record
      named `name` in the flattened list. */
  lemma {:induction false} FirstInFlatten(nodes: seq<NodeType>, name: string, k: nat, i: nat)
    requires HasItem(nodes, k, i) && nodes[k].props.items[i].name == name
    requires forall k', i' :: HasItem(nodes, k', i') && k' < k ==> nodes[k'].props.items[i'].name != name
    requires forall i' :: 0 <= i' < i ==> nodes[k].props.items[i'].name != name
    ensures exists j :: FirstNamedAt(Flatten(nodes), name, j) && Flatten(nodes)[j] == nodes[k].props.items[i]
  {
    var flat, rest := Flatten(nodes), Flatten(nodes[1..]);
    if k == 0 {
      var items := nodes[0].props.items;
      assert flat == items + rest;
      forall j' | 0 <= j' < i ensures flat[j'].name != name {
        assert flat[j'] == items[j'];
      }
      assert FirstNamedAt(flat, name, i) && flat[i] == items[i];
    } else {
      var tail := nodes[1..];
      assert tail[k - 1] == nodes[k];
      forall k', i' | HasItem(tail, k', i') && k' < k - 1
        ensures tail[k'].props.items[i'].name != name
      {
        assert tail[k'] == nodes[k' + 1] && HasItem(nodes, k' + 1, i');
      }
      FirstInFlatten(tail, name, k - 1, i);
      var j0 :| FirstNamedAt(rest, name, j0) && rest[j0] == nodes[k].props.items[i];
      match nodes[0].props
      case ParentProps(_) =>
        assert flat == rest;
        assert FirstNamedAt(flat, name, j0) && flat[j0] == rest[j0];
      case ChildProps(items) =>
        assert flat == items + rest;
        forall j' | 0 <= j' < |items| + j0 ensures flat[j'].name != name {
          if j' < |items| {
            assert flat[j'] == items[j'] && HasItem(nodes, 0, j');
          } else {
            assert flat[j'] == rest[j' - |items|];
          }
        }
        assert FirstNamedAt(flat, name, |items| + j0) && flat[|items| + j0] == rest[j0];
    }
  }

  /** The lookup in terms of the containers: a child group labelled `name` is
      translated by the first such record of the first container holding one. */
  lemma FirstContainerWins(nodes: seq<NodeType>, name: string, k: nat, i: nat)
    requires HasItem(nodes, k, i) && nodes[k].props.items[i].name == name
    requires forall k', i' :: HasItem(nodes, k', i') && k' < k ==> nodes[k'].props.items[i'].name != name
    requires forall i' :: 0 <= i' < i ==> nodes[k].props.items[i'].name != name
    ensures ChildTranslate(nodes, name) == (nodes[k].props.items[i].x, nodes[k].props.items[i].y)
  {
    FirstInFlatten(nodes, name, k, i);
  }

  /** A parent drag moves no inline record: the flattened records are the same. */
  lemma {:induction false} FlattenAfterParentDrag(nodes: seq<NodeType>, id: string, ev: DragEvent)
    ensures Flatten(MoveParent(nodes, id, ev)) == Flatten(nodes)
  {
    if |nodes| > 0 {
      var after := MoveParent(nodes, id, ev);
      assert after[1..] == MoveParent(nodes[1..], id, ev);
      assert after[0].props == nodes[0].props;
      FlattenAfterParentDrag(nodes[1..], id, ev);
    }
  }

  /** Every child group keeps its translation when a container is dragged. */
  lemma LookupAfterParentDrag(nodes: seq<NodeType>, id: string, ev: DragEvent, name: string)
    ensures ChildTranslate(MoveParent(nodes, id, ev), name) == ChildTranslate(nodes, name)
  {
    FlattenAfterParentDrag(nodes, id, ev);
  }

  /** The lines follow a dragged node: the end of its own line moves to
      (pointer x + 150, pointer y), and when it is the first node every line
      starts at its new bottom centre; everything else is as before. */
  lemma LinksAfterParentDrag(s: Sizes, nodes: seq<NodeType>, id: string, ev: DragEvent, k: nat)
    requires k + 1 < |nodes|
    ensures |Links(s, MoveParent(nodes, id, ev))| == |Links(s, nodes)|
    ensures var before, after := Links(s, nodes)[k], Links(s, MoveParent(nodes, id, ev))[k];
      && (nodes[0].id == id ==> after.x1 == ev.x + s.parentWidth / 2.0 && after.y1 == ev.y + s.parentHeight)
      && (nodes[0].id != id ==> after.x1 == before.x1 && after.y1 == before.y1)
      && (nodes[k + 1].id == id ==> after.x2 == ev.x + 150.0 && after.y2 == ev.y)
      && (nodes[k + 1].id != id ==> after.x2 == before.x2 && after.y2 == before.y2)
  {
    var moved := MoveParent(nodes, id, ev);
    assert NodeTranslate(moved[0]) == if nodes[0].id == id then (ev.x, ev.y) else NodeTranslate(nodes[0]);
    assert NodeTranslate(moved[k + 1]) == if nodes[k + 1].id == id then (ev.x, ev.y) else NodeTranslate(nodes[k + 1]);
  }

  // ---------------------------------------------------------------------
  // Child drag: one record
  // ---------------------------------------------------------------------

  /** For a record with a number x, the new x is the delta-moved x clamped to
      the slot's window [-(i * CHILD_WIDTH), PARENT_WIDTH - (i + 1) * CHILD_WIDTH],
      whatever the sign of the delta. */
  lemma DraggedXClamps(s: Sizes, c: ChildNodeType, i: nat, ev: DragEvent)
    requires s.Valid() && c.x.Num?
    ensures var v, r := c.x.n + ev.dx, DraggedX(s, c, i, ev);
      && XFloor(s, i) <= r <= XCap(s, i)
      && (XFloor(s, i) <= v <= XCap(s, i) ==> r == v)
      && (v <= XFloor(s, i) ==> r == XFloor(s, i))
      && (XCap(s, i) <= v ==> r == XCap(s, i))
  {
    FloorBelowCap(s, i);
  }

  /** For a record with a number y, the new y is the delta-moved y clamped to
      [0, PARENT_HEIGHT - CHILD_HEIGHT]. */
  lemma DraggedYClamps(s: Sizes, c: ChildNodeType, ev: DragEvent)
    requires s.Valid() && c.y.Num?
    ensures var v, r := c.y.n + ev.dy, DraggedY(s, c, ev);
      && 0.0 <= r <= YCap(s)
      && (0.0 <= v <= YCap(s) ==> r == v)
      && (v <= 0.0 ==> r == 0.0)
      && (YCap(s) <= v ==> r == YCap(s))
  {
  }

  /** A record first drawn in its default slot (x = i * CHILD_WIDTH, y = 0)
      and translated by its dragged coordinates stays inside its container:
      the clamp window is exactly the set of offsets that keep the rectangle
      within PARENT_WIDTH x PARENT_HEIGHT. */
  lemma DraggedChildInsideParent(s: Sizes, c: ChildNodeType, i: nat, ev: DragEvent)
    requires s.Valid() && c.x.Num? && c.y.Num?
    ensures var r, slot := DragChild(s, c, i, c.name, ev), ChildNodeType(c.name, Null, Null);
      && 0.0 <= RectX(s, slot, i) + r.x.n
      && RectX(s, slot, i) + r.x.n + s.childWidth <= s.parentWidth
      && 0.0 <= RectY(slot) + r.y.n
      && RectY(slot) + r.y.n + s.childHeight <= s.parentHeight
  {
    DraggedXClamps(s, c, i, ev);
    assert ((i + 1) as real) * s.childWidth == (i as real) * s.childWidth + s.childWidth;
  }

  /** Never-positioned records are laid out left to right: with a
      non-negative CHILD_WIDTH the default slot of a later index starts no
      earlier than the end of an earlier one. */
  lemma DefaultSlotsDoNotOverlap(s: Sizes, a: ChildNodeType, i: nat, b: ChildNodeType, j: nat)
    requires 0.0 <= s.childWidth && a.x.Null? && b.x.Null? && i < j
    ensures RectX(s, a, i) + s.childWidth <= RectX(s, b, j)
  {
    assert (j as real) * s.childWidth >= ((i + 1) as real) * s.childWidth;
    assert ((i + 1) as real) * s.childWidth == (i as real) * s.childWidth + s.childWidth;
  }

  // ---------------------------------------------------------------------
  // Child drag: the whole list
  // ---------------------------------------------------------------------

  /** The inline record at index `i` of node `k`, if node `k` has one. */
  predicate HasItem(nodes: seq<NodeType>, k: int, i: int)
  {
    0 <= k < |nodes| && nodes[k].props.ChildProps? && 0 <= i < |nodes[k].props.items|
  }

  /** A record with number coordinates inside the window of slot `i`. */
  predicate InWindow(s: Sizes, c: ChildNodeType, i: nat)
  {
    c.x.Num? && c.y.Num? && XFloor(s, i) <= c.x.n <= XCap(s, i) && 0.0 <= c.y.n <= YCap(s)
  }

  /** Every record named `name`, in any container, has number coordinates
      inside the window of its slot. */
  ghost predicate Settled(s: Sizes, nodes: seq<NodeType>, name: string)
  {
    forall k, i :: HasItem(nodes, k, i) && nodes[k].props.items[i].name == name ==>
      InWindow(s, nodes[k].props.items[i], i)
  }

  /** Every record named `name` has number coordinates. */
  ghost predicate Positioned(nodes: seq<NodeType>, name: string)
  {
    forall k, i :: HasItem(nodes, k, i) && nodes[k].props.items[i].name == name ==>
      nodes[k].props.items[i].x.Num? && nodes[k].props.items[i].y.Num?
  }

  /** A child drag keeps every node's id, position, label and type, the length
      of every children list and every string id; a record whose name differs
      is returned unchanged and every record keeps its name and index, in every
      container. */
  lemma ChildDragFrame(s: Sizes, nodes: seq<NodeType>, name: string, ev: DragEvent)
    ensures var after := MoveChild(s, nodes, name, ev);
      && |after| == |nodes|
      && (forall k :: 0 <= k < |nodes| ==>
            after[k].id == nodes[k].id && after[k].x == nodes[k].x && after[k].y == nodes[k].y &&
            after[k].name == nodes[k].name && after[k].Type() == nodes[k].Type() &&
            after[k].ChildCount() == nodes[k].ChildCount() &&
            (nodes[k].props.ParentProps? ==> after[k] == nodes[k]))
      && (forall k, i :: HasItem(nodes, k, i) ==>
            HasItem(after, k, i) &&
            after[k].props.items[i].name == nodes[k].props.items[i].name &&
            (nodes[k].props.items[i].name != name ==> after[k].props.items[i] == nodes[k].props.items[i]))
  {
    var after := MoveChild(s, nodes, name, ev);
    forall k, i | HasItem(nodes, k, i)
      ensures HasItem(after, k, i)
      ensures after[k].props.items[i].name == nodes[k].props.items[i].name
      ensures nodes[k].props.items[i].name != name ==> after[k].props.items[i] == nodes[k].props.items[i]
    {
      assert after[k].props.items == DragChildren(s, nodes[k].props.items, name, ev);
    }
  }

  /** The label match is global: the record named `name` at index `i` of ANY
      container is moved, with its own index deciding its window. */
  lemma ChildDragMovesEveryMatch(s: Sizes, nodes: seq<NodeType>, name: string, ev: DragEvent, k: nat, i: nat)
    requires HasItem(nodes, k, i) && nodes[k].props.items[i].name == name
    ensures var c, after := nodes[k].props.items[i], MoveChild(s, nodes, name, ev);
      HasItem(after, k, i) &&
      after[k].props.items[i] == ChildNodeType(name, Num(DraggedX(s, c, i, ev)), Num(DraggedY(s, c, ev)))
  {
    var after := MoveChild(s, nodes, name, ev);
    assert after[k].props.items == DragChildren(s, nodes[k].props.items, name, ev);
  }

  /** Within one container, a drag with no movement keeps every record whose
      matching instances already sit inside their windows. */
  lemma ZeroDragKeepsItems(s: Sizes, items: seq<ChildNodeType>, name: string, ev: DragEvent)
    requires ev.dx == 0.0 && ev.dy == 0.0
    requires forall i :: 0 <= i < |items| && items[i].name == name ==> InWindow(s, items[i], i)
    ensures DragChildren(s, items, name, ev) == items
  {
    var moved := DragChildren(s, items, name, ev);
    forall i | 0 <= i < |items| ensures moved[i] == items[i] {
      if items[i].name == name {
        assert InWindow(s, items[i], i);
      }
    }
  }

  /** A drag with no movement over records that already sit inside their
      windows leaves the whole node list unchanged. */
  lemma ZeroDragIsNoOp(s: Sizes, nodes: seq<NodeType>, name: string, ev: DragEvent)
    requires ev.dx == 0.0 && ev.dy == 0.0 && Settled(s, nodes, name)
    ensures MoveChild(s, nodes, name, ev) == nodes
  {
    var after := MoveChild(s, nodes, name, ev);
    forall k | 0 <= k < |nodes| ensures after[k] == nodes[k] {
      if nodes[k].props.ChildProps? {
        var items := nodes[k].props.items;
        forall i | 0 <= i < |items| && items[i].name == name ensures InWindow(s, items[i], i) {
          assert HasItem(nodes, k, i);
        }
        ZeroDragKeepsItems(s, items, name, ev);
      }
    }
  }

  /** After a drag, every record named `name` that had number coordinates
      sits inside its window. */
  lemma DragSettles(s: Sizes, nodes: seq<NodeType>, name: string, ev: DragEvent)
    requires s.Valid() && Positioned(nodes, name)
    ensures Settled(s, MoveChild(s, nodes, name, ev), name)
  {
    var after := MoveChild(s, nodes, name, ev);
    forall k, i | HasItem(after, k, i) && after[k].props.items[i].name == name
      ensures InWindow(s, after[k].props.items[i], i)
    {
      assert after[k].props.items == DragChildren(s, nodes[k].props.items, name, ev);
      assert HasItem(nodes, k, i);
    }
  }

  /** Once records with number coordinates have been dragged, a further drag
      with no movement changes nothing. */
  lemma ZeroDragAfterDrag(s: Sizes, nodes: seq<NodeType>, name: string, ev: DragEvent, still: DragEvent)
    requires s.Valid() && Positioned(nodes, name) && still.dx == 0.0 && still.dy == 0.0
    ensures var once := MoveChild(s, nodes, name, ev);
      MoveChild(s, once, name, still) == once
  {
    DragSettles(s, nodes, name, ev);
    ZeroDragIsNoOp(s, MoveChild(s, nodes, name, ev), name, still);
  }

  /** The converse for one record: when the sizes fit, a drag with no
      movement leaves a matched record as it was only if it already had
      number coordinates inside its window. */
  lemma ZeroDragFixedOnlyInWindow(s: Sizes, c: ChildNodeType, i: nat, ev: DragEvent)
    requires s.Valid() && ev.dx == 0.0 && ev.dy == 0.0
    requires DragChild(s, c, i, c.name, ev) == c
    ensures InWindow(s, c, i)
  {
    FloorBelowCap(s, i);
  }

  /** The converse for the whole list: a drag with no movement that changes
      nothing finds every matched record already inside its window. */
  lemma ZeroDragNoOpOnlyIfSettled(s: Sizes, nodes: seq<NodeType>, name: string, ev: DragEvent)
    requires s.Valid() && ev.dx == 0.0 && ev.dy == 0.0
    requires MoveChild(s, nodes, name, ev) == nodes
    ensures Settled(s, nodes, name)
  {
    forall k, i | HasItem(nodes, k, i) && nodes[k].props.items[i].name == name
      ensures InWindow(s, nodes[k].props.items[i], i)
    {
      var c := nodes[k].props.items[i];
      ChildDragMovesEveryMatch(s, nodes, name, ev, k, i);
      ZeroDragFixedOnlyInWindow(s, c, i, ev);
    }
  }

  /** A record with a null x lands at the pointer x on its first drag, floored
      but not capped, so it can end outside its window; a null y lands at the
      pointer's x as well, floored at 0. */
  lemma FirstDragJumpsToPointerX(s: Sizes, c: ChildNodeType, i: nat, ev: DragEvent)
    requires c.x.Null? && c.y.Null? && XFloor(s, i) <= ev.x && 0.0 <= ev.x
    ensures var r := DragChild(s, c, i, c.name, ev);
      r.x == Num(ev.x) && r.y == Num(ev.x)
  {
  }

  // ---------------------------------------------------------------------
  // Child drag and the derived geometry
  // ---------------------------------------------------------------------

  /** `b` is `a` after a drag of `name`: record by record, the same names,
      untouched where the name differs and positioned where it matches. */
  predicate DraggedFrom(a: seq<ChildNodeType>, b: seq<ChildNodeType>, name: string)
  {
    |b| == |a| &&
    forall j :: 0 <= j < |a| ==>
      b[j].name == a[j].name &&
      (a[j].name != name ==> b[j] == a[j]) &&
      (a[j].name == name ==> b[j].x.Num? && b[j].y.Num?)
  }

  /** The records of one container after a drag are dragged from the old ones. */
  lemma DragChildrenDraggedFrom(s: Sizes, items: seq<ChildNodeType>, name: string, ev: DragEvent)
    ensures DraggedFrom(items, DragChildren(s, items, name, ev), name)
  {
    var moved := DragChildren(s, items, name, ev);
    forall j | 0 <= j < |items|
      ensures moved[j].name == items[j].name
      ensures items[j].name != name ==> moved[j] == items[j]
      ensures items[j].name == name ==> moved[j].x.Num? && moved[j].y.Num?
    {
      assert moved[j] == DragChild(s, items[j], j, name, ev);
    }
  }

  /** Being dragged from is kept by concatenation. */
  lemma DraggedFromAppend(a: seq<ChildNodeType>, b: seq<ChildNodeType>, a': seq<ChildNodeType>, b': seq<ChildNodeType>, name: string)
    requires DraggedFrom(a, a', name) && DraggedFrom(b, b', name)
    ensures DraggedFrom(a + b, a' + b', name)
  {
    forall j | |a| <= j < |a| + |b|
      ensures (a' + b')[j] == b'[j - |a|] && (a + b)[j] == b[j - |a|]
    {
    }
  }

  lemma {:induction false} FlattenAfterChildDrag(s: Sizes, nodes: seq<NodeType>, name: string, ev: DragEvent)
    ensures DraggedFrom(Flatten(nodes), Flatten(MoveChild(s, nodes, name, ev)), name)
  {
    if |nodes| > 0 {
      var after := MoveChild(s, nodes, name, ev);
      assert after[1..] == MoveChild(s, nodes[1..], name, ev);
      FlattenAfterChildDrag(s, nodes[1..], name, ev);
      match nodes[0].props
      case ParentProps(_) =>
      case ChildProps(items) =>
        var moved: seq<ChildNodeType> := DragChildren(s, items, name, ev);
        assert after[0].props.items == moved;
        DragChildrenDraggedFrom(s, items, name, ev);
        DraggedFromAppend(items, Flatten(nodes[1..]), moved, Flatten(after[1..]), name);
    }
  }

  /** Dragging one label does not move the group of any other label. */
  lemma LookupOtherNameAfterChildDrag(s: Sizes, nodes: seq<NodeType>, name: string, ev: DragEvent, other: string)
    requires other != name
    ensures ChildTranslate(MoveChild(s, nodes, name, ev), other) == ChildTranslate(nodes, other)
  {
    var flat, flat' := Flatten(nodes), Flatten(MoveChild(s, nodes, name, ev));
    FlattenAfterChildDrag(s, nodes, name, ev);
    FindOtherInDragged(flat, flat', name, other);
  }

  /** Lookup of a label other than the dragged one finds the same index in
      both lists, and the record there is unchanged. */
  lemma FindOtherInDragged(a: seq<ChildNodeType>, b: seq<ChildNodeType>, name: string, other: string)
    requires DraggedFrom(a, b, name) && other != name
    ensures FindFirst(b, other) == FindFirst(a, other)
    ensures FindFirst(a, other).Some? ==> b[FindFirst(a, other).value] == a[FindFirst(a, other).value]
  {
    var r, r' := FindFirst(a, other), FindFirst(b, other);
    if r.Some? {
      assert b[r.value].name == other;
      if r'.None? || r'.value < r.value {
        assert false;
      }
    }
  }

  /** After a drag of `name`, the group of `name` is translated by numbers,
      never by a null coordinate, when some record carries that name. */
  lemma LookupDraggedIsPositioned(s: Sizes, nodes: seq<NodeType>, name: string, ev: DragEvent)
    requires exists j :: 0 <= j < |Flatten(nodes)| && Flatten(nodes)[j].name == name
    ensures var t := ChildTranslate(MoveChild(s, nodes, name, ev), name);
      t.0.Num? && t.1.Num?
  {
    FlattenAfterChildDrag(s, nodes, name, ev);
  }

  /** A child drag moves no node, so the connector lines stay where they were. */
  lemma LinksAfterChildDrag(s: Sizes, nodes: seq<NodeType>, name: string, ev: DragEvent)
    ensures Links(s, MoveChild(s, nodes, name, ev)) == Links(s, nodes)
  {
  }
}
