# Drag-and-reposition model of a node-link diagram

This project models, in Dafny, the state logic behind an interactive node-link
diagram drawn with d3 inside a React component. The view holds one list of
nodes. The first node, of type "parent", is the root. Its children are the
string ids of container nodes. Each container node, of type "child", holds an
ordered list of inline child records `{label, x, y}`. Their coordinates are
relative to the container and may be null, meaning "never dragged".

Two drag handlers replace the list wholesale on every d3 drag event:

- **Parent drag** (`onParentDrag`, `toMove`) puts the node whose id matches at
  the pointer position `(event.x, event.y)`. Every other node is kept as it is.
- **Child drag** (`onChildDrag`, `childDrag`) visits every record of every
  container. A record whose label equals the dragged label moves, with its own
  index `i` deciding its window:
  - x becomes `min(x + dx, PARENT_WIDTH - (i+1)*CHILD_WIDTH)`, or the pointer x
    when x was null, then floored at `-(i*CHILD_WIDTH)`;
  - y becomes `min(y + dy, PARENT_HEIGHT - CHILD_HEIGHT)`, or again the
    pointer **x** when y was null, then floored at 0.

The renderer derives the following from the list:

- the default slot `(i*CHILD_WIDTH, 0)` of a child rectangle;
- the translation of each node, reading null as 0;
- the translation of each child group, which is the first record with its
  label over all containers, or `(0, 0)` when there is none;
- one connector line per node after the first.

Files:

- `utils.dfy`, module `Utils`: the data model of `src/utils/index.tsx`.
  `Coord` is a nullable number. `ChildNodeType` is a child record. The tagged
  union `ChildNodeProps` is either `ParentProps` (string ids) or `ChildProps`
  (records). `NodeType` is a node. The source's `label` field is called `name`,
  because `label` is a Dafny keyword.
- `home_screen.dfy`, module `HomeScreen`: the logic of `src/screens/HomeScreen.tsx`.
  Its four sizes come from a constants module that is not part of this model,
  so they are a `Sizes` parameter. `Valid()` requires
  `CHILD_WIDTH <= PARENT_WIDTH` and `CHILD_HEIGHT <= PARENT_HEIGHT`. The module
  holds the pure next-state functions `MoveParent` and `MoveChild`, the derived
  geometry, and the class `DiagramState`. That class holds the `nodes` state,
  and its two handlers replace it wholesale.
- `drag_properties.dfy`, module `DragProperties`: the properties of the
  handlers and of the derived geometry.
- `screen.dfy`, module `Screen`: the copy in `src/screen/index.tsx`. Its sizes
  are fixed at 300/225/60/50. Its lines use the literals 150 and 225. The
  module has its own state class, and lemmas for those constants and for
  concrete scenarios.

Coordinates are `real`, like JavaScript numbers, so `PARENT_WIDTH / 2` is exact.

The code has five behaviours worth knowing:

- **Null y.** A never-dragged child's y jumps to the pointer's x, not its y.
  For a first drag with the pointer at (500, 80), the record lands at
  (500, 500) (`Screen.FirstDragScenario`).
- **Global label match.** The match is not scoped to the container the drag
  started in. Every record with the dragged label moves, in every container,
  even when labels are distinct within each container
  (`Screen.GlobalMatchScenario`).
- **Line end.** Each connector line ends at `node.x + 150`, a literal, not at
  `node.x + PARENT_WIDTH/2`.
- **No cap on a first drag.** A first drag of a child with a null x applies
  no right-hand cap, and a null y no bottom cap
  (`DragProperties.FirstDragJumpsToPointerX`). The record can then sit outside
  its window. When the child fits its container, a zero-movement drag is a
  no-op exactly when every matched record already lies inside its window
  (`DragProperties.ZeroDragIsNoOp` and `DragProperties.ZeroDragNoOpOnlyIfSettled`),
  as it does after a drag from number coordinates
  (`DragProperties.ZeroDragAfterDrag`).
  After the first drag above, a second event with no movement pulls the record
  from (500, 500) back to the caps (240, 175)
  (`Screen.FirstDragThenStillDrag`).
- **A repeated label is drawn with the first record.** A child group is
  translated by the first record with its label over all containers, not by
  its own record (`DragProperties.FirstContainerWins`). Labels need only be
  distinct within one container, so a label may repeat across containers.
  Each record is then clamped to its own window, but a later container's
  group is drawn with the first container's offsets. With "S-1" at index 0 of
  one container and at index 1 of the next, two events leave the records at
  x = 240 and x = 180, both inside their windows. The second group is drawn at
  its slot 60 plus 240, starting at x = 300, outside its 300-wide container
  (`Screen.RepeatedLabelScenario`).

## Model

| member | source | states |
|---|---|---|
| `Utils.NodeType.Type` | src/utils/index.tsx:7-16 | a node is tagged exactly one of "parent" or "child"; "parent" holds string ids and "child" holds inline records |
| `Utils.OrZero` | src/screens/HomeScreen.tsx:238-241 | a null coordinate reads as 0 and a number reads as itself; partners `HomeScreen.NodeTranslate` and `HomeScreen.Links` use it for every translation and line endpoint |
| `HomeScreen.MoveParent` | src/screens/HomeScreen.tsx:71-77 | same length and order; the node whose id matches gets x, y = the pointer position, with label, type and children kept; every other node is unchanged |
| `HomeScreen.FloorBelowCap` | src/screens/HomeScreen.tsx:86-92 | when a child fits its container, slot i's window is non-empty: -(i*CW) <= PW-(i+1)*CW, and 0 <= PH-CH |
| `HomeScreen.DraggedX` | src/screens/HomeScreen.tsx:86-104 | the new x is never left of -(i*CW); with a number prior x and valid sizes it is never right of PW-(i+1)*CW; with a null x it is the pointer x floored at -(i*CW) |
| `HomeScreen.DraggedY` | src/screens/HomeScreen.tsx:93-105 | the new y is never negative; with a number prior y and valid sizes it is at most PH-CH; with a null y it is the pointer's x floored at 0 |
| `HomeScreen.DragChild` | src/screens/HomeScreen.tsx:101-107 | the label is kept; a record with another label is unchanged; a matched record gets number x and y, x >= -(i*CW) and y >= 0 |
| `HomeScreen.DragChildren` | src/screens/HomeScreen.tsx:85-108 | same length; the record at index i becomes the drag of that record at that same index |
| `HomeScreen.DragNode` | src/screens/HomeScreen.tsx:83-85 | id, position, label, type and child count are kept; a "parent" node with string children is unchanged |
| `HomeScreen.MoveChild` | src/screens/HomeScreen.tsx:80-111 | same length and order; every node goes through the same per-node drag |
| `HomeScreen.RectX` | src/screens/HomeScreen.tsx:188 | a child rectangle's x is its default slot i*CW when its x is null, which is exactly the negation of its drag floor -(i*CW), and its own x otherwise; `DragProperties.DraggedChildInsideParent` and `DragProperties.DefaultSlotsDoNotOverlap` state what that slot means |
| `HomeScreen.RectY` | src/screens/HomeScreen.tsx:189 | a child rectangle's y is 0 when its y is null and its own y otherwise |
| `HomeScreen.NodeTranslate` | src/screens/HomeScreen.tsx:202-208 | a node's translation is its x and y with null read as 0; `DragProperties.ParentDragTranslate` states how a parent drag changes it |
| `HomeScreen.Flatten` | src/screens/HomeScreen.tsx:213-214 | every inline record of every container is in the flattened list; `DragProperties.FlattenOnlyRecords` states the converse, `DragProperties.FirstInFlatten` states the node-then-index order, and `DragProperties.FlattenAfterParentDrag` and `DragProperties.FlattenAfterChildDrag` state how the drags change it |
| `HomeScreen.FindFirst` | src/screens/HomeScreen.tsx:213-215 | finds the first index whose record has the label, with every earlier record having another label; reports none only when no record has it |
| `HomeScreen.ChildTranslate` | src/screens/HomeScreen.tsx:211-225 | the translation of a child group bound to a record is the x, y of the first flattened record with its label; it is (0, 0) when no record has the label; `DragProperties.FirstContainerWins` states the same in terms of the containers |
| `HomeScreen.LinesFrom` | src/screens/HomeScreen.tsx:236-242 | one line per node, from the anchor to (node.x + 150, node.y), null read as 0 |
| `HomeScreen.Links` | src/screens/HomeScreen.tsx:230-242 | no lines for an empty list, otherwise one per node after the first; each runs from (root.x + PW/2, root.y + PH) to (d.x + 150, d.y), null read as 0 |
| `HomeScreen.DiagramState.constructor` | src/screens/HomeScreen.tsx:66 | the state starts as the initial list, with the given sizes |
| `HomeScreen.DiagramState.OnParentDrag` | src/screens/HomeScreen.tsx:71-77 | the stored list becomes the parent-drag list of the previous one |
| `HomeScreen.DiagramState.OnChildDrag` | src/screens/HomeScreen.tsx:80-111 | the stored list becomes the child-drag list of the previous one, for the dragged record's label |
| `DragProperties.UnknownIdIsNoOp` | src/screens/HomeScreen.tsx:73-75 | a parent drag for an id no node carries returns the list unchanged |
| `DragProperties.ParentDragIdempotent` | src/screens/HomeScreen.tsx:73-75 | applying the same parent drag event twice equals applying it once |
| `DragProperties.ParentDragTranslate` | src/screens/HomeScreen.tsx:202-208 | after a parent drag, the moved node is translated to the pointer and every other node's translation is unchanged |
| `DragProperties.FlattenOnlyRecords` | src/screens/HomeScreen.tsx:213-214 | every record in the flattened list is a record of some container of type "child" |
| `DragProperties.FirstInFlatten` | src/screens/HomeScreen.tsx:213-214 | `flatMap` keeps node order, then index order: the first record with a label in the first container that holds one is the first flattened record with that label |
| `DragProperties.FirstContainerWins` | src/screens/HomeScreen.tsx:211-224 | a child group is translated by the x, y of the first record with its label in the first container that holds one, whichever container the group belongs to |
| `DragProperties.FlattenAfterParentDrag` | src/screens/HomeScreen.tsx:213-214 | a parent drag leaves the flattened list of child records identical |
| `DragProperties.LookupAfterParentDrag` | src/screens/HomeScreen.tsx:211-225 | a parent drag changes no child group's translation |
| `DragProperties.LinksAfterParentDrag` | src/screens/HomeScreen.tsx:236-242 | the moved node's line ends at (pointer x + 150, pointer y); if the root moved, every line starts at (pointer x + PW/2, pointer y + PH); every other endpoint is unchanged |
| `DragProperties.DraggedXClamps` | src/screens/HomeScreen.tsx:86-104 | with a number prior x, the new x is x+dx clamped to [-(i*CW), PW-(i+1)*CW] for either sign of dx: it is x+dx inside the window, the floor at or below it, the cap at or above it |
| `DragProperties.DraggedYClamps` | src/screens/HomeScreen.tsx:93-105 | with a number prior y, the new y is y+dy clamped to [0, PH-CH] |
| `DragProperties.DraggedChildInsideParent` | src/screens/HomeScreen.tsx:183-191 | a rectangle drawn at its default slot i*CW and translated by its own record's dragged x, y lies inside the PW x PH container; the group is translated by its own record only when no earlier container carries its label (`DragProperties.FirstContainerWins`) |
| `DragProperties.DefaultSlotsDoNotOverlap` | src/screens/HomeScreen.tsx:188 | never-positioned children are laid out left to right: slot j starts no earlier than the end of slot i for i < j (CW >= 0) |
| `DragProperties.ChildDragFrame` | src/screens/HomeScreen.tsx:82-110 | a child drag keeps every node's id, x, y, label, type and child count, every string child, and every record's label and index; a record with another label is unchanged |
| `DragProperties.ChildDragMovesEveryMatch` | src/screens/HomeScreen.tsx:101-106 | a record with the dragged label in ANY container is replaced by the dragged x and y for its own index |
| `DragProperties.ZeroDragKeepsItems` | src/screens/HomeScreen.tsx:85-107 | within one container, a drag with dx = dy = 0 returns the records unchanged when every matched record lies inside its window |
| `DragProperties.ZeroDragIsNoOp` | src/screens/HomeScreen.tsx:86-107 | a drag with dx = dy = 0, when every matched record has number x, y inside its window, leaves the whole list unchanged |
| `DragProperties.ZeroDragFixedOnlyInWindow` | src/screens/HomeScreen.tsx:86-107 | with valid sizes, a drag with dx = dy = 0 that leaves a matched record as it was finds it with number x, y inside its window |
| `DragProperties.ZeroDragNoOpOnlyIfSettled` | src/screens/HomeScreen.tsx:82-110 | with valid sizes, a drag with dx = dy = 0 that leaves the whole list unchanged finds every matched record inside its window |
| `DragProperties.DragSettles` | src/screens/HomeScreen.tsx:86-107 | after a drag, every matched record that had number coordinates lies inside its window |
| `DragProperties.ZeroDragAfterDrag` | src/screens/HomeScreen.tsx:82-110 | after dragging records with number coordinates, a further drag with no movement changes nothing |
| `DragProperties.FirstDragJumpsToPointerX` | src/screens/HomeScreen.tsx:86-105 | a never-dragged record, with the pointer x at or above both the x floor -(i*CW) and 0, lands at x = y = pointer x |
| `DragProperties.DragChildrenDraggedFrom` | src/screens/HomeScreen.tsx:85-107 | within one container, a drag keeps every record's label and position in the list, leaves records with another label unchanged and gives matched records number x and y |
| `DragProperties.FlattenAfterChildDrag` | src/screens/HomeScreen.tsx:213-214 | the flattened records after a child drag have the same labels in the same order; a record with another label is unchanged; a matched one has number x and y |
| `DragProperties.LookupOtherNameAfterChildDrag` | src/screens/HomeScreen.tsx:211-225 | dragging one label does not change the translation of the group of any other label |
| `DragProperties.LookupDraggedIsPositioned` | src/screens/HomeScreen.tsx:211-225 | after a drag of a label that some record carries, that label's group is translated by numbers, not by null |
| `DragProperties.LinksAfterChildDrag` | src/screens/HomeScreen.tsx:236-242 | a child drag leaves every connector line where it was |
| `Screen.Links` | src/screen/index.tsx:206-218 | no lines for an empty list, otherwise one per node after the first; line k runs from (root.x + 150, root.y + 225) to (node k+1's x + 150, its y), null read as 0 |
| `Screen.LinksMatchHomeScreen` | src/screen/index.tsx:206-218 | the lines drawn with the literals 150 and 225 are the parameterised lines at 300 x 225; there are length-1 of them |
| `Screen.ChildDragBounds` | src/screen/index.tsx:80-101 | with sizes 300/225/60/50, a matched record at index i that had number coordinates ends with -(60*i) <= x <= 300-60*(i+1) and 0 <= y <= 175, in any container |
| `Screen.ChildStaysInsideContainer` | src/screen/index.tsx:158-166 | the default slot is (60*i, 0); translated by the dragged coordinates, the 60 x 50 rectangle stays inside 300 x 225 |
| `Screen.ClampScenario` | src/screen/index.tsx:80-101 | index 1 at (50, 150) dragged by (-200, +100) ends at (-60, 175) |
| `Screen.FirstDragScenario` | src/screen/index.tsx:80-101 | a null record at index 0 with the pointer at (500, 80) and no movement ends at (500, 500) |
| `Screen.FirstDragThenStillDrag` | src/screen/index.tsx:80-101 | after that first drag the record at (500, 500) is outside its window, and a second event with no movement moves it to (240, 175) |
| `Screen.GlobalMatchScenario` | src/screen/index.tsx:76-105 | one drag of "S-1" moves the "S-1" record of both containers that hold one |
| `Screen.TwoContainersNamesDistinct` | src/screen/index.tsx:11 | those two containers satisfy the doc comment's rule that labels are distinct within every container, so that rule does not prevent the cross-container move |
| `Screen.RepeatedLabelDrag` | src/screen/index.tsx:76-105 | a drag of "S-1" over two containers that both hold an "S-1" record moves each record for its own index and changes nothing else |
| `Screen.RepeatedLabelLookup` | src/screen/index.tsx:187-200 | both "S-1" groups are translated by the first container's record, whatever the second container's record is |
| `Screen.RepeatedLabelScenario` | src/screen/index.tsx:158-200 | from null, two events leave the records at (240, 0) and (180, 0), each inside its window; both groups are translated by (240, 0), so the second group's rectangle, at slot 60, starts at x = 300, the container's width |
| `Screen.LookupScenario` | src/screen/index.tsx:187-201 | lookup returns the first flattened record with the label, null coordinates included, and (0, 0) for an absent label |
| `Screen.ScreenState.constructor` | src/screen/index.tsx:56 | the state starts as the initial list |
| `Screen.ScreenState.ToMove` | src/screen/index.tsx:63-69 | the stored list becomes the parent-drag list of the previous one |
| `Screen.ScreenState.ChildDrag` | src/screen/index.tsx:72-107 | the stored list becomes the child-drag list of the previous one, at sizes 300/225/60/50 |

## Left out

- The d3 render pipeline is not modelled: enter/merge/exit selections, attributes, styles and DOM updates. Only the values it computes are modelled: slots, translations and line endpoints. One consequence: a child rectangle's `x` attribute is set only when its group is first entered, so `DraggedChildInsideParent` states containment for a record first drawn in its default slot. It holds for the drawn group only when no earlier container carries the same label; otherwise the group is drawn with that earlier record's offsets (`Screen.RepeatedLabelScenario`).
- React hooks are not modelled: `useState`, `useEffect`, `useRef`, and the svg width and height taken from the window. The `nodes` state is a field replaced wholesale.
- The initial node literals are not modelled, because they depend on `window.innerWidth`. Icons, colours, label text positions and icon sizes are presentation only.
- JavaScript number semantics are not modelled: `Number()` coercion, floating-point rounding, and the `NaN` that `undefined + dx` produces for string children and then discards. Coordinates are exact reals, and string children are returned untouched.
- `HomeScreen.ChildTranslate` models the lookup only for child groups bound to records. The root also gets one child group per string id in its children, and those groups are translated too. For such a group the searched label is undefined, and so is the label of every string id in the flattened list, so `find` returns the root's first string id. The transform is then `translate(undefined,undefined)`, which the model leaves out. For the same reason `HomeScreen.Flatten` keeps only the inline records.
- The constants module imported by `src/screens/HomeScreen.tsx` is not part of this model. Its four sizes are the `Sizes` parameter.
- The model does not scope the label match to one container, validate the configuration or reject duplicate ids or labels. The code does none of these. The code reads a NaN coordinate as 0 only where it writes `|| 0`, that is in node transforms and line endpoints. The drag handlers and the child transforms leave NaN as it is. The model has no NaN.
- An unknown id is a no-op, and so is an unknown label (`ChildDragFrame`). The code has no other error handling.

