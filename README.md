# Entity diagram change tracking, in Dafny

The entity diagram draws the entities of a commerce catalog as boxes. These are custom-object schemas, product types and field types. The user draws links between the boxes, labels both ends of each link and moves the boxes. Every edit becomes a change event. Five kinds exist: `linkAdded`, `linkModified`, `linkRemoved`, `linkTextChanged` and `nodePositionChanged`. Two reducers fold these events into a snapshot of the node list and the link list. The link list is written back to storage 500 ms after the last change.

This project models that engine:

- `Types`: the entity, link and change-event records.
- `Reducer`: the `(snapshot, event) -> snapshot` code that the change provider and the diagram change tracker both hold. It has specification functions and two imperative methods proved against them.
- `Changes`: the change provider. It holds both lists, loads them, applies events and runs the debounced write as a discrete-time state machine.
- `Tracker`: the combined-snapshot tracker.
- `Mapper`: the adapter from the three catalog shapes to entities.
- `Numbers`: the parts of JavaScript's `parseInt`, `Number`, `split` and number-to-string that the mappers rely on.
- `Utils`: the node and edge mappers and the UUID key generator.
- `Inter`, `EdgeEditor` and `Canvas`: the three gesture handlers that produce change events.
  - `Inter` is the hand-drawn graph: dragging, link drawing and label editing.
  - `EdgeEditor` is the label editor of a canvas edge.
  - `Canvas` is the flow canvas.

Each handler is a class. Its fields are the component's state, and it records the callbacks and events it reports as a log. Where the code departs from what it evidently means to do, the model follows the code. The discrepancies are proved as stated properties:

- The canvas reports a moved node with a `loc` string. The reducer stores the event's `newPosition`, which the canvas never sends. A reported move therefore erases the stored position (`Canvas.MoveErasesStoredPosition`).
- The mappers never set `loc` and ignore the location list they are given. Every mapped node therefore sits at (0, 0) on the canvas (`Canvas.LoadedNodesAtOrigin`).
- A `loc` that does not parse gives NaN coordinates, not (0, 0) (`Utils.MalformedLocGivesNaN`).
- The link write is armed on mount as well. If the first load takes 500 ms or more, an empty list is written (`Changes.MountWriteRacesLoad`).
- Every link event re-arms the write, even one that changes nothing, because the reducer always returns a fresh copy (`Changes.ChangeProvider.TrackLinkChange`).
- The write still armed when the provider unmounts is cleared and never made, so the link edits of the last 500 ms are lost (`Changes.UnmountDropsPendingWrite`).
- The hand-drawn graph imports `generateUUID` from './canvas', which exports only its component. A link drawing that ends on another node therefore throws before it reports anything. The start and the pointer stay set, and no link is created (`Inter.InteractiveGraph.HandleMouseUp`). The link the code means to create is `Inter.DroppedLink`.
- Edge labels are written into the edge's `data` object, which is the object the canvas keeps in its edge list. A label commit therefore changes the canvas's edges as well as reporting an event (`Canvas.Canvas.EdgeLabelCommitted`).

## Model

| member | source | states |
|---|---|---|
| Reducer.FirstIndex | src/providers/changes.tsx:54-56 | `findIndex` by key: a result is an index whose element has the key and no earlier element has it; None exactly when no element has the key |
| Reducer.ReduceLinks | src/providers/changes.tsx:36-87 | the push / indexed-write / filter update of the deep-copied link list yields exactly `ApplyLinkChange(prevData, change)` |
| Reducer.ReduceNodes | src/providers/changes.tsx:93-109 | the indexed position write on the copied node list yields exactly `ApplyNodeChange(prevData, change)` |
| Reducer.LinkAddedAppendsIffAbsent | src/providers/changes.tsx:39-51 | `linkAdded` appends `{key, from: fromNode, to: toNode, text, toText}` at the end iff no link has the key, and otherwise leaves the list unchanged |
| Reducer.LinkAddedIdempotent | src/providers/changes.tsx:39-51 | applying the same `linkAdded` twice equals applying it once |
| Reducer.FirstIndexOfLink | src/providers/changes.tsx:73-75 | the index found is exactly the first link with the key, and there is none iff no link has the key |
| Reducer.LinkModifiedFirstMatch | src/providers/changes.tsx:53-66 | `linkModified` replaces endpoints and both labels of the first link with the key and keeps its key, place and the length; every other link is kept, and an unknown key is a no-op |
| Reducer.LinkTextChangedFirstMatch | src/providers/changes.tsx:72-83 | `linkTextChanged` writes `text` when `isFromText` and otherwise `toText`, on the first matching link only; other links are kept, and an unknown key is a no-op |
| Reducer.OldTextIgnored | src/providers/changes.tsx:72-83 | the event's `oldText` never affects the result |
| Reducer.WithoutKeyMembers | src/providers/changes.tsx:68-70 | the filter keeps exactly the links whose key differs and never grows the list |
| Reducer.WithoutKeyAppend | src/providers/changes.tsx:68-70 | the filter distributes over concatenation, so the surviving links keep their order |
| Reducer.WithoutAbsentKey | src/providers/changes.tsx:68-70 | removing a key no link has leaves the list unchanged |
| Reducer.LinkRemovedFilters | src/providers/changes.tsx:68-70 | after `linkRemoved` no link has the key, and every other link survives |
| Reducer.RemovalsCommute | src/providers/changes.tsx:68-70 | two removals give the same list in either order |
| Reducer.PositionEventKeepsLinks | src/providers/changes.tsx:38-84 | the link reducer has no case for `nodePositionChanged` and returns an equal list |
| Reducer.NodePositionFirstMatch | src/providers/changes.tsx:92-110 | `nodePositionChanged` sets `position := newPosition` on the first node with `nodeKey` only; an absent key and every other event kind leave the nodes unchanged |
| Reducer.NodeChangeKeepsAllButPosition | src/providers/changes.tsx:96-106 | the node reducer changes no field but `position`: keys, `loc`, items and order are kept |
| Reducer.WithoutKeyKeepsUnique | src/providers/changes.tsx:68-70 | filtering keeps the links' keys distinct |
| Reducer.ApplyLinkChangeKeepsUnique | src/providers/changes.tsx:38-84 | every link event keeps the keys of a key-unique list distinct: add is guarded by the key check, modify and relabel keep keys, and remove filters |
| Reducer.AddThenRemoveScenario | src/providers/changes.tsx:39-70 | adding a link to an empty list gives exactly that link, and removing it gives the empty list again |
| Reducer.FromLabelScenario | src/providers/changes.tsx:72-83 | labelling the from side of an unlabelled link leaves its to side as it was |
| Changes.BurstCoalesces | src/providers/changes.tsx:112-120 | a burst of link changes less than 500 ms apart writes nothing while it lasts; once 500 ms pass quietly exactly one write fires, carrying the latest list, and none fires earlier |
| Changes.MountWriteRacesLoad | src/providers/changes.tsx:112-128 | the write armed on mount writes `[]` when the load takes 500 ms or more; a faster load re-arms it with the loaded list |
| Changes.ChangeProvider.constructor | src/providers/changes.tsx:31-32 | nothing is loaded, the provider is not ready to render, and a write of `undefined ?? []` is armed |
| Changes.ChangeProvider.RestartLinkTimer | src/providers/changes.tsx:112-120 | the armed write is replaced by one due in 500 ms carrying `links ?? []` |
| Changes.ChangeProvider.Load | src/providers/changes.tsx:122-132 | the nodes become schemas, then product types, then types; the links become the stored list or `[]`; the provider is ready and the write re-armed |
| Changes.ChangeProvider.TrackLinkChange | src/providers/changes.tsx:34-90 | before the load nothing changes; afterwards the links become the reducer's result and the write is re-armed even when the event was a no-op; the invariant that the armed write carries the current list holds |
| Changes.ChangeProvider.TrackNodeChange | src/providers/changes.tsx:92-110 | before the load nothing changes; afterwards the nodes become the node reducer's result; nothing is written |
| Changes.ChangeProvider.Advance | src/providers/changes.tsx:113-115 | time passes; an armed write that falls due is logged once and spent |
| Changes.UnmountDropsPendingWrite | src/providers/changes.tsx:112-120 | a write armed at unmount is never made however much time passes, whereas left alone it fires within 500 ms with its payload |
| Changes.ChangeProvider.Unmount | src/providers/changes.tsx:117-119 | the cleanup clears the armed write and arms nothing; the clock, the writes made and the lists are kept |
| Tracker.ChangeTouchesOneList | src/components/diagram/useTrackChanges.ts:69-130 | a position event leaves `linkDataArray` unchanged and a link event leaves `nodeDataArray` unchanged |
| Tracker.LinkAddedIdempotent | src/components/diagram/useTrackChanges.ts:81-95 | `linkAdded` is idempotent on the whole snapshot |
| Tracker.ChangeTracker.constructor | src/components/diagram/useTrackChanges.ts:62-63 | the tracker starts on the given snapshot |
| Tracker.ChangeTracker.TrackChange | src/components/diagram/useTrackChanges.ts:65-134 | the snapshot becomes the same reducer's result on the one list the event is about |
| Mapper.KeyedNames | src/hooks/use-connector/mapper.ts:66-69 | one `{name, iskey}` per attribute, in order, with `iskey` iff the name is "id" |
| Mapper.CreateGoEntity | src/hooks/use-connector/mapper.ts:34-59 | key as given, location (1, 300), one Rectangle item per input in the kind's colour, and inherited items iff the kind is ProductType |
| Mapper.MapSchemaTypeToGoEntities | src/hooks/use-connector/mapper.ts:62-72 | one entity per schema in order, keyed by the schema key, green items following the attributes, no inherited items, no `loc` |
| Mapper.MapProductTypeToGoEntities | src/hooks/use-connector/mapper.ts:75-90 | one entity per product type in order, keyed by `name ?? key`, blue items following the attributes, the fixed inherited items, no `loc` |
| Mapper.MapTypeToGoEntities | src/hooks/use-connector/mapper.ts:93-103 | one entity per type in order, keyed by the type key, red items following the field definitions, no inherited items, no `loc` |
| Mapper.InheritedItemsShape | src/hooks/use-connector/mapper.ts:15-31 | the inherited items are id, name and description, with the key flag on id only |
| Mapper.ColorsDistinguishKinds | src/hooks/use-connector/mapper.ts:47-52 | the three catalogs get three distinct colours |
| Mapper.NameUnused | src/hooks/use-connector/mapper.ts:34-59 | the entity does not depend on the `name` argument |
| Numbers.ParseIntRoundTrip | src/components/diagram/utils.ts:9-10 | `parseInt` of the decimal spelling of an integer gives the integer back |
| Numbers.ToNumberRoundTrip | src/components/diagram/inter.tsx:46 | `Number` of the decimal spelling of an integer gives the integer back |
| Numbers.SplitPair | src/components/diagram/utils.ts:9-10 | splitting `a + sep + b` on `sep` gives `[a, b]` when neither part holds `sep` |
| Utils.NodeMapper | src/components/diagram/utils.ts:5-19 | id and label are the key, type "custom", items and inherited items pass through, and a falsy `loc` gives (0, 0) |
| Utils.LocRoundTrip | src/components/diagram/utils.ts:7-12 | the `"x y"` the canvas writes for integers x and y maps back to the position (x, y) |
| Utils.LocWithoutSpaceGivesNaN | src/components/diagram/utils.ts:10 | a `loc` without a space has no second piece, so y is NaN |
| Utils.MalformedLocGivesNaN | src/components/diagram/utils.ts:7-12 | exhibits one truthy but malformed `loc`, "a b", whose coordinates are both NaN, not (0, 0) |
| Utils.EdgeMapper | src/components/diagram/utils.ts:21-31 | key to id, from to source, to to target, text to label, toText to toLabel, type "custom" |
| Utils.EdgeMapperInvertible | src/components/diagram/utils.ts:21-31 | the link can be read back from its edge, so distinct links give distinct edges |
| Utils.GenerateUuid | src/components/diagram/utils.ts:33-40 | 36 characters: dashes at 8, 13, 18 and 23, '4' at 14, one of 8/9/a/b at 19, and at every `x` the hex digit of that position's draw; the copy in src/components/diagram/useTrackChanges.ts (lines 5-12) is the same code |
| Inter.FindTarget | src/components/diagram/inter.tsx:111-120 | the target is the first node in list order whose box holds the point; none iff no box holds it |
| Inter.GetNodeCenter | src/components/diagram/inter.tsx:44-48 | a `loc` without a comma centres at (`Number(loc) \|\| 0`, 0); a `loc` spelled `x,y` from integers centres at (x, y) |
| Inter.DragLocReadsBack | src/components/diagram/inter.tsx:44-48 | the `${x},${y}` a drag writes splits into two pieces that `Number` reads back as x and y |
| Inter.HitBoxShape | src/components/diagram/inter.tsx:113-119 | a drop hits a node centred at (cx, cy) iff it lies within 60 to either side, 26 above and 50 below; the corners hit, and one step past the top, side or bottom misses |
| Inter.CenterDefaultsToZero | src/components/diagram/inter.tsx:44-48 | a missing `loc` centres at (0, 0), a `loc` without a comma has y = 0, and for every `loc` of two comma-free pieces each coordinate is `Number(piece) \|\| 0`, so a non-numeric piece counts as 0 ("a,b" centres at (0, 0)) |
| Inter.DroppedLinkIsProper | src/components/diagram/inter.tsx:111-133 | the intended link of a drop never loops back to its start, ends on a node whose box holds the drop point, and has empty labels; a link is meant iff the drop is on another node |
| Inter.DragMovesCenter | src/components/diagram/inter.tsx:90-97 | a drag step puts the centre of every node with the dragged key at the pointer minus the offset, changes only their `loc`, and keeps every other node |
| Inter.LabelEditReplacesMatching | src/components/diagram/inter.tsx:155-161 | a label edit replaces every link with the edited key by the edited link, which differs from the original only in the chosen label; other links are kept |
| Inter.InteractiveGraph.constructor | src/components/diagram/inter.tsx:35-40 | starts with the given nodes and links, nothing dragged, edited or started, link mode off |
| Inter.InteractiveGraph.HandleNodeMouseDown | src/components/diagram/inter.tsx:51-74 | link mode becomes `isTitle`; a title press starts a link at the node and tracks the pointer; a body press records the pointer's offset from the node's centre and keeps the link start |
| Inter.InteractiveGraph.HandleMouseMove | src/components/diagram/inter.tsx:76-98 | while drawing a link only the pointer is tracked; while dragging, the dragged nodes move so their centre keeps the offset; without a dragged key nothing changes |
| Inter.InteractiveGraph.HandleMouseUp | src/components/diagram/inter.tsx:100-147 | a link drawing reports nothing; dropped on another node it fails (`ok` false) at the missing `generateUUID` and keeps the start and the pointer; otherwise it clears both, leaving link mode on; a drag reports the first node with the dragged key once and clears the drag |
| Inter.InteractiveGraph.HandleLinkClick | src/components/diagram/inter.tsx:149-153 | the clicked link becomes the one being edited |
| Inter.InteractiveGraph.HandleLinkTextChange | src/components/diagram/inter.tsx:155-164 | the edited link replaces every link with its key, is reported once, and editing stops |
| EdgeEditor.CommitKeepsLinkInStep | src/components/diagram/custom-edge.tsx:77-102 | if the edge shows its stored link's labels, it still does after a commit once the reported event is applied by the reducer |
| EdgeEditor.DefaultLabelsKeepLinkInStep | src/components/diagram/custom-edge.tsx:47-70 | the two events of a double-click, applied by the reducer, give the edge's link the labels "Label" and "Relation" and change no other link |
| EdgeEditor.CustomEdge.constructor | src/components/diagram/custom-edge.tsx:36-37 | nothing is being edited and the canvas is told so |
| EdgeEditor.CustomEdge.HandleDoubleClick | src/components/diagram/custom-edge.tsx:47-70 | with both labels falsy: labels "Label"/"Relation" and exactly two `linkTextChanged` events, from side first, both with old text ""; otherwise nothing changes and nothing is reported |
| EdgeEditor.CustomEdge.HandleLabelClick | src/components/diagram/custom-edge.tsx:72-75 | that side opens for editing, starting from its label or "" |
| EdgeEditor.CustomEdge.HandleInput | src/components/diagram/custom-edge.tsx:149 | the typed text is kept |
| EdgeEditor.CustomEdge.HandleKeyPress | src/components/diagram/custom-edge.tsx:77-106 | on the open side, Enter sets it to the typed text, reports one event with the side's old label or "" and `isFromText` iff the side is from, and closes the editor; other keys change nothing |
| EdgeEditor.CustomEdge.HandleBlur | src/components/diagram/custom-edge.tsx:153 | the editor closes without reporting anything |
| Canvas.LoadedNodesAtOrigin | src/components/diagram/canvas.tsx:36-39 | every node the canvas maps from the loaded schemas, product types and types sits at (0, 0), since no mapper sets `loc` |
| Canvas.PositionEventsReportMoves | src/components/diagram/canvas.tsx:66-74 | exactly the moves that carry a position are reported, and nothing else |
| Canvas.PositionEventsAppend | src/components/diagram/canvas.tsx:66-74 | the events of a batch are those of its parts, joined in order, so each change contributes its event once and in batch order |
| Canvas.MoveEventReadsBack | src/components/diagram/canvas.tsx:68-72 | the reported `loc` reads back through the node mapper as the move's position; `newPosition` is not sent |
| Canvas.MoveErasesStoredPosition | src/components/diagram/canvas.tsx:68-72 | applied by the node reducer, a reported move sets the first matching node's stored position to undefined and changes nothing else |
| Canvas.RemoveEdgeMirrorsReducer | src/components/diagram/canvas.tsx:158 | removing an edge from the shown edges equals removing its link in the reducer and showing the rest |
| Canvas.EdgeRemovalsMirrorReducer | src/components/diagram/canvas.tsx:80-93 | after a batch of edge changes the shown edges are those of the link list the reported `linkRemoved` events produce |
| Canvas.Canvas.constructor | src/components/diagram/canvas.tsx:33-60 | the edges are the mapped links, nothing is selected, no label is edited |
| Canvas.Canvas.HandleNodesChange | src/components/diagram/canvas.tsx:63-77 | one `nodePositionChanged` with `loc = "x y"` per move carrying a position, in batch order |
| Canvas.Canvas.HandleEdgesChange | src/components/diagram/canvas.tsx:80-93 | removed edges leave the list, one `linkRemoved` per removal in order, in any state; edges in step with the link list stay in step |
| Canvas.Canvas.HandleConnect | src/components/diagram/canvas.tsx:96-122 | one new edge with a UUID-shaped key and empty labels, one `linkAdded` with that key, source and target and empty texts, in any state; edges in step with the link list stay in step unless the key was taken |
| Canvas.LabelWriteMirrorsReducer | src/components/diagram/custom-edge.tsx:77-102 | writing a label into the first shown edge with its id gives the edges of the link list that the reported `linkTextChanged` produces |
| Canvas.Canvas.EdgeLabelCommitted | src/components/diagram/custom-edge.tsx:77-102 | a commit sets that side of the canvas's own edge to the text and reports one event with the side's old label or ""; the edges stay in step with the link list when the edge is the first with its id |
| Canvas.Canvas.EdgeDoubleClicked | src/components/diagram/custom-edge.tsx:47-70 | an edge with neither label gets "Label" and "Relation" in the canvas's own edge list and reports the two default events; otherwise nothing changes; the edges stay in step as for a commit |
| Canvas.Canvas.OnEdgeClick | src/components/diagram/canvas.tsx:139-142 | the clicked edge is selected |
| Canvas.Canvas.OnPaneClick | src/components/diagram/canvas.tsx:145-147 | the selection is cleared |
| Canvas.Canvas.SetIsEditing | src/components/diagram/canvas.tsx:33 | the label-editing flag the edges report is kept |
| Canvas.Canvas.HandleKeyDown | src/components/diagram/canvas.tsx:149-170 | Delete or Backspace on a truthy selection while no label is edited removes the edge and reports one `linkRemoved` if it is shown, and clears the selection either way; otherwise nothing changes; runs in any state, and edges in step with the link list stay in step |

## Left out

- Floating-point geometry is not modelled. This covers `renderLink` in inter.tsx, the edge label positions and `getBezierPath` in custom-edge.tsx, and fractional coordinates. Coordinates are integers and pointers arrive already in drawing coordinates.
- The `svgRef` null checks and `getBoundingClientRect` in inter.tsx are not modelled. The drawing is always mounted.
- The clock and `Math.random` in `generateUUID` are not modelled. The generator takes its 31 random digits as input.
- `Inter.DroppedLink` is the link creation the code means, with the key as a parameter. The handler as written never reaches it.
- EdgeEditor.CustomEdge keeps the edge's labels as its own field. The canvas's copy of the same write is `Canvas.Canvas.EdgeLabelCommitted`. The model does not tie the two together, so the shared object is not modelled.
- Canvas.Canvas.EdgeLabelCommitted: the edges are proved to stay in step with the link list only for the first edge with its id. For a later edge with the same id the reducer relabels the first one.
- Flow-library internals are reduced to their effect on the edge list. This covers `useNodesState`, `useEdgesState`, `applyNodeChanges`, `applyEdgeChanges` and `addEdge`.
  - The canvas's node list is not modelled.
  - Edge changes other than removal leave the edges unchanged.
  - `addEdge` is an append. Its check against a duplicate connection is not modelled.
- `parseInt` and `Number` are modelled for decimal integers only. Hex prefixes, fractions, exponents, `Infinity` and Unicode whitespace are left out.
- Canvas.Canvas.HandleConnect: the edges are proved to stay in step with the link list only when the generated key is new. A taken key makes the reducer keep the old link.
- The network client in src/hooks/use-connector/index.ts is not part of this model.
  - `fetchAll` becomes the arguments of `Changes.ChangeProvider.Load`.
  - `saveLinkData` becomes a log of the payloads written.
  - The location list it passes to the mappers is ignored by them, so it does not appear.
- The deep copy `JSON.parse(JSON.stringify(...))` is modelled by value semantics. The previous snapshot is a value and cannot be changed by the update. A copy that drops `undefined` fields is not modelled.
- Real timers are discrete time (`Changes.ChangeProvider.Advance`). The React render cycle, batching of state updates and stale closures are not modelled.
- Component props that only wire callbacks are not modelled: `trackLinkChange` and `setIsEditing` handed to the edges, and `onLinkUpdate` and `onPositionChange`. Each handler logs what it reports instead.
- The label-editing input of the hand-drawn graph calls `handleLinkTextChange` on every keystroke. That closes the editor after one character; the model takes each call on its own.
- JSX, styling and `console.log` are not modelled.
- These components have no logic to model: custom-node.tsx, the app shell, the graph page, the diagram index and src/constants.ts.
