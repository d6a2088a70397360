// The flow canvas (src/components/diagram/canvas.tsx): it shows the loaded
// entities and links as nodes and edges, and reports node moves, edge
// removals, new connections and keyboard deletions as change events.
//
// The node list and the node moves themselves belong to the flow library;
// the canvas keeps its edge list, its selection and what it reported.

module Canvas {
  import opened Types
  import opened Numbers
  import Reducer
  import Utils
  import EdgeEditor
  import Mapper

  /** A node change from the flow library: a move, carrying the new position
      when there is one, or any other kind. */
  datatype NodeChange = NodeMoved(id: string, position: Option<Position>) | OtherNodeChange(id: string)

  /** An edge change from the flow library: a removal, or any other kind. */
  datatype EdgeChange = EdgeRemoved(id: string) | OtherEdgeChange(id: string)

  /** A new connection drawn between two nodes. */
  datatype Connection = Connection(source: string, target: string)

  /** A move that carries a position is reported. */
  predicate Reported(c: NodeChange) {
    c.NodeMoved? && c.position.Some?
  }

  /** The event reported for a move: the position goes into `loc` as
      `${x} ${y}`, and `newPosition` is not sent. */
  function MoveEvent(c: NodeChange): ChangeEvent
    requires Reported(c)
  {
    NodePositionChanged(c.id, None, Some(Utils.LocString(c.position.value.x, c.position.value.y)))
  }

  /** No mapper sets `loc`, so every node the canvas shows for the loaded
      lists (schemas, then product types, then types) sits at (0, 0). */
  lemma LoadedNodesAtOrigin(schemas: seq<Mapper.SchemaTypeResponse>, productTypes: seq<Mapper.ProductTypeResponse>,
                            types: seq<Mapper.TypeResponse>)
    ensures var data := Mapper.MapSchemaTypeToGoEntities(schemas) + Mapper.MapProductTypeToGoEntities(productTypes)
                        + Mapper.MapTypeToGoEntities(types);
      forall i :: 0 <= i < |data| ==> Utils.NodeMapper(data[i]).position == Utils.XYPosition(Finite(0), Finite(0))
  {
  }

  /** The events reported for a batch of node changes, in order. */
  function PositionEvents(cs: seq<NodeChange>): seq<ChangeEvent>
    decreases |cs|
  {
    if |cs| == 0 then []
    else PositionEvents(cs[..|cs| - 1]) + (if Reported(cs[|cs| - 1]) then [MoveEvent(cs[|cs| - 1])] else [])
  }

  /** Exactly the moves with a position are reported, never more events
      than changes; `PositionEventsAppend` gives the order. */
  lemma {:induction false} PositionEventsReportMoves(cs: seq<NodeChange>)
    ensures |PositionEvents(cs)| <= |cs|
    ensures forall c :: c in cs && Reported(c) ==> MoveEvent(c) in PositionEvents(cs)
    ensures forall e :: e in PositionEvents(cs) ==> exists c :: c in cs && Reported(c) && e == MoveEvent(c)
    decreases |cs|
  {
    if |cs| > 0 {
      var init := cs[..|cs| - 1];
      PositionEventsReportMoves(init);
      assert cs == init + [cs[|cs| - 1]];
      forall e | e in PositionEvents(cs)
        ensures exists c :: c in cs && Reported(c) && e == MoveEvent(c)
      {
        if e in PositionEvents(init) {
          var c :| c in init && Reported(c) && e == MoveEvent(c);
          assert c in cs;
        } else {
          assert e == MoveEvent(cs[|cs| - 1]);
        }
      }
    }
  }

  /** The events of a batch are those of its first part followed by those
      of the rest: each change contributes its own event, once, in batch
      order. */
  lemma {:induction false} PositionEventsAppend(a: seq<NodeChange>, b: seq<NodeChange>)
    ensures PositionEvents(a + b) == PositionEvents(a) + PositionEvents(b)
    decreases |b|
  {
    if |b| == 0 {
      assert a + b == a;
    } else {
      var init := b[..|b| - 1];
      assert (a + b)[..|a + b| - 1] == a + init;
      assert (a + b)[|a + b| - 1] == b[|b| - 1];
      PositionEventsAppend(a, init);
    }
  }

  /** The `loc` a move reports reads back, through the node mapper, as the
      position of the move; the event itself leaves `newPosition` unset. */
  lemma MoveEventReadsBack(c: NodeChange)
    requires Reported(c)
    ensures MoveEvent(c).nodeKey == c.id && MoveEvent(c).newPosition == None
    ensures Utils.PositionOf(MoveEvent(c).loc) == Utils.XYPosition(Finite(c.position.value.x), Finite(c.position.value.y))
  {
    var node := Entity(c.id, Point(0, 0), [], None, MoveEvent(c).loc, None);
    Utils.LocRoundTrip(node, c.position.value.x, c.position.value.y);
  }

  /** A reported move, once applied to the node list, erases the stored
      position of the first node with the moved key, since the reducer writes
      `newPosition` and the canvas sends `loc`. */
  lemma MoveErasesStoredPosition(nodes: seq<Entity>, c: NodeChange)
    requires Reported(c)
    ensures var r := Reducer.ApplyNodeChange(nodes, MoveEvent(c));
      && |r| == |nodes|
      && forall j :: 0 <= j < |nodes| ==>
           r[j] == if Reducer.IsFirstNodeWithKey(nodes, j, c.id) then nodes[j].(position := None) else nodes[j]
  {
    Reducer.NodePositionFirstMatch(nodes, MoveEvent(c));
  }

  /** The edges the canvas shows for a link list. */
  function MapEdges(links: seq<LinkData>): seq<Utils.FlowEdge> {
    seq(|links|, i requires 0 <= i < |links| => Utils.EdgeMapper(links[i]))
  }

  lemma MapEdgesAppend(a: seq<LinkData>, b: seq<LinkData>)
    ensures MapEdges(a + b) == MapEdges(a) + MapEdges(b)
  {
    assert forall i :: 0 <= i < |a + b| ==> MapEdges(a + b)[i] == (MapEdges(a) + MapEdges(b))[i];
  }

  /** `edges.filter((edge) => edge.id !== id)`. */
  function RemoveEdge(edges: seq<Utils.FlowEdge>, id: string): seq<Utils.FlowEdge> {
    if |edges| == 0 then []
    else (if edges[0].id == id then [] else [edges[0]]) + RemoveEdge(edges[1..], id)
  }

  /** Removing an edge from the shown edges is removing its link from the
      link list and showing the rest. */
  lemma {:induction false} RemoveEdgeMirrorsReducer(links: seq<LinkData>, id: string)
    ensures RemoveEdge(MapEdges(links), id) == MapEdges(Reducer.WithoutKey(links, id))
    decreases |links|
  {
    if |links| > 0 {
      assert MapEdges(links)[0] == Utils.EdgeMapper(links[0]);
      assert MapEdges(links)[1..] == MapEdges(links[1..]);
      RemoveEdgeMirrorsReducer(links[1..], id);
      MapEdgesAppend(if links[0].key == id then [] else [links[0]], Reducer.WithoutKey(links[1..], id));
    }
  }

  /** What the flow library does with a batch of edge changes, as far as the
      edge list goes: each removal drops the edges with its id. */
  function RemovedEdges(edges: seq<Utils.FlowEdge>, cs: seq<EdgeChange>): seq<Utils.FlowEdge>
    decreases |cs|
  {
    if |cs| == 0 then edges
    else
      var before := RemovedEdges(edges, cs[..|cs| - 1]);
      if cs[|cs| - 1].EdgeRemoved? then RemoveEdge(before, cs[|cs| - 1].id) else before
  }

  /** The events reported for a batch of edge changes: one `linkRemoved` per
      removal, in order. */
  function RemoveEvents(cs: seq<EdgeChange>): seq<ChangeEvent>
    decreases |cs|
  {
    if |cs| == 0 then []
    else RemoveEvents(cs[..|cs| - 1]) + (if cs[|cs| - 1].EdgeRemoved? then [LinkRemoved(cs[|cs| - 1].id)] else [])
  }

  /** A batch of edge changes leaves the shown edges those of the link list
      the reported events produce. */
  lemma {:induction false} EdgeRemovalsMirrorReducer(links: seq<LinkData>, cs: seq<EdgeChange>)
    ensures RemovedEdges(MapEdges(links), cs) == MapEdges(Reducer.ApplyLinkChanges(links, RemoveEvents(cs)))
    decreases |cs|
  {
    if |cs| > 0 {
      var init := cs[..|cs| - 1];
      var last := cs[|cs| - 1];
      EdgeRemovalsMirrorReducer(links, init);
      var tail := if last.EdgeRemoved? then [LinkRemoved(last.id)] else [];
      Reducer.ApplyLinkChangesAppend(links, RemoveEvents(init), tail);
      var before := Reducer.ApplyLinkChanges(links, RemoveEvents(init));
      if last.EdgeRemoved? {
        assert Reducer.ApplyLinkChanges(before, tail) == Reducer.WithoutKey(before, last.id) by {
          assert tail[1..] == [];
        }
        RemoveEdgeMirrorsReducer(before, last.id);
      }
    }
  }

  /** Whether an edge with this id is shown (`edges.find(...)` succeeds). */
  predicate HasEdge(edges: seq<Utils.FlowEdge>, id: string) {
    exists i :: 0 <= i < |edges| && edges[i].id == id
  }

  /** The edge a new connection gives: empty labels, custom type. */
  function ConnectionEdge(id: string, conn: Connection): Utils.FlowEdge {
    Utils.FlowEdge(id, conn.source, conn.target, Some(""), Some(""), "custom")
  }

  /** The event a new connection reports. */
  function ConnectionEvent(id: string, conn: Connection): ChangeEvent {
    LinkAdded(id, conn.source, conn.target, Some(""), Some(""))
  }

  /** A keyboard deletion applies: Delete or Backspace, a truthy selection,
      and no label being edited. */
  predicate DeletesSelection(key: string, selectedEdge: Option<string>, isEditingLabel: bool) {
    (key == "Delete" || key == "Backspace") && Truthy(selectedEdge) && !isEditingLabel
  }

  /** Index k holds the first shown edge with its id. */
  predicate IsFirstEdge(edges: seq<Utils.FlowEdge>, k: int) {
    0 <= k < |edges| && forall i :: 0 <= i < k ==> edges[i].id != edges[k].id
  }

  /** The labels an edge component reads from its edge's `data`. */
  function EdgeLabelsOf(e: Utils.FlowEdge): EdgeEditor.EdgeLabels {
    EdgeEditor.EdgeLabels(e.fromLabel, e.toLabel)
  }

  /** The edge after its component writes `data.label` or `data.toLabel`. */
  function WithEdgeLabel(e: Utils.FlowEdge, side: EdgeEditor.Side, text: string): Utils.FlowEdge {
    if side == EdgeEditor.FromSide then e.(fromLabel := Some(text)) else e.(toLabel := Some(text))
  }

  /** Writing a label into the first shown edge with its id gives the edges
      of the link list that the reported `linkTextChanged` event produces. */
  lemma LabelWriteMirrorsReducer(links: seq<LinkData>, k: int, side: EdgeEditor.Side, text: string)
    requires IsFirstEdge(MapEdges(links), k)
    ensures var edges := MapEdges(links);
      edges[k := WithEdgeLabel(edges[k], side, text)]
        == MapEdges(Reducer.ApplyLinkChange(links, EdgeEditor.CommitEvent(edges[k].id, EdgeLabelsOf(edges[k]), side, text)))
  {
    var edges := MapEdges(links);
    var e := EdgeEditor.CommitEvent(edges[k].id, EdgeLabelsOf(edges[k]), side, text);
    Reducer.LinkTextChangedFirstMatch(links, e);
    assert Reducer.IsFirstWithKey(links, k, e.key) by {
      forall i | 0 <= i < k
        ensures links[i].key != e.key
      {
        assert edges[i].id == links[i].key;
      }
    }
  }

  class Canvas {
    /** The link list the canvas was opened with. */
    ghost const initialLinks: seq<LinkData>
    var edges: seq<Utils.FlowEdge>
    var selectedEdge: Option<string>
    var isEditingLabel: bool
    /** Every event reported through `trackLinkChange`, in order. */
    var linkEvents: seq<ChangeEvent>
    /** Every event reported through `trackNodeChange`, in order. */
    var nodeEvents: seq<ChangeEvent>

    /** The shown edges are those of the link list that the reported link
        events make of the initial one. This says the edges are in step with
        the links; it is not a class invariant, since a taken key or a
        relabelled later duplicate puts them out of step, and every handler
        runs whether it holds or not. */
    ghost predicate Valid()
      reads this
    {
      edges == MapEdges(Reducer.ApplyLinkChanges(initialLinks, linkEvents))
    }

    /** The canvas opens on the loaded links; no label is being edited. */
    constructor (linkData: seq<LinkData>)
      ensures Valid()
      ensures edges == MapEdges(linkData)
      ensures selectedEdge == None && !isEditingLabel
      ensures linkEvents == [] && nodeEvents == []
    {
      initialLinks := linkData;
      edges := MapEdges(linkData);
      selectedEdge := None;
      isEditingLabel := false;
      linkEvents, nodeEvents := [], [];
    }

    /** `handleNodesChange`: report every move that carries a position. */
    method HandleNodesChange(changes: seq<NodeChange>)
      modifies this`nodeEvents
      ensures nodeEvents == old(nodeEvents) + PositionEvents(changes)
    {
      for i := 0 to |changes|
        invariant nodeEvents == old(nodeEvents) + PositionEvents(changes[..i])
      {
        assert changes[..i + 1][..i] == changes[..i];
        var change := changes[i];
        if change.NodeMoved? && change.position.Some? {
          var p := change.position.value;
          nodeEvents := nodeEvents + [NodePositionChanged(change.id, None, Some(Utils.LocString(p.x, p.y)))];
        }
      }
      assert changes[..|changes|] == changes;
    }

    /** `handleEdgesChange`: hand the batch to the flow library, then report
        every removal. */
    method HandleEdgesChange(changes: seq<EdgeChange>)
      modifies this`edges, this`linkEvents
      ensures old(Valid()) ==> Valid()
      ensures edges == RemovedEdges(old(edges), changes)
      ensures linkEvents == old(linkEvents) + RemoveEvents(changes)
    {
      edges := RemovedEdges(edges, changes);
      for i := 0 to |changes|
        modifies this`linkEvents
        invariant linkEvents == old(linkEvents) + RemoveEvents(changes[..i])
      {
        assert changes[..i + 1][..i] == changes[..i];
        if changes[i].EdgeRemoved? {
          linkEvents := linkEvents + [LinkRemoved(changes[i].id)];
        }
      }
      assert changes[..|changes|] == changes;
      var before := Reducer.ApplyLinkChanges(initialLinks, old(linkEvents));
      EdgeRemovalsMirrorReducer(before, changes);
      Reducer.ApplyLinkChangesAppend(initialLinks, old(linkEvents), RemoveEvents(changes));
    }

    /** `handleConnect`: add an edge with a fresh key and empty labels, and
        report the new link. `nibbles` are the key generator's random
        digits. The shown edges stay those of the link list unless the key
        is already taken, in which case the reducer keeps the old link. */
    method HandleConnect(conn: Connection, nibbles: seq<Utils.Nibble>) returns (id: string)
      requires |nibbles| == 31
      modifies this`edges, this`linkEvents
      ensures |id| == 36 && forall i :: 0 <= i < 36 ==> Utils.ShapeAt(i, id[i])
      ensures edges == old(edges) + [ConnectionEdge(id, conn)]
      ensures linkEvents == old(linkEvents) + [ConnectionEvent(id, conn)]
      ensures old(Valid()) && !Reducer.HasKey(Reducer.ApplyLinkChanges(initialLinks, old(linkEvents)), id) ==> Valid()
    {
      id := Utils.GenerateUuid(nibbles);
      var newEdge := Utils.FlowEdge(id, conn.source, conn.target, Some(""), Some(""), "custom");
      edges := edges + [newEdge];
      linkEvents := linkEvents + [LinkAdded(id, conn.source, conn.target, Some(""), Some(""))];
      var before := Reducer.ApplyLinkChanges(initialLinks, old(linkEvents));
      Reducer.ApplyLinkChangesAppend(initialLinks, old(linkEvents), [ConnectionEvent(id, conn)]);
      assert Reducer.ApplyLinkChanges(before, [ConnectionEvent(id, conn)])
          == Reducer.ApplyLinkChange(before, ConnectionEvent(id, conn));
      MapEdgesAppend(before, [Reducer.NewLink(ConnectionEvent(id, conn))]);
    }

    /** An edge component commits a label (Enter in `handleKeyPress`): it
        writes the label into its edge's `data`, which is the object the
        canvas keeps at index k of `edges`, and reports the change with the
        side's previous label or "". The edges stay in step with the link
        list when that edge is the first with its id. */
    method EdgeLabelCommitted(k: nat, side: EdgeEditor.Side, text: string)
      requires k < |edges|
      modifies this`edges, this`linkEvents
      ensures edges == old(edges)[k := WithEdgeLabel(old(edges)[k], side, text)]
      ensures linkEvents == old(linkEvents) + [EdgeEditor.CommitEvent(old(edges)[k].id, EdgeLabelsOf(old(edges)[k]), side, text)]
      ensures old(Valid()) && IsFirstEdge(old(edges), k) ==> Valid()
    {
      var event := EdgeEditor.CommitEvent(edges[k].id, EdgeLabelsOf(edges[k]), side, text);
      var before := Reducer.ApplyLinkChanges(initialLinks, linkEvents);
      if edges == MapEdges(before) && IsFirstEdge(edges, k) {
        LabelWriteMirrorsReducer(before, k, side, text);
        Reducer.ApplyLinkChangesAppend(initialLinks, linkEvents, [event]);
        assert Reducer.ApplyLinkChanges(before, [event]) == Reducer.ApplyLinkChange(before, event);
      }
      edges := edges[k := WithEdgeLabel(edges[k], side, text)];
      linkEvents := linkEvents + [event];
    }

    /** An edge component's `handleDoubleClick`: an edge with neither label
        gets "Label" and "Relation" written into its `data`, and both changes
        are reported, from side first; an edge with either label is left
        alone. */
    method EdgeDoubleClicked(k: nat)
      requires k < |edges|
      modifies this`edges, this`linkEvents
      ensures var e := old(edges)[k];
        if !Truthy(e.fromLabel) && !Truthy(e.toLabel) then
          && edges == old(edges)[k := e.(fromLabel := Some("Label"), toLabel := Some("Relation"))]
          && linkEvents == old(linkEvents) + EdgeEditor.DefaultLabelEvents(e.id)
        else edges == old(edges) && linkEvents == old(linkEvents)
      ensures old(Valid()) && IsFirstEdge(old(edges), k) ==> Valid()
    {
      if !Truthy(edges[k].fromLabel) && !Truthy(edges[k].toLabel) {
        EdgeLabelCommitted(k, EdgeEditor.FromSide, "Label");
        EdgeLabelCommitted(k, EdgeEditor.ToSide, "Relation");
      }
    }

    /** `onEdgeClick`: select the clicked edge. */
    method OnEdgeClick(edgeId: string)
      modifies this`selectedEdge
      ensures selectedEdge == Some(edgeId)
    {
      selectedEdge := Some(edgeId);
    }

    /** `onPaneClick`: clear the selection. */
    method OnPaneClick()
      modifies this`selectedEdge
      ensures selectedEdge == None
    {
      selectedEdge := None;
    }

    /** `setIsEditingLabel`, handed to every edge. */
    method SetIsEditing(editing: bool)
      modifies this`isEditingLabel
      ensures isEditingLabel == editing
    {
      isEditingLabel := editing;
    }

    /** `handleKeyDown`: Delete or Backspace on a selected edge, while no label
        is edited, removes the edge if it is shown, reports the removal, and
        clears the selection either way; anything else does nothing. */
    method HandleKeyDown(key: string)
      modifies this`edges, this`linkEvents, this`selectedEdge
      ensures old(Valid()) ==> Valid()
      ensures DeletesSelection(key, old(selectedEdge), isEditingLabel) ==> selectedEdge == None
      ensures DeletesSelection(key, old(selectedEdge), isEditingLabel) && HasEdge(old(edges), old(selectedEdge).value) ==>
        && edges == RemoveEdge(old(edges), old(selectedEdge).value)
        && linkEvents == old(linkEvents) + [LinkRemoved(old(selectedEdge).value)]
      ensures !(DeletesSelection(key, old(selectedEdge), isEditingLabel) && HasEdge(old(edges), old(selectedEdge).value)) ==>
        edges == old(edges) && linkEvents == old(linkEvents)
      ensures !DeletesSelection(key, old(selectedEdge), isEditingLabel) ==> selectedEdge == old(selectedEdge)
    {
      if (key == "Delete" || key == "Backspace") && Truthy(selectedEdge) && !isEditingLabel {
        var selected := selectedEdge.value;
        var found := Reducer.FirstIndex(edges, (e: Utils.FlowEdge) => e.id, selected);
        if found.Some? {
          edges := RemoveEdge(edges, selected);
          linkEvents := linkEvents + [LinkRemoved(selected)];
          var before := Reducer.ApplyLinkChanges(initialLinks, old(linkEvents));
          Reducer.ApplyLinkChangesAppend(initialLinks, old(linkEvents), [LinkRemoved(selected)]);
          assert Reducer.ApplyLinkChanges(before, [LinkRemoved(selected)]) == Reducer.WithoutKey(before, selected);
          RemoveEdgeMirrorsReducer(before, selected);
        }
        selectedEdge := None;
      }
    }
  }
}
