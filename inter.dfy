// The hand-drawn interactive graph (src/components/diagram/inter.tsx): nodes
// are dragged by their body, links are drawn by dragging from a node's title
// onto another node, and link labels are edited in place. The handlers take
// the pointer already translated into the drawing's coordinates.

module Inter {
  import opened Types
  import opened Numbers
  import Reducer

  /** The centre of a node box. */
  datatype Center = Center(x: int, y: int)

  /** `getNodeCenter`: a falsy `loc` is (0, 0); otherwise `loc` is split on ','
      and each of the first two pieces goes through `Number(..) || 0`. */
  function GetNodeCenter(node: Entity): (c: Center)
    ensures Truthy(node.loc) && ',' !in node.loc.value ==> c == Center(OrZero(ToNumber(node.loc.value)), 0)
    ensures forall x: int, y: int {:trigger DragLoc(x, y)} :: node.loc == Some(DragLoc(x, y)) ==> c == Center(x, y)
  {
    if !Truthy(node.loc) then Center(0, 0)
    else
      var parts := Split(node.loc.value, ',');
      if ',' !in node.loc.value then
        SplitNoSeparator(node.loc.value, ',');
        Center(OrZero(ToNumber(parts[0])), 0)
      else
        DragLocReadsBack(node.loc.value);
        Center(OrZero(ToNumber(parts[0])), if |parts| > 1 then OrZero(ToNumber(parts[1])) else 0)
  }

  /** A `loc` spelled `${x},${y}` splits back into the decimal spellings of
      x and y. */
  lemma DragLocReadsBack(loc: string)
    ensures forall x: int, y: int {:trigger DragLoc(x, y)} :: loc == DragLoc(x, y) ==>
      var parts := Split(loc, ',');
      |parts| == 2 && ToNumber(parts[0]) == Finite(x) && ToNumber(parts[1]) == Finite(y)
  {
    forall x: int, y: int | loc == DragLoc(x, y)
      ensures var parts := Split(loc, ',');
        |parts| == 2 && ToNumber(parts[0]) == Finite(x) && ToNumber(parts[1]) == Finite(y)
    {
      IntToStringChars(x);
      IntToStringChars(y);
      SplitPair(IntToString(x), ',', IntToString(y));
      ToNumberRoundTrip(x);
      ToNumberRoundTrip(y);
    }
  }

  /** Unlike the canvas's node mapper, the centre never holds NaN: a missing
      `loc` is (0, 0), a `loc` without a comma has y = 0, and each of two
      comma-free pieces goes through `Number(..) || 0`, so a piece that is
      not a number counts as 0. */
  lemma CenterDefaultsToZero(node: Entity)
    ensures !Truthy(node.loc) ==> GetNodeCenter(node) == Center(0, 0)
    ensures Truthy(node.loc) && ',' !in node.loc.value ==> GetNodeCenter(node).y == 0
    ensures forall p: string, q: string {:trigger p + "," + q} :: ',' !in p && ',' !in q && node.loc == Some(p + "," + q) ==>
      GetNodeCenter(node) == Center(OrZero(ToNumber(p)), OrZero(ToNumber(q)))
    ensures GetNodeCenter(node.(loc := Some("a,b"))) == Center(0, 0)
  {
    forall p: string, q: string | ',' !in p && ',' !in q && node.loc == Some(p + "," + q)
      ensures GetNodeCenter(node) == Center(OrZero(ToNumber(p)), OrZero(ToNumber(q)))
    {
      assert p + "," + q == p + [','] + q;
      SplitPair(p, ',', q);
    }
    assert "a,b" == "a" + [','] + "b";
    SplitPair("a", ',', "b");
  }

  /** The `loc` a drag writes: `${x},${y}`. */
  function DragLoc(x: int, y: int): string {
    IntToString(x) + "," + IntToString(y)
  }

  /** The hit box used when a link is dropped: 60 to either side of the
      centre, from 26 above it (below the title) to 50 below it. */
  predicate Hits(node: Entity, x: int, y: int) {
    var c := GetNodeCenter(node);
    c.x - 60 <= x <= c.x + 60 && c.y - 26 <= y <= c.y + 50
  }

  /** The hit box of a node placed at (cx, cy) by a drag: exactly the points
      at most 60 to either side, 26 above and 50 below; a drop on the title
      band just above, or just past either side, misses. */
  lemma HitBoxShape(node: Entity, cx: int, cy: int, x: int, y: int)
    ensures var placed := node.(loc := Some(DragLoc(cx, cy)));
      && (Hits(placed, x, y) <==> cx - 60 <= x <= cx + 60 && cy - 26 <= y <= cy + 50)
      && Hits(placed, cx, cy) && Hits(placed, cx - 60, cy - 26) && Hits(placed, cx + 60, cy + 50)
      && !Hits(placed, cx, cy - 27) && !Hits(placed, cx + 61, cy) && !Hits(placed, cx, cy + 51)
  {
    var placed := node.(loc := Some(DragLoc(cx, cy)));
    assert GetNodeCenter(placed) == Center(cx, cy);
  }

  /** `nodes.find(...)` with the hit test: the first node in list order whose
      box holds the point. */
  function FindTarget(nodes: seq<Entity>, x: int, y: int): (r: Option<Entity>)
    ensures r.None? <==> forall i :: 0 <= i < |nodes| ==> !Hits(nodes[i], x, y)
    ensures r.Some? ==> exists i :: 0 <= i < |nodes| && nodes[i] == r.value && Hits(nodes[i], x, y)
                                    && forall j :: 0 <= j < i ==> !Hits(nodes[j], x, y)
  {
    if |nodes| == 0 then None
    else if Hits(nodes[0], x, y) then Some(nodes[0])
    else
      var r := FindTarget(nodes[1..], x, y);
      assert forall i :: 1 <= i < |nodes| ==> nodes[i] == nodes[1..][i - 1];
      r
  }

  /** A title drag ends on a node other than the one it started from: the
      first node hit has a key different from the start's. */
  predicate DropsOnOtherNode(nodes: seq<Entity>, start: Entity, x: int, y: int) {
    var target := FindTarget(nodes, x, y);
    target.Some? && target.value.key != start.key
  }

  /** The link a finished title drag is meant to create, if any: to the node
      under the pointer, from the node the drag started on, with empty labels,
      unless there is no such node or it has the start node's key. The
      handler as written never gets this far (see `HandleMouseUp`). */
  function DroppedLink(nodes: seq<Entity>, start: Entity, x: int, y: int, newKey: string): Option<LinkData> {
    match FindTarget(nodes, x, y)
    case Some(target) =>
      if target.key != start.key then Some(LinkData(newKey, start.key, target.key, Some(""), Some(""))) else None
    case None => None
  }

  /** A dropped link never loops back to its start node, ends on a node whose
      box holds the drop point, and starts with empty labels; a link is meant
      exactly when the drag ends on another node. */
  lemma DroppedLinkIsProper(nodes: seq<Entity>, start: Entity, x: int, y: int, newKey: string)
    ensures var r := DroppedLink(nodes, start, x, y, newKey);
      && (r.Some? <==> DropsOnOtherNode(nodes, start, x, y))
      && (r.None? <==> FindTarget(nodes, x, y).None? || FindTarget(nodes, x, y).value.key == start.key)
      && (r.Some? ==>
           && r.value.key == newKey && r.value.from == start.key && r.value.from != r.value.to
           && r.value.text == Some("") && r.value.toText == Some("")
           && exists i :: 0 <= i < |nodes| && nodes[i].key == r.value.to && Hits(nodes[i], x, y))
  {
  }

  /** The nodes after a drag step: every node with the dragged key gets `loc`. */
  function MovedTo(nodes: seq<Entity>, key: string, loc: string): seq<Entity> {
    seq(|nodes|, i requires 0 <= i < |nodes| => if nodes[i].key == key then nodes[i].(loc := Some(loc)) else nodes[i])
  }

  /** A drag step puts the centre of the dragged node at the given point and
      leaves every other node as it was. */
  lemma DragMovesCenter(nodes: seq<Entity>, key: string, x: int, y: int)
    ensures var r := MovedTo(nodes, key, DragLoc(x, y));
      && |r| == |nodes|
      && forall i :: 0 <= i < |nodes| ==>
           if nodes[i].key == key then GetNodeCenter(r[i]) == Center(x, y) && r[i].(loc := nodes[i].loc) == nodes[i]
           else r[i] == nodes[i]
  {
  }

  /** Which label `handleLinkTextChange` writes. */
  datatype LinkField = TextField | ToTextField

  /** `{ ...link, [field]: value }`. */
  function WithField(link: LinkData, field: LinkField, value: string): LinkData {
    match field
    case TextField => link.(text := Some(value))
    case ToTextField => link.(toText := Some(value))
  }

  /** `links.map((l) => (l.key === key ? updated : l))`. */
  function ReplaceByKey(links: seq<LinkData>, updated: LinkData): seq<LinkData> {
    seq(|links|, i requires 0 <= i < |links| => if links[i].key == updated.key then updated else links[i])
  }

  /** A label edit replaces the links with the edited key by the edited link,
      whose other label and endpoints are those of the link edited, and keeps
      every other link. */
  lemma LabelEditReplacesMatching(links: seq<LinkData>, link: LinkData, field: LinkField, value: string)
    ensures var updated := WithField(link, field, value);
      var r := ReplaceByKey(links, updated);
      && |r| == |links|
      && updated.key == link.key && updated.from == link.from && updated.to == link.to
      && (if field == TextField then updated.text == Some(value) && updated.toText == link.toText
          else updated.toText == Some(value) && updated.text == link.text)
      && forall i :: 0 <= i < |links| ==> r[i] == (if links[i].key == link.key then updated else links[i])
  {
  }

  /** What `draggedNode` holds: the pointer while a link is drawn, or the
      dragged node's key and the pointer's offset from its centre. */
  datatype Dragged = PointerAt(x: int, y: int) | Dragging(key: string, offsetX: int, offsetY: int)

  /** `draggedNode?.key` is truthy. */
  predicate DragsKey(d: Option<Dragged>) {
    d.Some? && d.value.Dragging? && d.value.key != ""
  }

  /** The callbacks the graph reports to its owner. */
  datatype Notification = PositionChange(node: Entity) | LinkUpdate(link: LinkData) | LinkCreate(link: LinkData)

  class InteractiveGraph {
    var nodes: seq<Entity>
    var links: seq<LinkData>
    var draggedNode: Option<Dragged>
    var editingLink: Option<LinkData>
    var linkCreationMode: bool
    var linkStart: Option<Entity>
    /** Every callback invoked so far, in order. */
    var notified: seq<Notification>

    constructor (initialNodes: seq<Entity>, initialLinks: seq<LinkData>)
      ensures nodes == initialNodes && links == initialLinks
      ensures draggedNode == None && editingLink == None && !linkCreationMode && linkStart == None
      ensures notified == []
    {
      nodes, links := initialNodes, initialLinks;
      draggedNode, editingLink := None, None;
      linkCreationMode, linkStart := false, None;
      notified := [];
    }

    /** `handleNodeMouseDown`: on a title, start drawing a link from `node`; on
        the body, start dragging `node`, remembering the pointer's offset from
        its centre (the link start is left as it was). */
    method HandleNodeMouseDown(x: int, y: int, node: Entity, isTitle: bool)
      modifies this
      ensures linkCreationMode == isTitle
      ensures isTitle ==> linkStart == Some(node) && draggedNode == Some(PointerAt(x, y))
      ensures !isTitle ==> linkStart == old(linkStart)
      ensures !isTitle ==> draggedNode == Some(Dragging(node.key, x - GetNodeCenter(node).x, y - GetNodeCenter(node).y))
      ensures nodes == old(nodes) && links == old(links) && editingLink == old(editingLink)
      ensures notified == old(notified)
    {
      linkCreationMode := isTitle;
      if isTitle {
        linkStart := Some(node);
        draggedNode := Some(PointerAt(x, y));
        return;
      }
      var nodeCenter := GetNodeCenter(node);
      draggedNode := Some(Dragging(node.key, x - nodeCenter.x, y - nodeCenter.y));
    }

    /** `handleMouseMove`: while drawing a link, track the pointer; while
        dragging a node, move it so its centre keeps the recorded offset from
        the pointer; otherwise nothing. */
    method HandleMouseMove(x: int, y: int)
      modifies this
      ensures linkCreationMode && old(linkStart).Some? ==>
        draggedNode == Some(PointerAt(x, y)) && nodes == old(nodes)
      ensures !(linkCreationMode && old(linkStart).Some?) ==> draggedNode == old(draggedNode)
      ensures !(linkCreationMode && old(linkStart).Some?) && DragsKey(old(draggedNode)) ==>
        var d := old(draggedNode).value;
        nodes == MovedTo(old(nodes), d.key, DragLoc(x - d.offsetX, y - d.offsetY))
      ensures !(linkCreationMode && old(linkStart).Some?) && !DragsKey(old(draggedNode)) ==> nodes == old(nodes)
      ensures links == old(links) && linkStart == old(linkStart) && linkCreationMode == old(linkCreationMode)
      ensures editingLink == old(editingLink) && notified == old(notified)
    {
      if linkCreationMode && linkStart.Some? {
        draggedNode := Some(PointerAt(x, y));
        return;
      }
      if !DragsKey(draggedNode) {
        return;
      }
      var d := draggedNode.value;
      nodes := MovedTo(nodes, d.key, DragLoc(x - d.offsetX, y - d.offsetY));
    }

    /** `handleMouseUp`. A link drawing that ends on another node builds the
        link with `generateUUID()`, which this file imports from './canvas';
        that module exports no such name, and the graph page always supplies
        `onLinkCreate`, so building its argument throws before any state is
        set: `ok` is false, nothing is reported and the drawing stays
        armed. Any other link drawing clears the start and the pointer (link
        mode stays on). A node drag ends by reporting the first node with the
        dragged key once and clearing the drag. */
    method HandleMouseUp(x: int, y: int) returns (ok: bool)
      modifies this
      ensures ok <==> !(linkCreationMode && old(linkStart).Some? && DropsOnOtherNode(nodes, old(linkStart).value, x, y))
      ensures !ok ==> draggedNode == old(draggedNode) && linkStart == old(linkStart)
      ensures linkCreationMode && old(linkStart).Some? ==> notified == old(notified)
      ensures linkCreationMode && old(linkStart).Some? && ok ==> linkStart == None && draggedNode == None
      ensures !(linkCreationMode && old(linkStart).Some?) && DragsKey(old(draggedNode)) ==>
        && notified == old(notified) + (match Reducer.FirstIndex(nodes, EntityKey, old(draggedNode).value.key)
                                        case Some(i) => [PositionChange(nodes[i])]
                                        case None => [])
        && draggedNode == None && linkStart == old(linkStart)
      ensures !(linkCreationMode && old(linkStart).Some?) && !DragsKey(old(draggedNode)) ==>
        notified == old(notified) && draggedNode == old(draggedNode) && linkStart == old(linkStart)
      ensures nodes == old(nodes) && links == old(links)
      ensures linkCreationMode == old(linkCreationMode) && editingLink == old(editingLink)
    {
      ok := true;
      if linkCreationMode && linkStart.Some? {
        if DropsOnOtherNode(nodes, linkStart.value, x, y) {
          ok := false;
          return;
        }
        linkStart := None;
        draggedNode := None;
        return;
      }
      if DragsKey(draggedNode) {
        var found := Reducer.FirstIndex(nodes, EntityKey, draggedNode.value.key);
        if found.Some? {
          notified := notified + [PositionChange(nodes[found.value])];
        }
        draggedNode := None;
      }
    }

    /** `handleLinkClick`: start editing the labels of `link`. */
    method HandleLinkClick(link: LinkData)
      modifies this`editingLink
      ensures editingLink == Some(link)
    {
      editingLink := Some(link);
    }

    /** `handleLinkTextChange`: write one label of `link`, replace every link
        with its key by the result, report it, and stop editing. */
    method HandleLinkTextChange(link: LinkData, field: LinkField, value: string)
      modifies this`links, this`notified, this`editingLink
      ensures links == ReplaceByKey(old(links), WithField(link, field, value))
      ensures notified == old(notified) + [LinkUpdate(WithField(link, field, value))]
      ensures editingLink == None
    {
      var updatedLink := WithField(link, field, value);
      links := ReplaceByKey(links, updatedLink);
      notified := notified + [LinkUpdate(updatedLink)];
      editingLink := None;
    }
  }
}
