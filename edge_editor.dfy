// The label editor of one canvas edge (src/components/diagram/custom-edge.tsx):
// a double-click gives an unlabelled edge default labels, a click on a label
// opens it for editing, Enter commits it and reports a `linkTextChanged` event.

module EdgeEditor {
  import opened Types
  import Reducer

  /** Which of the two labels: `label` (from) or `toLabel` (to). */
  datatype Side = FromSide | ToSide

  /** The labels an edge shows. */
  datatype EdgeLabels = EdgeLabels(fromText: Option<string>, toText: Option<string>)

  function LabelOn(labels: EdgeLabels, side: Side): Option<string> {
    if side == FromSide then labels.fromText else labels.toText
  }

  function WithLabel(labels: EdgeLabels, side: Side, text: string): EdgeLabels {
    if side == FromSide then labels.(fromText := Some(text)) else labels.(toText := Some(text))
  }

  /** The labels a double-click gives an edge that has none. */
  const DefaultLabels := EdgeLabels(Some("Label"), Some("Relation"))

  /** The two events a double-click on an unlabelled edge reports. */
  function DefaultLabelEvents(id: string): seq<ChangeEvent> {
    [LinkTextChanged(id, "", "Label", true), LinkTextChanged(id, "", "Relation", false)]
  }

  /** The event committing `text` on one side of edge `id`. */
  function CommitEvent(id: string, labels: EdgeLabels, side: Side, text: string): ChangeEvent {
    LinkTextChanged(id, LabelOn(labels, side).GetOr(""), text, side == FromSide)
  }

  /** The edge shows the labels of the first link with its key. */
  predicate ShowsLink(labels: EdgeLabels, links: seq<LinkData>, id: string) {
    match Reducer.FirstIndex(links, LinkKey, id)
    case Some(i) => links[i].text == labels.fromText && links[i].toText == labels.toText
    case None => false
  }

  /** The first link with a key depends on the keys only. */
  lemma FirstIndexByKeys(a: seq<LinkData>, b: seq<LinkData>, id: string)
    requires |a| == |b| && forall j :: 0 <= j < |a| ==> a[j].key == b[j].key
    ensures Reducer.FirstIndex(a, LinkKey, id) == Reducer.FirstIndex(b, LinkKey, id)
  {
    Reducer.FirstIndexOfLink(a, id);
    Reducer.FirstIndexOfLink(b, id);
    assert forall j :: Reducer.IsFirstWithKey(a, j, id) <==> Reducer.IsFirstWithKey(b, j, id);
    assert Reducer.HasKey(a, id) <==> Reducer.HasKey(b, id);
  }

  /** Committing a label keeps the edge in step with its stored link: once
      the reported event is applied, the first link with the edge's key
      carries the edge's new labels. */
  lemma CommitKeepsLinkInStep(labels: EdgeLabels, links: seq<LinkData>, id: string, side: Side, text: string)
    requires ShowsLink(labels, links, id)
    ensures ShowsLink(WithLabel(labels, side, text), Reducer.ApplyLinkChange(links, CommitEvent(id, labels, side, text)), id)
  {
    var r := Reducer.ApplyLinkChange(links, CommitEvent(id, labels, side, text));
    FirstIndexByKeys(links, r, id);
  }

  /** A double-click on an unlabelled edge keeps it in step with its stored
      link: once both reported events are applied, the first link with the
      edge's key carries "Label" and "Relation", and no other link changes. */
  lemma DefaultLabelsKeepLinkInStep(labels: EdgeLabels, links: seq<LinkData>, id: string)
    requires ShowsLink(labels, links, id)
    ensures var r := Reducer.ApplyLinkChanges(links, DefaultLabelEvents(id));
      && ShowsLink(DefaultLabels, r, id)
      && |r| == |links|
      && forall j :: 0 <= j < |links| && !Reducer.IsFirstWithKey(links, j, id) ==> r[j] == links[j]
  {
    var events := DefaultLabelEvents(id);
    var r1 := Reducer.ApplyLinkChange(links, events[0]);
    var r2 := Reducer.ApplyLinkChange(r1, events[1]);
    assert Reducer.ApplyLinkChanges(links, events) == r2 by {
      assert Reducer.ApplyLinkChanges(links, events) == Reducer.ApplyLinkChanges(r1, events[1..]);
      assert events[1..][0] == events[1] && events[1..][1..] == [];
      assert Reducer.ApplyLinkChanges(r1, events[1..]) == Reducer.ApplyLinkChanges(r2, []);
    }
    FirstIndexByKeys(links, r1, id);
    FirstIndexByKeys(r1, r2, id);
    Reducer.FirstIndexOfLink(links, id);
  }

  class CustomEdge {
    /** The edge's id, which is its link's key. */
    const id: string
    var labels: EdgeLabels
    var editingLabel: Option<Side>
    var labelText: string
    /** What the effect last told the canvas through `setIsEditing`. */
    var reportedEditing: bool
    /** Every event reported through `trackLinkChange`, in order. */
    var reported: seq<ChangeEvent>

    /** The canvas knows whether a label is open for editing. */
    predicate Valid()
      reads this
    {
      reportedEditing == editingLabel.Some?
    }

    constructor (edgeId: string, initialLabels: EdgeLabels)
      ensures Valid()
      ensures id == edgeId && labels == initialLabels
      ensures editingLabel == None && labelText == "" && reported == []
    {
      id := edgeId;
      labels := initialLabels;
      editingLabel, labelText := None, "";
      reportedEditing := false;
      reported := [];
    }

    /** `handleDoubleClick`: an edge with neither label gets the default
        labels and reports both; an edge with either label is left alone. */
    method HandleDoubleClick()
      requires Valid()
      modifies this`labels, this`reported
      ensures Valid()
      ensures !Truthy(old(labels).fromText) && !Truthy(old(labels).toText) ==>
        labels == DefaultLabels && reported == old(reported) + DefaultLabelEvents(id)
      ensures Truthy(old(labels).fromText) || Truthy(old(labels).toText) ==>
        labels == old(labels) && reported == old(reported)
    {
      if !Truthy(labels.fromText) && !Truthy(labels.toText) {
        labels := DefaultLabels;
        reported := reported + [LinkTextChanged(id, "", "Label", true)];
        reported := reported + [LinkTextChanged(id, "", "Relation", false)];
      }
    }

    /** `handleLabelClick`: open one label for editing, starting from its
        current text. */
    method HandleLabelClick(side: Side)
      requires Valid()
      modifies this`editingLabel, this`labelText, this`reportedEditing
      ensures Valid()
      ensures editingLabel == Some(side)
      ensures labelText == LabelOn(labels, side).GetOr("")
    {
      editingLabel := Some(side);
      labelText := LabelOn(labels, side).GetOr("");
      reportedEditing := true;
    }

    /** The input's `onChange`. */
    method HandleInput(value: string)
      requires Valid()
      modifies this`labelText
      ensures Valid()
      ensures labelText == value
    {
      labelText := value;
    }

    /** `handleKeyPress`, on the input shown only while that side is open:
        Enter commits the typed text to the side, reports the change with
        the side's previous text (or "") and closes the editor; any other
        key does nothing. */
    method HandleKeyPress(key: string, side: Side)
      requires Valid()
      requires editingLabel == Some(side)
      modifies this`labels, this`reported, this`editingLabel, this`reportedEditing
      ensures Valid()
      ensures key == "Enter" ==>
        && labels == WithLabel(old(labels), side, labelText)
        && reported == old(reported) + [CommitEvent(id, old(labels), side, labelText)]
        && editingLabel == None
      ensures key != "Enter" ==>
        labels == old(labels) && reported == old(reported) && editingLabel == old(editingLabel)
    {
      if key == "Enter" {
        var oldText := LabelOn(labels, side).GetOr("");
        labels := WithLabel(labels, side, labelText);
        reported := reported + [LinkTextChanged(id, oldText, labelText, side == FromSide)];
        editingLabel := None;
        reportedEditing := false;
      }
    }

    /** The input's `onBlur`: close the editor without committing. */
    method HandleBlur()
      requires Valid()
      modifies this`editingLabel, this`reportedEditing
      ensures Valid()
      ensures editingLabel == None
    {
      editingLabel := None;
      reportedEditing := false;
    }
  }
}
