// The diagram change tracker (src/components/diagram/useTrackChanges.ts): one
// snapshot holding both lists, updated by a single reducer over the same five
// events as the change provider.

module Tracker {
  import opened Types
  import Reducer

  datatype DiagramData = DiagramData(linkDataArray: seq<LinkData>, nodeDataArray: seq<Entity>)

  /** The snapshot after one event. */
  function ApplyChange(d: DiagramData, change: ChangeEvent): DiagramData {
    DiagramData(Reducer.ApplyLinkChange(d.linkDataArray, change),
                Reducer.ApplyNodeChange(d.nodeDataArray, change))
  }

  /** Every event touches one list only: a position event the nodes, a link
      event the links. */
  lemma ChangeTouchesOneList(d: DiagramData, change: ChangeEvent)
    ensures change.NodePositionChanged? ==> ApplyChange(d, change).linkDataArray == d.linkDataArray
    ensures !change.NodePositionChanged? ==> ApplyChange(d, change).nodeDataArray == d.nodeDataArray
  {
  }

  /** `linkAdded` is idempotent on the whole snapshot. */
  lemma LinkAddedIdempotent(d: DiagramData, change: ChangeEvent)
    requires change.LinkAdded?
    ensures ApplyChange(ApplyChange(d, change), change) == ApplyChange(d, change)
  {
    Reducer.LinkAddedIdempotent(d.linkDataArray, change);
  }

  class ChangeTracker {
    var diagramData: DiagramData

    constructor (initialData: DiagramData)
      ensures diagramData == initialData
    {
      diagramData := initialData;
    }

    /** `trackChange`: deep-copy the snapshot, then update the one list the
        event is about. */
    method TrackChange(change: ChangeEvent)
      modifies this
      ensures diagramData == ApplyChange(old(diagramData), change)
    {
      var newData := diagramData;
      match change {
        case NodePositionChanged(_, _, _) =>
          var nodes := Reducer.ReduceNodes(newData.nodeDataArray, change);
          newData := newData.(nodeDataArray := nodes);
        case _ =>
          var links := Reducer.ReduceLinks(newData.linkDataArray, change);
          newData := newData.(linkDataArray := links);
      }
      diagramData := newData;
    }
  }
}
