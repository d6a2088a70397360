// The change reducer shared by the change provider (src/providers/changes.tsx)
// and the diagram change tracker (src/components/diagram/useTrackChanges.ts):
// both hold the same `(snapshot, event) -> snapshot` code for links and for
// node positions. The functions below specify it; ReduceLinks and ReduceNodes
// are the step-by-step implementations both classes call.

module Reducer {
  import opened Types

  /** `findIndex` on the key: the index of the first element whose key is
      `key`, None where the source gets -1. */
  function FirstIndex<T>(xs: seq<T>, keyOf: T -> string, key: string): (r: Option<nat>)
    ensures r.Some? ==> r.value < |xs| && keyOf(xs[r.value]) == key
    ensures r.Some? ==> forall j :: 0 <= j < r.value ==> keyOf(xs[j]) != key
    ensures r.None? ==> forall j :: 0 <= j < |xs| ==> keyOf(xs[j]) != key
  {
    if |xs| == 0 then None
    else if keyOf(xs[0]) == key then Some(0)
    else match FirstIndex(xs[1..], keyOf, key)
      case Some(i) => Some(i + 1)
      case None => None
  }

  /** `links.some((link) => link.key === key)`. */
  predicate HasKey(links: seq<LinkData>, key: string) {
    exists i :: 0 <= i < |links| && links[i].key == key
  }

  /** Index j holds the first link with this key. */
  predicate IsFirstWithKey(links: seq<LinkData>, j: int, key: string) {
    0 <= j < |links| && links[j].key == key && forall i :: 0 <= i < j ==> links[i].key != key
  }

  /** Index j holds the first node with this key. */
  predicate IsFirstNodeWithKey(nodes: seq<Entity>, j: int, key: string) {
    0 <= j < |nodes| && nodes[j].key == key && forall i :: 0 <= i < j ==> nodes[i].key != key
  }

  /** No two links share a key: the invariant every link event preserves. */
  predicate UniqueKeys(links: seq<LinkData>) {
    forall i, j :: 0 <= i < j < |links| ==> links[i].key != links[j].key
  }

  /** The link a `linkAdded` event describes. */
  function NewLink(e: ChangeEvent): LinkData
    requires e.LinkAdded?
  {
    LinkData(e.key, e.fromNode, e.toNode, e.text, e.toText)
  }

  /** `{...link, from, to, text, toText}` for a `linkModified` event. */
  function Modified(l: LinkData, e: ChangeEvent): LinkData
    requires e.LinkModified?
  {
    l.(from := e.newFromNode, to := e.newToNode, text := e.text, toText := e.toText)
  }

  /** The link with one of its labels set by a `linkTextChanged` event. */
  function Relabelled(l: LinkData, e: ChangeEvent): LinkData
    requires e.LinkTextChanged?
  {
    if e.isFromText then l.(text := Some(e.newText)) else l.(toText := Some(e.newText))
  }

  /** `links.filter((link) => link.key !== key)`. */
  function WithoutKey(links: seq<LinkData>, key: string): seq<LinkData> {
    if |links| == 0 then []
    else (if links[0].key == key then [] else [links[0]]) + WithoutKey(links[1..], key)
  }

  /** The link list after one change event. */
  function ApplyLinkChange(links: seq<LinkData>, change: ChangeEvent): seq<LinkData> {
    match change
    case LinkAdded(key, _, _, _, _) =>
      if HasKey(links, key) then links else links + [NewLink(change)]
    case LinkModified(key, _, _, _, _) =>
      (match FirstIndex(links, LinkKey, key)
       case Some(i) => links[i := Modified(links[i], change)]
       case None => links)
    case LinkRemoved(key) => WithoutKey(links, key)
    case LinkTextChanged(key, _, _, _) =>
      (match FirstIndex(links, LinkKey, key)
       case Some(i) => links[i := Relabelled(links[i], change)]
       case None => links)
    case NodePositionChanged(_, _, _) => links
  }

  /** The link list after a sequence of events, applied in order. */
  function ApplyLinkChanges(links: seq<LinkData>, events: seq<ChangeEvent>): seq<LinkData>
    decreases |events|
  {
    if |events| == 0 then links else ApplyLinkChanges(ApplyLinkChange(links, events[0]), events[1..])
  }

  /** Applying two batches of events one after the other is applying them
      joined. */
  lemma {:induction false} ApplyLinkChangesAppend(links: seq<LinkData>, a: seq<ChangeEvent>, b: seq<ChangeEvent>)
    ensures ApplyLinkChanges(links, a + b) == ApplyLinkChanges(ApplyLinkChanges(links, a), b)
    decreases |a|
  {
    if |a| == 0 {
      assert a + b == b;
    } else {
      assert (a + b)[0] == a[0] && (a + b)[1..] == a[1..] + b;
      ApplyLinkChangesAppend(ApplyLinkChange(links, a[0]), a[1..], b);
    }
  }

  /** The node list after one change event: only `nodePositionChanged` acts,
      and it writes the event's `newPosition` field. */
  function ApplyNodeChange(nodes: seq<Entity>, change: ChangeEvent): seq<Entity> {
    match change
    case NodePositionChanged(nodeKey, newPosition, _) =>
      (match FirstIndex(nodes, EntityKey, nodeKey)
       case Some(i) => nodes[i := nodes[i].(position := newPosition)]
       case None => nodes)
    case _ => nodes
  }

  /** The link part of the reducer as the source runs it: copy, then push or
      write one element by index, or filter. */
  method ReduceLinks(prevData: seq<LinkData>, change: ChangeEvent) returns (newData: seq<LinkData>)
    ensures newData == ApplyLinkChange(prevData, change)
  {
    newData := prevData; // the deep copy: a value that shares nothing with prevData
    match change {
      case LinkAdded(key, fromNode, toNode, text, toText) =>
        var linkExists := HasKey(newData, key);
        if !linkExists {
          newData := newData + [LinkData(key, fromNode, toNode, text, toText)];
        }
      case LinkModified(key, newFromNode, newToNode, text, toText) =>
        var linkIndex := FirstIndex(newData, LinkKey, key);
        if linkIndex.Some? {
          var i := linkIndex.value;
          newData := newData[i := newData[i].(from := newFromNode, to := newToNode, text := text, toText := toText)];
        }
      case LinkRemoved(key) =>
        newData := WithoutKey(newData, key);
      case LinkTextChanged(key, _, newText, isFromText) =>
        var textLinkIndex := FirstIndex(newData, LinkKey, key);
        if textLinkIndex.Some? {
          var i := textLinkIndex.value;
          if isFromText {
            newData := newData[i := newData[i].(text := Some(newText))];
          } else {
            newData := newData[i := newData[i].(toText := Some(newText))];
          }
        }
      case NodePositionChanged(_, _, _) =>
    }
  }

  /** The node part of the reducer as the source runs it. */
  method ReduceNodes(prevData: seq<Entity>, change: ChangeEvent) returns (newData: seq<Entity>)
    ensures newData == ApplyNodeChange(prevData, change)
  {
    newData := prevData;
    match change {
      case NodePositionChanged(nodeKey, newPosition, _) =>
        var nodeIndex := FirstIndex(newData, EntityKey, nodeKey);
        if nodeIndex.Some? {
          var i := nodeIndex.value;
          newData := newData[i := newData[i].(position := newPosition)];
        }
      case _ =>
    }
  }

  // ---- linkAdded ----

  /** `linkAdded` appends the described link at the end iff no link has its
      key; otherwise the list is unchanged. Either way the key is then present. */
  lemma LinkAddedAppendsIffAbsent(links: seq<LinkData>, e: ChangeEvent)
    requires e.LinkAdded?
    ensures var r := ApplyLinkChange(links, e);
      && HasKey(r, e.key)
      && r[..|links|] == links
      && |r| == (if HasKey(links, e.key) then |links| else |links| + 1)
      && (!HasKey(links, e.key) ==> r[|links|] == LinkData(e.key, e.fromNode, e.toNode, e.text, e.toText))
  {
    var r := ApplyLinkChange(links, e);
    if !HasKey(links, e.key) {
      assert r[|links|].key == e.key;
    }
  }

  /** Applying the same `linkAdded` twice equals applying it once. */
  lemma LinkAddedIdempotent(links: seq<LinkData>, e: ChangeEvent)
    requires e.LinkAdded?
    ensures ApplyLinkChange(ApplyLinkChange(links, e), e) == ApplyLinkChange(links, e)
  {
    LinkAddedAppendsIffAbsent(links, e);
  }

  /** What FirstIndex finds on links is the first link with the key, and it
      finds nothing exactly when no link has the key. */
  lemma FirstIndexOfLink(links: seq<LinkData>, key: string)
    ensures forall j :: IsFirstWithKey(links, j, key) <==> FirstIndex(links, LinkKey, key) == Some(j)
    ensures FirstIndex(links, LinkKey, key).None? <==> !HasKey(links, key)
  {
    var r := FirstIndex(links, LinkKey, key);
    assert forall j :: 0 <= j < (if r.Some? then r.value else |links|) ==> links[j].key != key by {
      forall j | 0 <= j < (if r.Some? then r.value else |links|) ensures links[j].key != key {
        assert LinkKey(links[j]) != key;
      }
    }
  }

  // ---- linkModified ----

  /** `linkModified` rewrites from/to/text/toText of the first link with the
      key, keeping its key and place; every other link is kept, and an unknown
      key changes nothing. */
  lemma LinkModifiedFirstMatch(links: seq<LinkData>, e: ChangeEvent)
    requires e.LinkModified?
    ensures var r := ApplyLinkChange(links, e);
      && |r| == |links|
      && (!HasKey(links, e.key) ==> r == links)
      && forall j :: 0 <= j < |links| ==>
           r[j] == (if IsFirstWithKey(links, j, e.key)
                    then LinkData(links[j].key, e.newFromNode, e.newToNode, e.text, e.toText)
                    else links[j])
  {
    var r := ApplyLinkChange(links, e);
    FirstIndexOfLink(links, e.key);
  }

  // ---- linkTextChanged ----

  /** `linkTextChanged` writes `text` when `isFromText` and `toText` otherwise,
      on the first link with the key only; an unknown key changes nothing. */
  lemma LinkTextChangedFirstMatch(links: seq<LinkData>, e: ChangeEvent)
    requires e.LinkTextChanged?
    ensures var r := ApplyLinkChange(links, e);
      && |r| == |links|
      && (!HasKey(links, e.key) ==> r == links)
      && forall j :: 0 <= j < |links| ==>
           r[j] == (if !IsFirstWithKey(links, j, e.key) then links[j]
                    else if e.isFromText then links[j].(text := Some(e.newText))
                    else links[j].(toText := Some(e.newText)))
  {
    FirstIndexOfLink(links, e.key);
  }

  /** The `oldText` an event carries is never read. */
  lemma OldTextIgnored(links: seq<LinkData>, e: ChangeEvent, other: string)
    requires e.LinkTextChanged?
    ensures ApplyLinkChange(links, e.(oldText := other)) == ApplyLinkChange(links, e)
  {
  }

  // ---- linkRemoved ----

  /** `linkRemoved` keeps exactly the links whose key differs. */
  lemma {:induction false} WithoutKeyMembers(links: seq<LinkData>, key: string)
    ensures forall l :: l in WithoutKey(links, key) <==> l in links && l.key != key
    ensures |WithoutKey(links, key)| <= |links|
    decreases |links|
  {
    if |links| > 0 {
      WithoutKeyMembers(links[1..], key);
      assert links == [links[0]] + links[1..];
    }
  }

  /** Filtering distributes over concatenation: the kept links stay in their
      original order. */
  lemma {:induction false} WithoutKeyAppend(a: seq<LinkData>, b: seq<LinkData>, key: string)
    ensures WithoutKey(a + b, key) == WithoutKey(a, key) + WithoutKey(b, key)
    decreases |a|
  {
    if |a| > 0 {
      assert (a + b)[1..] == a[1..] + b;
      WithoutKeyAppend(a[1..], b, key);
    } else {
      assert a + b == b;
    }
  }

  /** Removing an absent key changes nothing. */
  lemma {:induction false} WithoutAbsentKey(links: seq<LinkData>, key: string)
    requires !HasKey(links, key)
    ensures WithoutKey(links, key) == links
    decreases |links|
  {
    if |links| > 0 {
      forall i | 0 <= i < |links[1..]| ensures links[1..][i].key != key {
        assert links[1..][i] == links[i + 1];
      }
      WithoutAbsentKey(links[1..], key);
      assert links == [links[0]] + links[1..];
    }
  }

  /** `linkRemoved` yields the input minus every link with the key, the rest
      in order; no link with the key is left; an unknown key is a no-op. */
  lemma LinkRemovedFilters(links: seq<LinkData>, e: ChangeEvent)
    requires e.LinkRemoved?
    ensures var r := ApplyLinkChange(links, e);
      && (forall l :: l in r <==> l in links && l.key != e.key)
      && !HasKey(r, e.key)
      && (!HasKey(links, e.key) ==> r == links)
  {
    var r := ApplyLinkChange(links, e);
    WithoutKeyMembers(links, e.key);
    forall i | 0 <= i < |r| ensures r[i].key != e.key {
      assert r[i] in r;
    }
    if !HasKey(links, e.key) { WithoutAbsentKey(links, e.key); }
  }

  /** Two removals commute. */
  lemma {:induction false} RemovalsCommute(links: seq<LinkData>, k1: string, k2: string)
    ensures WithoutKey(WithoutKey(links, k1), k2) == WithoutKey(WithoutKey(links, k2), k1)
    decreases |links|
  {
    if |links| > 0 {
      var h := links[0];
      var t := links[1..];
      RemovalsCommute(t, k1, k2);
      var h1 := if h.key == k1 then [] else [h];
      var h2 := if h.key == k2 then [] else [h];
      WithoutKeyAppend(h1, WithoutKey(t, k1), k2);
      WithoutKeyAppend(h2, WithoutKey(t, k2), k1);
      assert WithoutKey(h1, k2) == WithoutKey(h2, k1) by {
        if h1 != [] { assert h1[1..] == []; }
        if h2 != [] { assert h2[1..] == []; }
      }
    }
  }

  // ---- events of the other kind ----

  /** The link reducer has no case for `nodePositionChanged`. */
  lemma PositionEventKeepsLinks(links: seq<LinkData>, e: ChangeEvent)
    requires e.NodePositionChanged?
    ensures ApplyLinkChange(links, e) == links
  {
  }

  /** `nodePositionChanged` sets `position := newPosition` on the first node with
      `nodeKey` and on no other; an absent key and every other event kind leave
      the nodes unchanged. */
  lemma NodePositionFirstMatch(nodes: seq<Entity>, e: ChangeEvent)
    ensures var r := ApplyNodeChange(nodes, e);
      && |r| == |nodes|
      && (!e.NodePositionChanged? ==> r == nodes)
      && (e.NodePositionChanged? && (forall j :: 0 <= j < |nodes| ==> nodes[j].key != e.nodeKey) ==> r == nodes)
      && forall j :: 0 <= j < |nodes| ==>
           r[j] == (if e.NodePositionChanged? && IsFirstNodeWithKey(nodes, j, e.nodeKey)
                    then nodes[j].(position := e.newPosition) else nodes[j])
  {
    if e.NodePositionChanged? {
      var k := e.nodeKey;
      var r := FirstIndex(nodes, EntityKey, k);
      assert forall j :: 0 <= j < (if r.Some? then r.value else |nodes|) ==> nodes[j].key != k by {
        forall j | 0 <= j < (if r.Some? then r.value else |nodes|) ensures nodes[j].key != k {
          assert EntityKey(nodes[j]) != k;
        }
      }
    }
  }

  /** The node reducer writes `position` and nothing else: keys, `loc`, items
      and the order of the nodes are kept. */
  lemma NodeChangeKeepsAllButPosition(nodes: seq<Entity>, e: ChangeEvent)
    ensures var r := ApplyNodeChange(nodes, e);
      && |r| == |nodes|
      && forall j :: 0 <= j < |nodes| ==> r[j].(position := nodes[j].position) == nodes[j]
  {
  }

  // ---- the snapshot invariant ----

  lemma UniqueKeysCons(h: LinkData, t: seq<LinkData>)
    ensures UniqueKeys([h] + t) <==> UniqueKeys(t) && forall l :: l in t ==> l.key != h.key
  {
    var s := [h] + t;
    if UniqueKeys(t) && forall l :: l in t ==> l.key != h.key {
      forall i, j | 0 <= i < j < |s| ensures s[i].key != s[j].key {
        if i == 0 { assert s[j] == t[j - 1]; assert t[j - 1] in t; }
        else { assert s[i] == t[i - 1] && s[j] == t[j - 1]; }
      }
    }
    if UniqueKeys(s) {
      forall l | l in t ensures l.key != h.key {
        var j :| 0 <= j < |t| && t[j] == l;
        assert s[0] == h && s[j + 1] == l;
      }
      forall i, j | 0 <= i < j < |t| ensures t[i].key != t[j].key {
        assert s[i + 1] == t[i] && s[j + 1] == t[j];
      }
    }
  }

  lemma {:induction false} WithoutKeyKeepsUnique(links: seq<LinkData>, key: string)
    requires UniqueKeys(links)
    ensures UniqueKeys(WithoutKey(links, key))
    decreases |links|
  {
    if |links| > 0 {
      var h, t := links[0], links[1..];
      assert links == [h] + t;
      UniqueKeysCons(h, t);
      WithoutKeyKeepsUnique(t, key);
      WithoutKeyMembers(t, key);
      if h.key != key {
        UniqueKeysCons(h, WithoutKey(t, key));
      } else {
        assert WithoutKey(links, key) == WithoutKey(t, key);
      }
    }
  }

  /** Every event keeps link keys unique: `linkAdded` refuses a key already
      present, the other events never write a key. */
  lemma ApplyLinkChangeKeepsUnique(links: seq<LinkData>, e: ChangeEvent)
    requires UniqueKeys(links)
    ensures UniqueKeys(ApplyLinkChange(links, e))
  {
    match e
    case LinkAdded(key, _, _, _, _) =>
      if !HasKey(links, key) {
        var r := links + [NewLink(e)];
        forall i, j | 0 <= i < j < |r| ensures r[i].key != r[j].key {
          if j == |links| { assert links[i].key != key; }
        }
      }
    case LinkRemoved(key) => WithoutKeyKeepsUnique(links, key);
    case _ =>
  }

  // ---- worked examples ----

  /** Adding "L1" from "User" to "Order" labelled "places" to an empty list and
      removing it again. */
  lemma AddThenRemoveScenario()
    ensures var added := ApplyLinkChange([], LinkAdded("L1", "User", "Order", Some("places"), None));
      && added == [LinkData("L1", "User", "Order", Some("places"), None)]
      && ApplyLinkChange(added, LinkRemoved("L1")) == []
  {
  }

  /** Labelling the from side of an unlabelled link leaves the to side as it was. */
  lemma FromLabelScenario()
    ensures ApplyLinkChange([LinkData("L1", "User", "Order", Some(""), Some(""))],
                            LinkTextChanged("L1", "", "owns", true))
         == [LinkData("L1", "User", "Order", Some("owns"), Some(""))]
  {
  }
}
