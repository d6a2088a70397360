// The change provider (src/providers/changes.tsx): it holds the node list and
// the link list, applies change events to them through the shared reducer, and
// writes the link list behind a 500 ms debounce.
//
// Time is discrete: `Advance(dt)` lets dt milliseconds pass. The remote write
// `saveLinkData` is a log of the payloads written, in order.

module Changes {
  import opened Types
  import Reducer

  /** The debounce delay of the link write, in milliseconds. */
  const DebounceDelay: nat := 500

  /** An armed `setTimeout`: when it falls due it writes `payload`. */
  datatype Pending = Pending(due: nat, payload: seq<LinkData>)

  /** The state of the link synchroniser: the clock, the armed timer if any,
      and every payload written so far. */
  datatype SyncState = SyncState(now: nat, timer: Option<Pending>, saves: seq<seq<LinkData>>)

  /** The effect on `[links]`: the cleanup clears the previous timer, and a new
      one is armed that will write `links ?? []`. */
  function Restarted(s: SyncState, links: Option<seq<LinkData>>): SyncState {
    s.(timer := Some(Pending(s.now + DebounceDelay, links.GetOr([]))))
  }

  /** dt milliseconds pass: an armed timer that falls due fires once, writes
      its payload and is spent. */
  function Elapsed(s: SyncState, dt: nat): SyncState {
    var now := s.now + dt;
    match s.timer
    case Some(p) =>
      if p.due <= now then SyncState(now, None, s.saves + [p.payload]) else s.(now := now)
    case None => s.(now := now)
  }

  /** The synchroniser as the provider mounts: nothing loaded yet, and the
      effect has already armed a write of `undefined ?? []`. */
  function Mounted(): SyncState {
    Restarted(SyncState(0, None, []), None)
  }

  /** One link change after `gap` milliseconds of quiet. */
  datatype Step = Step(gap: nat, change: ChangeEvent)

  /** The link list and synchroniser after a sequence of link changes. */
  function Replay(links: seq<LinkData>, s: SyncState, steps: seq<Step>): (seq<LinkData>, SyncState)
    decreases |steps|
  {
    if |steps| == 0 then (links, s)
    else
      var next := Reducer.ApplyLinkChange(links, steps[0].change);
      Replay(next, Restarted(Elapsed(s, steps[0].gap), Some(next)), steps[1..])
  }

  /** The changes of a sequence of steps, without the gaps. */
  function StepChanges(steps: seq<Step>): seq<ChangeEvent> {
    seq(|steps|, i requires 0 <= i < |steps| => steps[i].change)
  }

  /** A burst of link changes, each less than 500 ms after the previous one,
      writes nothing while it lasts and leaves one write armed that carries the
      latest list: once 500 ms pass without a change exactly one write fires,
      with that list, and none fires earlier. */
  lemma {:induction false} BurstCoalesces(links: seq<LinkData>, s: SyncState, steps: seq<Step>)
    requires s.timer == Some(Pending(s.now + DebounceDelay, links))
    requires forall i :: 0 <= i < |steps| ==> steps[i].gap < DebounceDelay
    ensures var (last, t) := Replay(links, s, steps);
      && last == Reducer.ApplyLinkChanges(links, StepChanges(steps))
      && t.saves == s.saves
      && t.timer == Some(Pending(t.now + DebounceDelay, last))
      && (forall dt: nat :: dt < DebounceDelay ==> Elapsed(t, dt).saves == s.saves)
      && Elapsed(t, DebounceDelay).saves == s.saves + [last]
    decreases |steps|
  {
    if |steps| > 0 {
      var next := Reducer.ApplyLinkChange(links, steps[0].change);
      var s1 := Restarted(Elapsed(s, steps[0].gap), Some(next));
      assert Elapsed(s, steps[0].gap).saves == s.saves;
      assert StepChanges(steps)[0] == steps[0].change && StepChanges(steps)[1..] == StepChanges(steps[1..]);
      BurstCoalesces(next, s1, steps[1..]);
    }
  }

  /** The write armed on mount is not suppressed: when the first load takes
      500 ms or more it writes an empty link list before the stored one is read;
      a faster load re-arms the timer and the empty write never happens. */
  lemma MountWriteRacesLoad(t: nat, loaded: seq<LinkData>)
    ensures t >= DebounceDelay ==> Elapsed(Mounted(), t).saves == [[]]
    ensures t < DebounceDelay ==>
      Elapsed(Restarted(Elapsed(Mounted(), t), Some(loaded)), DebounceDelay).saves == [loaded]
  {
  }

  /** The cleanup of the `[links]` effect as the provider unmounts: the armed
      timer is cleared and nothing is armed in its place. */
  function Unmounted(s: SyncState): SyncState {
    s.(timer := None)
  }

  /** There is no flush on unmount: a write still armed when the provider
      unmounts is never made, however much time passes afterwards, whereas
      left alone it would have fired within 500 ms. */
  lemma UnmountDropsPendingWrite(s: SyncState, dt: nat)
    requires s.timer.Some? && s.timer.value.due <= s.now + DebounceDelay
    ensures Elapsed(Unmounted(s), dt).saves == s.saves
    ensures Elapsed(s, DebounceDelay).saves == s.saves + [s.timer.value.payload]
  {
  }

  /** The provider's state: the two lists (undefined until loaded) and the
      link synchroniser. */
  class ChangeProvider {
    var data: Option<seq<Entity>>
    var links: Option<seq<LinkData>>
    var now: nat
    var timer: Option<Pending>
    var saves: seq<seq<LinkData>>

    function Sync(): SyncState
      reads this
    {
      SyncState(now, timer, saves)
    }

    /** The armed write always carries the current `links ?? []` and falls due
        within the next 500 ms. */
    ghost predicate Valid()
      reads this
    {
      timer.Some? ==> timer.value.payload == links.GetOr([]) && now < timer.value.due <= now + DebounceDelay
    }

    /** The provider renders its children only once both lists are loaded. */
    predicate Ready()
      reads this
    {
      data.Some? && links.Some?
    }

    constructor ()
      ensures Valid() && !Ready()
      ensures data == None && links == None
      ensures Sync() == Mounted()
    {
      data, links := None, None;
      now, saves := 0, [];
      timer := Some(Pending(DebounceDelay, []));
    }

    /** The `[links]` effect: clear the armed timer and arm a new one. */
    method RestartLinkTimer()
      modifies this`timer
      ensures Sync() == Restarted(old(Sync()), links)
    {
      timer := Some(Pending(now + DebounceDelay, links.GetOr([])));
    }

    /** The fetch on mount resolves: the nodes are schemas, then product
        types, then types; the links are the stored list or []. */
    method Load(schemas: seq<Entity>, productTypes: seq<Entity>, types: seq<Entity>,
                linkData: Option<seq<LinkData>>)
      requires Valid()
      modifies this
      ensures Valid() && Ready()
      ensures data == Some(schemas + productTypes + types)
      ensures links == Some(linkData.GetOr([]))
      ensures Sync() == Restarted(old(Sync()), links)
    {
      data := Some(schemas + productTypes + types);
      links := Some(linkData.GetOr([]));
      RestartLinkTimer();
    }

    /** `trackLinkChange`: the updater deep-copies the links and applies the
        event. Copying undefined throws, so before the load (ok false) nothing
        changes; afterwards the result is always a new list, so the write is
        re-armed even when the event changed nothing. */
    method TrackLinkChange(change: ChangeEvent) returns (ok: bool)
      requires Valid()
      modifies this
      ensures Valid()
      ensures ok == old(links).Some?
      ensures data == old(data)
      ensures links == if ok then Some(Reducer.ApplyLinkChange(old(links).value, change)) else old(links)
      ensures Sync() == if ok then Restarted(old(Sync()), links) else old(Sync())
    {
      ok := links.Some?;
      if ok {
        var newData := Reducer.ReduceLinks(links.value, change);
        links := Some(newData);
        RestartLinkTimer();
      }
    }

    /** `trackNodeChange`: the same on the node list; nothing is written. */
    method TrackNodeChange(change: ChangeEvent) returns (ok: bool)
      requires Valid()
      modifies this`data
      ensures Valid()
      ensures ok == old(data).Some?
      ensures data == if ok then Some(Reducer.ApplyNodeChange(old(data).value, change)) else old(data)
    {
      ok := data.Some?;
      if ok {
        var newData := Reducer.ReduceNodes(data.value, change);
        data := Some(newData);
      }
    }

    /** The provider unmounts: the effect's cleanup clears the armed timer
        and no write is made for it. The lists are kept as they were. */
    method Unmount()
      requires Valid()
      modifies this`timer
      ensures Valid()
      ensures Sync() == Unmounted(old(Sync()))
    {
      timer := None;
    }

    /** dt milliseconds pass. */
    method Advance(dt: nat)
      requires Valid()
      modifies this`now, this`timer, this`saves
      ensures Valid()
      ensures Sync() == Elapsed(old(Sync()), dt)
    {
      now := now + dt;
      if timer.Some? && timer.value.due <= now {
        saves := saves + [timer.value.payload];
        timer := None;
      }
    }
  }
}
