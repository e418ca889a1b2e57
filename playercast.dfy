/** The conflict check of src/utils/playerCast.ts, as written: `sanitizeEvents`
    always returns a fresh empty list and `adjustEvents` has no `return <value>`
    statement, so its result is `undefined` for every input. */
module PlayerCast {
  import opened Wrappers
  import opened Types
  import opened Seqs

  function PlayerStart(e: PlayerEvent): real { StartOf(e) }

  predicate IsMitRecord(e: PlayerEvent) { EventTypeOf(e) == MitType }

  /** `sanitizeEvents`: it sorts the mitigation records into a local that it
      never uses and returns a new empty list. */
  function SanitizeEvents(events: seq<PlayerEvent>): (r: seq<PlayerEvent>)
    ensures r == []
  {
    var mitEvents := SortBy(Filter(events, IsMitRecord), PlayerStart);
    []
  }

  /** The filter at the top of `adjustEvents`: a record tagged 'mit' is kept
      when its `id` is being adjusted, any other record when its `mitId` is
      (a record of the other shape lacks that field, so it is dropped). */
  predicate KeptForAdjust(adjustIds: set<string>, e: PlayerEvent) {
    if EventTypeOf(e) == MitType then e.Mit? && e.mit.id in adjustIds
    else e.Cooldown? && e.cd.mitId in adjustIds
  }

  /** How one pass of the inner loop ends. */
  datatype InnerExit =
    | ReturnUndefined     // `return;` out of adjustEvents
    | InsertAt(i: nat)    // `events.splice(i, 0, adjusting); break;`
    | Exhausted           // the loop runs to the end of the list

  /** The inner `for` loop from index `i` on, for one event being adjusted:
      a 'mit' record ends the call, a cooldown that ends before the adjusted
      event starts is skipped, one that starts after it ends is where the
      adjusted event is inserted, and any other overlap ends the call. */
  function InnerScan(adjusting: MitEvent, events: seq<PlayerEvent>, i: nat): (r: InnerExit)
    ensures r.InsertAt? ==> i <= r.i < |events|
    decreases |events| - i
  {
    if i >= |events| then Exhausted
    else if EventTypeOf(events[i]) == MitType then ReturnUndefined
    else if EndOf(events[i]) < adjusting.tStartMs then InnerScan(adjusting, events, i + 1)
    else if StartOf(events[i]) > adjusting.tEndMs then InsertAt(i)
    else ReturnUndefined
  }

  /** How the two nested loops end, with the working list at that point. */
  datatype AdjustExit = Aborted(events: seq<PlayerEvent>) | Completed(events: seq<PlayerEvent>)

  /** The outer `for` loop over the events being adjusted, from index `k` on. */
  function OuterScan(eventsToAdjust: seq<MitEvent>, events: seq<PlayerEvent>, k: nat): AdjustExit
    decreases |eventsToAdjust| - k
  {
    if k >= |eventsToAdjust| then Completed(events)
    else
      match InnerScan(eventsToAdjust[k], events, 0)
      case ReturnUndefined => Aborted(events)
      case InsertAt(i) => OuterScan(eventsToAdjust, events[..i] + [Mit(eventsToAdjust[k])] + events[i..], k + 1)
      case Exhausted => OuterScan(eventsToAdjust, events, k + 1)
  }

  /** The nested loops of `adjustEvents` run on a given working list, with the
      in-place `splice` modelled by reassigning the list. */
  method AdjustLoop(eventsToAdjust: seq<MitEvent>, events: seq<PlayerEvent>) returns (exit: AdjustExit)
    ensures exit == OuterScan(eventsToAdjust, events, 0)
    ensures events == [] ==> exit == Completed([])
  {
    var working := events;
    for k := 0 to |eventsToAdjust|
      invariant OuterScan(eventsToAdjust, working, k) == OuterScan(eventsToAdjust, events, 0)
      invariant events == [] ==> working == []
    {
      var adjusting := eventsToAdjust[k];
      var i := 0;
      while i < |working|
        invariant 0 <= i <= |working|
        invariant InnerScan(adjusting, working, i) == InnerScan(adjusting, working, 0)
        decreases |working| - i
      {
        var event := working[i];
        if EventTypeOf(event) == MitType {
          return Aborted(working);
        }
        if EndOf(event) < adjusting.tStartMs {
          i := i + 1;
          continue;
        }
        if StartOf(event) > adjusting.tEndMs {
          working := working[..i] + [Mit(adjusting)] + working[i..];
          break;
        }
        return Aborted(working);
      }
    }
    exit := Completed(working);
  }

  /** `adjustEvents(eventsToAdjust, events)`. The caller's list is a value and
      is never changed; the working list is the sanitized copy, which is
      empty, so the loops find nothing; and there is no `return <value>`, so
      the result is `undefined` (`None`) whatever the inputs. */
  method AdjustEvents(eventsToAdjust: seq<MitEvent>, events: seq<PlayerEvent>) returns (r: Option<seq<PlayerEvent>>)
    ensures r == None
  {
    var adjustIds := set e | e in eventsToAdjust :: e.id;
    var working := SanitizeEvents(Filter(events, e => KeptForAdjust(adjustIds, e)));
    var exit := AdjustLoop(eventsToAdjust, working);
    assert exit == Completed([]);
    r := None;
  }

  // ---------------------------------------------------------------------------
  // The loop rule, for when the working list is not empty.

  /** The inner loop inserts at `i` exactly when every record before `i` is a
      cooldown ending before the adjusted event starts, and the record at `i`
      is a cooldown starting after the adjusted event ends. */
  lemma {:induction false} InnerScanInsertAt(adjusting: MitEvent, events: seq<PlayerEvent>, from: nat, i: nat)
    requires from <= i < |events|
    ensures InnerScan(adjusting, events, from) == InsertAt(i) <==>
      && (forall j :: from <= j < i ==> EventTypeOf(events[j]) != MitType && EndOf(events[j]) < adjusting.tStartMs)
      && EventTypeOf(events[i]) != MitType
      && EndOf(events[i]) >= adjusting.tStartMs
      && StartOf(events[i]) > adjusting.tEndMs
    decreases i - from
  {
    if from < i {
      InnerScanInsertAt(adjusting, events, from + 1, i);
    }
  }

  /** The inner loop runs off the end exactly when every record from `from`
      on is a cooldown ending before the adjusted event starts. */
  lemma {:induction false} InnerScanExhausted(adjusting: MitEvent, events: seq<PlayerEvent>, from: nat)
    requires from <= |events|
    ensures InnerScan(adjusting, events, from) == Exhausted <==>
      forall j :: from <= j < |events| ==> EventTypeOf(events[j]) != MitType && EndOf(events[j]) < adjusting.tStartMs
    decreases |events| - from
  {
    if from < |events| {
      InnerScanExhausted(adjusting, events, from + 1);
    }
  }

  /** The inner loop returns `undefined` at the first record that is a 'mit'
      record or a cooldown overlapping the adjusted event's span. */
  lemma {:induction false} InnerScanReturns(adjusting: MitEvent, events: seq<PlayerEvent>, from: nat, i: nat)
    requires from <= i < |events|
    requires forall j :: from <= j < i ==> EventTypeOf(events[j]) != MitType && EndOf(events[j]) < adjusting.tStartMs
    requires EventTypeOf(events[i]) == MitType
      || (EndOf(events[i]) >= adjusting.tStartMs && StartOf(events[i]) <= adjusting.tEndMs)
    ensures InnerScan(adjusting, events, from) == ReturnUndefined
    decreases i - from
  {
    if from < i {
      InnerScanReturns(adjusting, events, from + 1, i);
    }
  }

  /** Nothing to scan: every adjusted event passes without effect. */
  lemma {:induction false} OuterScanOnEmpty(eventsToAdjust: seq<MitEvent>, k: nat)
    ensures OuterScan(eventsToAdjust, [], k) == Completed([])
    decreases |eventsToAdjust| - k
  {
    if k < |eventsToAdjust| {
      OuterScanOnEmpty(eventsToAdjust, k + 1);
    }
  }
}
