/** Enemy casts as timeline events (src/domain/fflogs/buildCastEvents.ts). */
module BuildCast {
  import opened Wrappers
  import opened Types
  import opened Seqs

  /** An enemy cast as read from FFLogs; `time` is in seconds from the start
      of the fight. */
  datatype EnemyCastLite = EnemyCastLite(
    time: real,
    kind: CastKind,
    actionName: string,
    actionId: int,
    sourceID: int,
    duration: Option<real>)

  /** The event built for one cast: a boss event, not friendly, aimed at
      target 0, keeping its action id both as the ability guid and as
      `originalActionId`. */
  function ToCast(e: EnemyCastLite, fightStart: real): (c: CastEvent)
    ensures c.tMs == SecToMs(e.time) && c.timestamp == fightStart + c.tMs
    ensures c.isBossEvent == Some(true) && c.isFriendly == Some(false) && c.targetID == 0
    ensures c.ability.guid == e.actionId && c.originalActionId == Some(e.actionId)
    ensures c.eventKind == CastKindName(e.kind) && c.originalType == Some(e.kind)
  {
    CastEvent(
      fightStart + SecToMs(e.time),
      CastKindName(e.kind),
      e.sourceID,
      0,
      FFLogsAbility(e.actionName, e.actionId, 0),
      e.duration,
      SecToMs(e.time),
      Some(e.actionId),
      Some(true),
      Some(false),
      Some(e.kind),
      None)
  }

  function ToCasts(events: seq<EnemyCastLite>, fightStart: real): (r: seq<CastEvent>)
    ensures |r| == |events|
    ensures forall k :: 0 <= k < |events| ==> r[k] == ToCast(events[k], fightStart)
    decreases |events|
  {
    if events == [] then []
    else ToCasts(events[..|events| - 1], fightStart) + [ToCast(events[|events| - 1], fightStart)]
  }

  /** `buildCastEvents`: map every cast, then sort stably by `tMs`. */
  function BuildCastEvents(events: seq<EnemyCastLite>, fightStart: real): (r: seq<CastEvent>)
    ensures |r| == |events|
    ensures SortedBy(r, CastTime)
    ensures multiset(r) == multiset(ToCasts(events, fightStart))
  {
    SortBy(ToCasts(events, fightStart), CastTime)
  }

  /** Every cast yields its event, and every event comes from a cast. */
  lemma BuildCastEventsMembers(events: seq<EnemyCastLite>, fightStart: real)
    ensures forall k :: 0 <= k < |events| ==> ToCast(events[k], fightStart) in BuildCastEvents(events, fightStart)
    ensures forall c :: c in BuildCastEvents(events, fightStart) ==>
      exists k :: 0 <= k < |events| && c == ToCast(events[k], fightStart)
  {
    var mapped := ToCasts(events, fightStart);
    SortByMembers(mapped, CastTime);
    forall c | c in mapped ensures exists k :: 0 <= k < |events| && c == ToCast(events[k], fightStart) {
      var k :| 0 <= k < |mapped| && mapped[k] == c;
    }
  }

  /** Casts already in time order come out in the same order. */
  lemma BuildCastEventsOfOrderedInput(events: seq<EnemyCastLite>, fightStart: real)
    requires forall i, j :: 0 <= i < j < |events| ==> events[i].time <= events[j].time
    ensures forall k :: 0 <= k < |events| ==> BuildCastEvents(events, fightStart)[k] == ToCast(events[k], fightStart)
  {
    var mapped := ToCasts(events, fightStart);
    assert SortedBy(mapped, CastTime) by {
      forall i, j | 0 <= i < j < |mapped| ensures CastTime(mapped[i]) <= CastTime(mapped[j]) {
        assert SecToMs(events[i].time) <= SecToMs(events[j].time);
      }
    }
    SortBySortedIsIdentity(mapped, CastTime);
  }
}
