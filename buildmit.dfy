/** Mitigation events from friendly casts (src/domain/fflogs/buildMitEvents.ts).
    The skill lookup, the owner-aware id resolution and `crypto.randomUUID`
    are parameters; `uuid(k)` is the id handed to the k-th event created. */
module BuildMit {
  import opened Wrappers
  import opened Types
  import opened Seqs

  datatype FriendlyCastLite = FriendlyCastLite(time: real, actionId: int)

  datatype FriendlyCastBatch = FriendlyCastBatch(
    casts: seq<FriendlyCastLite>,
    ownerJob: Option<Job>,
    ownerId: Option<int>)

  /** A cast together with the owner of its batch. */
  datatype OwnedCast = OwnedCast(cast: FriendlyCastLite, ownerJob: Option<Job>, ownerId: Option<int>)

  function BatchCasts(b: FriendlyCastBatch): (r: seq<OwnedCast>)
    ensures |r| == |b.casts|
    ensures forall i :: 0 <= i < |r| ==> r[i] == OwnedCast(b.casts[i], b.ownerJob, b.ownerId)
  {
    seq(|b.casts|, i requires 0 <= i < |b.casts| => OwnedCast(b.casts[i], b.ownerJob, b.ownerId))
  }

  /** The casts in the order the nested loops visit them. */
  function AllCasts(batches: seq<FriendlyCastBatch>): seq<OwnedCast>
    decreases |batches|
  {
    if batches == [] then []
    else AllCasts(batches[..|batches| - 1]) + BatchCasts(batches[|batches| - 1])
  }

  function Known(getSkillByActionId: int -> Option<Skill>): OwnedCast -> bool {
    (c: OwnedCast) => getSkillByActionId(c.cast.actionId).Some?
  }

  /** The mitigation event pushed for a cast of skill `s`: it starts at the
      cast time, lasts the skill's duration, and carries the batch owner and
      the skill id resolved for that owner. */
  function MakeMit(id: string, c: OwnedCast, s: Skill, resolveSkillId: (string, Option<Job>) -> string): (m: MitEvent)
    ensures m.eventType == MitType && m.id == id
    ensures m.tStartMs == SecToMs(c.cast.time) && m.durationMs == SecToMs(s.durationSec)
    ensures m.tEndMs == m.tStartMs + m.durationMs
    ensures m.skillId == resolveSkillId(s.id, c.ownerJob)
    ensures m.ownerId == c.ownerId && m.ownerJob == c.ownerJob
  {
    var tStartMs := SecToMs(c.cast.time);
    var durationMs := SecToMs(s.durationSec);
    MitEvent(MitType, id, resolveSkillId(s.id, c.ownerJob), tStartMs, durationMs, tStartMs + durationMs, c.ownerId, c.ownerJob)
  }

  /** `m` is the event made with id `id` for cast `c`, whose skill is known. */
  predicate MadeFrom(
    m: MitEvent, id: string, c: OwnedCast,
    getSkillByActionId: int -> Option<Skill>, resolveSkillId: (string, Option<Job>) -> string)
  {
    getSkillByActionId(c.cast.actionId).Some? &&
    m == MakeMit(id, c, getSkillByActionId(c.cast.actionId).value, resolveSkillId)
  }

  /** The events pushed, in push order: casts whose action id has no skill
      are skipped. */
  function Collect(
    casts: seq<OwnedCast>,
    getSkillByActionId: int -> Option<Skill>,
    resolveSkillId: (string, Option<Job>) -> string,
    uuid: nat -> string): (r: seq<MitEvent>)
    decreases |casts|
  {
    if casts == [] then []
    else
      var prev := Collect(casts[..|casts| - 1], getSkillByActionId, resolveSkillId, uuid);
      var c := casts[|casts| - 1];
      match getSkillByActionId(c.cast.actionId)
      case None => prev
      case Some(s) => prev + [MakeMit(uuid(|prev|), c, s, resolveSkillId)]
  }

  lemma CollectSnoc(
    casts: seq<OwnedCast>,
    c: OwnedCast,
    getSkillByActionId: int -> Option<Skill>,
    resolveSkillId: (string, Option<Job>) -> string,
    uuid: nat -> string)
    ensures var prev := Collect(casts, getSkillByActionId, resolveSkillId, uuid);
      Collect(casts + [c], getSkillByActionId, resolveSkillId, uuid) ==
        match getSkillByActionId(c.cast.actionId)
        case None => prev
        case Some(s) => prev + [MakeMit(uuid(|prev|), c, s, resolveSkillId)]
  {
    assert (casts + [c])[..|casts|] == casts;
  }

  /** The inner loop's step: visiting cast `c` of `batch`. */
  lemma InnerStep(
    done: seq<OwnedCast>,
    batch: FriendlyCastBatch,
    c: nat,
    getSkillByActionId: int -> Option<Skill>,
    resolveSkillId: (string, Option<Job>) -> string,
    uuid: nat -> string)
    requires c < |batch.casts|
    ensures var prev := Collect(done + BatchCasts(batch)[..c], getSkillByActionId, resolveSkillId, uuid);
      var owned := OwnedCast(batch.casts[c], batch.ownerJob, batch.ownerId);
      Collect(done + BatchCasts(batch)[..c + 1], getSkillByActionId, resolveSkillId, uuid) ==
        match getSkillByActionId(batch.casts[c].actionId)
        case None => prev
        case Some(s) => prev + [MakeMit(uuid(|prev|), owned, s, resolveSkillId)]
  {
    var owned := OwnedCast(batch.casts[c], batch.ownerJob, batch.ownerId);
    assert done + BatchCasts(batch)[..c + 1] == (done + BatchCasts(batch)[..c]) + [owned];
    CollectSnoc(done + BatchCasts(batch)[..c], owned, getSkillByActionId, resolveSkillId, uuid);
  }

  /** The outer loop's step: all casts of batch `b` have been visited. */
  lemma OuterStep(batches: seq<FriendlyCastBatch>, b: nat)
    requires b < |batches|
    ensures AllCasts(batches[..b + 1]) == AllCasts(batches[..b]) + BatchCasts(batches[b])[..|batches[b].casts|]
  {
    assert BatchCasts(batches[b])[..|batches[b].casts|] == BatchCasts(batches[b]);
    assert batches[..b + 1][..b] == batches[..b];
  }

  /** One event per cast whose skill is known. */
  lemma {:induction false} CollectLength(
    casts: seq<OwnedCast>,
    getSkillByActionId: int -> Option<Skill>,
    resolveSkillId: (string, Option<Job>) -> string,
    uuid: nat -> string)
    ensures |Collect(casts, getSkillByActionId, resolveSkillId, uuid)| == Count(casts, Known(getSkillByActionId))
    decreases |casts|
  {
    if casts != [] {
      CollectLength(casts[..|casts| - 1], getSkillByActionId, resolveSkillId, uuid);
    }
  }

  /** The k-th event pushed gets the k-th id. */
  lemma {:induction false} CollectIds(
    casts: seq<OwnedCast>,
    getSkillByActionId: int -> Option<Skill>,
    resolveSkillId: (string, Option<Job>) -> string,
    uuid: nat -> string)
    ensures var r := Collect(casts, getSkillByActionId, resolveSkillId, uuid);
      forall k :: 0 <= k < |r| ==> r[k].id == uuid(k)
    decreases |casts|
  {
    if casts != [] {
      CollectIds(casts[..|casts| - 1], getSkillByActionId, resolveSkillId, uuid);
    }
  }

  /** `buildMitEvents`. */
  method BuildMitEvents(
    batches: seq<FriendlyCastBatch>,
    getSkillByActionId: int -> Option<Skill>,
    resolveSkillId: (string, Option<Job>) -> string,
    uuid: nat -> string) returns (events: seq<MitEvent>)
    ensures events == SortBy(Collect(AllCasts(batches), getSkillByActionId, resolveSkillId, uuid), MitStart)
  {
    events := [];
    for b := 0 to |batches|
      invariant events == Collect(AllCasts(batches[..b]), getSkillByActionId, resolveSkillId, uuid)
    {
      var batch := batches[b];
      ghost var done := AllCasts(batches[..b]);
      assert done + BatchCasts(batch)[..0] == done;
      for c := 0 to |batch.casts|
        invariant events == Collect(done + BatchCasts(batch)[..c], getSkillByActionId, resolveSkillId, uuid)
      {
        InnerStep(done, batch, c, getSkillByActionId, resolveSkillId, uuid);
        var cast := batch.casts[c];
        var skillDef := getSkillByActionId(cast.actionId);
        if skillDef.Some? {
          var tStartMs := SecToMs(cast.time);
          var durationMs := SecToMs(skillDef.value.durationSec);
          var resolvedSkillId := resolveSkillId(skillDef.value.id, batch.ownerJob);
          var event := MitEvent(MitType, uuid(|events|), resolvedSkillId, tStartMs, durationMs,
                                tStartMs + durationMs, batch.ownerId, batch.ownerJob);
          assert event == MakeMit(uuid(|events|), OwnedCast(cast, batch.ownerJob, batch.ownerId), skillDef.value, resolveSkillId);
          events := events + [event];
        }
      }
      OuterStep(batches, b);
    }
    assert events == Collect(AllCasts(batches), getSkillByActionId, resolveSkillId, uuid) by {
      assert batches[..|batches|] == batches;
    }
    events := SortBy(events, MitStart);
  }

  /** Every pushed event comes from a cast with a known skill. */
  lemma {:induction false} CollectFromCasts(
    casts: seq<OwnedCast>,
    getSkillByActionId: int -> Option<Skill>,
    resolveSkillId: (string, Option<Job>) -> string,
    uuid: nat -> string,
    k: nat)
    requires k < |Collect(casts, getSkillByActionId, resolveSkillId, uuid)|
    ensures var m := Collect(casts, getSkillByActionId, resolveSkillId, uuid)[k];
      exists j :: 0 <= j < |casts| && MadeFrom(m, uuid(k), casts[j], getSkillByActionId, resolveSkillId)
    decreases |casts|
  {
    var init := casts[..|casts| - 1];
    var prev := Collect(init, getSkillByActionId, resolveSkillId, uuid);
    if k < |prev| {
      CollectFromCasts(init, getSkillByActionId, resolveSkillId, uuid, k);
      var j :| 0 <= j < |init| && MadeFrom(prev[k], uuid(k), init[j], getSkillByActionId, resolveSkillId);
      assert init[j] == casts[j];
    } else {
      assert MadeFrom(Collect(casts, getSkillByActionId, resolveSkillId, uuid)[k], uuid(k), casts[|casts| - 1],
        getSkillByActionId, resolveSkillId);
    }
  }

  /** Every event of the result is a known cast turned into a mitigation
      event, and the result is in start order with one event per known cast. */
  lemma BuildMitEventsShape(
    batches: seq<FriendlyCastBatch>,
    getSkillByActionId: int -> Option<Skill>,
    resolveSkillId: (string, Option<Job>) -> string,
    uuid: nat -> string)
    ensures var r := SortBy(Collect(AllCasts(batches), getSkillByActionId, resolveSkillId, uuid), MitStart);
      && SortedBy(r, MitStart)
      && |r| == Count(AllCasts(batches), Known(getSkillByActionId))
      && forall m :: m in r ==>
           exists j, k: nat :: 0 <= j < |AllCasts(batches)| && MadeFrom(m, uuid(k), AllCasts(batches)[j], getSkillByActionId, resolveSkillId)
  {
    var casts := AllCasts(batches);
    var pushed := Collect(casts, getSkillByActionId, resolveSkillId, uuid);
    CollectLength(casts, getSkillByActionId, resolveSkillId, uuid);
    SortByMembers(pushed, MitStart);
    forall m | m in SortBy(pushed, MitStart)
      ensures exists j, k: nat :: 0 <= j < |casts| && MadeFrom(m, uuid(k), casts[j], getSkillByActionId, resolveSkillId)
    {
      var k :| 0 <= k < |pushed| && pushed[k] == m;
      CollectFromCasts(casts, getSkillByActionId, resolveSkillId, uuid, k);
    }
  }

  /** Every cast with a known skill produces an event. */
  lemma {:induction false} KnownCastCollected(
    casts: seq<OwnedCast>,
    getSkillByActionId: int -> Option<Skill>,
    resolveSkillId: (string, Option<Job>) -> string,
    uuid: nat -> string,
    j: nat)
    requires j < |casts| && getSkillByActionId(casts[j].cast.actionId).Some?
    ensures var r := Collect(casts, getSkillByActionId, resolveSkillId, uuid);
      exists k :: 0 <= k < |r| && MadeFrom(r[k], uuid(k), casts[j], getSkillByActionId, resolveSkillId)
    decreases |casts|
  {
    var init := casts[..|casts| - 1];
    var prev := Collect(init, getSkillByActionId, resolveSkillId, uuid);
    if j < |init| {
      KnownCastCollected(init, getSkillByActionId, resolveSkillId, uuid, j);
      assert init[j] == casts[j];
      var k :| 0 <= k < |prev| && MadeFrom(prev[k], uuid(k), init[j], getSkillByActionId, resolveSkillId);
      assert Collect(casts, getSkillByActionId, resolveSkillId, uuid)[k] == prev[k];
    } else {
      assert MadeFrom(Collect(casts, getSkillByActionId, resolveSkillId, uuid)[|prev|], uuid(|prev|), casts[j],
        getSkillByActionId, resolveSkillId);
    }
  }

  /** With an injective id source, no two events share an id. */
  lemma CollectIdsDistinct(
    casts: seq<OwnedCast>,
    getSkillByActionId: int -> Option<Skill>,
    resolveSkillId: (string, Option<Job>) -> string,
    uuid: nat -> string)
    requires forall a: nat, b: nat :: a != b ==> uuid(a) != uuid(b)
    ensures var r := Collect(casts, getSkillByActionId, resolveSkillId, uuid);
      forall i, j :: 0 <= i < j < |r| ==> r[i].id != r[j].id
  {
    CollectIds(casts, getSkillByActionId, resolveSkillId, uuid);
  }
}
