/** The editing logic of the application shell (src/App.tsx): building a
    mitigation event for a dropped skill, the conflict check around
    `adjustEvents`, moving placed events and collecting the events to export.
    The skill table `SKILLS`, `crypto.randomUUID`, the pixel-to-time
    conversion and the rounding of times are parameters. */
module App {
  import opened Wrappers
  import opened Types
  import opened Seqs
  import PlayerCast
  import Store
  import Exporter

  /** `(s) => s.id === skillId`. */
  function SkillIdIs(skillId: string): Skill -> bool { (s: Skill) => s.id == skillId }

  /** `buildMitEventFromSkill(skillId, tStartMs, id)`: `null` for a skill id
      the table does not know; otherwise a 'mit' event lasting the skill's
      duration, with no owner. */
  function BuildMitEventFromSkill(skills: seq<Skill>, skillId: string, tStartMs: real, id: string): (r: Option<MitEvent>)
    ensures r.None? <==> forall i :: 0 <= i < |skills| ==> skills[i].id != skillId
    ensures r.Some? ==>
      && r.value.eventType == MitType && r.value.id == id && r.value.skillId == skillId
      && r.value.tStartMs == tStartMs && r.value.tEndMs == tStartMs + r.value.durationMs
      && r.value.ownerId.None? && r.value.ownerJob.None?
      && exists i :: 0 <= i < |skills| && FirstWith(skills, i, SkillIdIs(skillId))
           && r.value.durationMs == SecToMs(skills[i].durationSec)
  {
    match Find(skills, SkillIdIs(skillId))
    case None => None
    case Some(skillDef) =>
      var durationMs := SecToMs(skillDef.durationSec);
      Some(MitEvent(MitType, id, skillId, tStartMs, durationMs, tStartMs + durationMs, None, None))
  }

  function AsPlayerEvents(mits: seq<MitEvent>): (r: seq<PlayerEvent>)
    ensures |r| == |mits|
  {
    seq(|mits|, i requires 0 <= i < |mits| => Mit(mits[i]))
  }

  /** `checkConflictWithAdjust(eventsToAdjust, baseEvents)`: true means a
      conflict. The events being moved are dropped from the base list, and
      since `adjustEvents` always returns `undefined` the answer is always
      "conflict". */
  method CheckConflictWithAdjust(eventsToAdjust: seq<MitEvent>, baseEvents: seq<MitEvent>) returns (conflict: bool)
    ensures conflict
  {
    var excludeIds := set e | e in eventsToAdjust :: e.id;
    var filteredBase := Filter(baseEvents, (e: MitEvent) => e.id !in excludeIds);
    var adjusted := PlayerCast.AdjustEvents(eventsToAdjust, AsPlayerEvents(filteredBase));
    conflict := adjusted.None?;
  }

  // ---------------------------------------------------------------------------
  // Moving placed events.

  /** An event moved to start at `newStart`, keeping its duration. */
  function Shifted(item: MitEvent, newStart: real): (r: MitEvent)
    ensures r.tStartMs == newStart && r.tEndMs == newStart + item.durationMs
    ensures r.(tStartMs := item.tStartMs, tEndMs := item.tEndMs) == item
  {
    item.(tStartMs := newStart, tEndMs := newStart + item.durationMs)
  }

  /** How the loop over the selection ends: an early `return` because some
      event would start before 0, or the list of moved events. */
  datatype MoveOutcome = Rejected | Moved(events: seq<MitEvent>)

  /** The loop of `handleExistingMitMove` over `selectedMitIds`: each id found
      in the list is shifted by `deltaMs`; ids not found are skipped. */
  function MoveSelection(ids: seq<string>, mits: seq<MitEvent>, deltaMs: real): MoveOutcome
    decreases |ids|
  {
    if ids == [] then Moved([])
    else
      match MoveSelection(ids[..|ids| - 1], mits, deltaMs)
      case Rejected => Rejected
      case Moved(moved) =>
        match Find(mits, Store.IdIs(ids[|ids| - 1]))
        case None => Moved(moved)
        case Some(item) =>
          if item.tStartMs + deltaMs < 0.0 then Rejected
          else Moved(moved + [Shifted(item, item.tStartMs + deltaMs)])
  }

  /** The event the list holds for `id`, moved by `deltaMs`, if it would start
      before 0. */
  predicate MovesBeforeZero(mits: seq<MitEvent>, id: string, deltaMs: real) {
    var item := Find(mits, Store.IdIs(id));
    item.Some? && item.value.tStartMs + deltaMs < 0.0
  }

  /** `id` names an event in the list. */
  predicate Found(mits: seq<MitEvent>, id: string) {
    Find(mits, Store.IdIs(id)).Some?
  }

  function FoundIn(mits: seq<MitEvent>): string -> bool { (id: string) => Found(mits, id) }

  /** The shifted copy of an event in the list. */
  predicate ShiftedFrom(mits: seq<MitEvent>, m: MitEvent, deltaMs: real) {
    exists item :: item in mits && m == Shifted(item, item.tStartMs + deltaMs)
  }

  /** Some selected id names an event that would start before 0. */
  predicate AnyBeforeZero(ids: seq<string>, mits: seq<MitEvent>, deltaMs: real) {
    exists k :: 0 <= k < |ids| && MovesBeforeZero(mits, ids[k], deltaMs)
  }

  lemma AnyBeforeZeroSnoc(ids: seq<string>, mits: seq<MitEvent>, deltaMs: real)
    requires ids != []
    ensures AnyBeforeZero(ids, mits, deltaMs)
        <==> AnyBeforeZero(ids[..|ids| - 1], mits, deltaMs) || MovesBeforeZero(mits, ids[|ids| - 1], deltaMs)
  {
    var init := ids[..|ids| - 1];
    if AnyBeforeZero(init, mits, deltaMs) {
      var k :| 0 <= k < |init| && MovesBeforeZero(mits, init[k], deltaMs);
      assert ids[k] == init[k];
    }
    if AnyBeforeZero(ids, mits, deltaMs) {
      var k :| 0 <= k < |ids| && MovesBeforeZero(mits, ids[k], deltaMs);
      if k < |init| {
        assert init[k] == ids[k];
      }
    }
  }

  /** The move is rejected exactly when some selected id names an event that
      would start before 0. */
  lemma {:induction false} MoveRejectedIff(ids: seq<string>, mits: seq<MitEvent>, deltaMs: real)
    ensures MoveSelection(ids, mits, deltaMs).Rejected? <==> AnyBeforeZero(ids, mits, deltaMs)
    decreases |ids|
  {
    if ids != [] {
      MoveRejectedIff(ids[..|ids| - 1], mits, deltaMs);
      AnyBeforeZeroSnoc(ids, mits, deltaMs);
    }
  }

  /** The event of the list named by the `i`-th found id, shifted by
      `deltaMs`. */
  function SelectedShifted(found: seq<string>, mits: seq<MitEvent>, deltaMs: real, i: nat): MitEvent
    requires i < |found| && Found(mits, found[i])
  {
    var item := Find(mits, Store.IdIs(found[i])).value;
    Shifted(item, item.tStartMs + deltaMs)
  }

  /** `moved` holds, in order, the events of the ids in `found`, shifted by
      `deltaMs`. */
  predicate MovedMatch(moved: seq<MitEvent>, found: seq<string>, mits: seq<MitEvent>, deltaMs: real) {
    && |moved| == |found|
    && forall i :: 0 <= i < |moved| ==> Found(mits, found[i]) && moved[i] == SelectedShifted(found, mits, deltaMs, i)
  }

  /** One more found id adds its shifted event at the end. */
  lemma MovedMatchSnoc(moved: seq<MitEvent>, found: seq<string>, mits: seq<MitEvent>, deltaMs: real, last: string)
    requires MovedMatch(moved, found, mits, deltaMs) && Found(mits, last)
    ensures var item := Find(mits, Store.IdIs(last)).value;
      MovedMatch(moved + [Shifted(item, item.tStartMs + deltaMs)], found + [last], mits, deltaMs)
  {
    var item := Find(mits, Store.IdIs(last)).value;
    var r, f := moved + [Shifted(item, item.tStartMs + deltaMs)], found + [last];
    forall i | 0 <= i < |r| ensures Found(mits, f[i]) && r[i] == SelectedShifted(f, mits, deltaMs, i) {
      if i < |moved| {
        assert f[i] == found[i];
        assert r[i] == moved[i];
      }
    }
  }

  /** The `i`-th moved event is the event of the `i`-th selected id found in
      the list, shifted by `deltaMs`: ids not found are skipped, and the order
      is the selection's. */
  lemma {:induction false} MovedAreSelected(ids: seq<string>, mits: seq<MitEvent>, deltaMs: real)
    requires MoveSelection(ids, mits, deltaMs).Moved?
    ensures var moved := MoveSelection(ids, mits, deltaMs).events;
      var found := Filter(ids, FoundIn(mits));
      && |moved| == |found|
      && forall i :: 0 <= i < |moved| ==> Found(mits, found[i]) && moved[i] == SelectedShifted(found, mits, deltaMs, i)
    decreases |ids|
  {
    if ids != [] {
      var init := ids[..|ids| - 1];
      var last := ids[|ids| - 1];
      MovedAreSelected(init, mits, deltaMs);
      var moved := MoveSelection(init, mits, deltaMs).events;
      var found0 := Filter(init, FoundIn(mits));
      assert Filter(ids, FoundIn(mits)) == if FoundIn(mits)(last) then found0 + [last] else found0;
      if Find(mits, Store.IdIs(last)).Some? {
        MovedMatchSnoc(moved, found0, mits, deltaMs, last);
      }
    }
  }

  /** An applied move has one moved event per selected id found in the list,
      in selection order: the `i`-th is the event of the `i`-th found id,
      shifted by `deltaMs`, starting at or after 0 and keeping its duration. */
  lemma MovedShape(ids: seq<string>, mits: seq<MitEvent>, deltaMs: real)
    requires MoveSelection(ids, mits, deltaMs).Moved?
    ensures var moved := MoveSelection(ids, mits, deltaMs).events;
      var found := Filter(ids, FoundIn(mits));
      && |moved| == Count(ids, FoundIn(mits)) == |found|
      && forall i :: 0 <= i < |moved| ==>
           && Found(mits, found[i])
           && moved[i] == SelectedShifted(found, mits, deltaMs, i)
           && ShiftedFrom(mits, moved[i], deltaMs)
           && moved[i].tStartMs >= 0.0
           && moved[i].tEndMs == moved[i].tStartMs + moved[i].durationMs
  {
    MovedBounds(ids, mits, deltaMs);
    MovedAreSelected(ids, mits, deltaMs);
  }

  /** The count, provenance and bounds of the moved events. */
  lemma {:induction false} MovedBounds(ids: seq<string>, mits: seq<MitEvent>, deltaMs: real)
    requires MoveSelection(ids, mits, deltaMs).Moved?
    ensures var moved := MoveSelection(ids, mits, deltaMs).events;
      && |moved| == Count(ids, FoundIn(mits))
      && forall i :: 0 <= i < |moved| ==>
           && ShiftedFrom(mits, moved[i], deltaMs)
           && moved[i].tStartMs >= 0.0
           && moved[i].tEndMs == moved[i].tStartMs + moved[i].durationMs
    decreases |ids|
  {
    if ids != [] {
      var init := ids[..|ids| - 1];
      MovedBounds(init, mits, deltaMs);
      var moved := MoveSelection(init, mits, deltaMs).events;
      var found := Find(mits, Store.IdIs(ids[|ids| - 1]));
      if found.Some? {
        var item := found.value;
        var m := Shifted(item, item.tStartMs + deltaMs);
        assert item in mits;
        assert ShiftedFrom(mits, m, deltaMs);
        var r := moved + [m];
        assert forall i :: 0 <= i < |moved| ==> r[i] == moved[i];
      }
    }
  }

  /** The loop of `handleExistingMitMove` for a selected event: `movedEvents`
      is filled in selection order, and an event that would start before 0
      ends the handler. */
  method MoveSelected(selectedMitIds: seq<string>, mitEvents: seq<MitEvent>, deltaMs: real) returns (r: MoveOutcome)
    ensures r == MoveSelection(selectedMitIds, mitEvents, deltaMs)
  {
    var movedEvents: seq<MitEvent> := [];
    for k := 0 to |selectedMitIds|
      invariant MoveSelection(selectedMitIds[..k], mitEvents, deltaMs) == Moved(movedEvents)
    {
      assert selectedMitIds[..k + 1][..k] == selectedMitIds[..k];
      var item := Find(mitEvents, Store.IdIs(selectedMitIds[k]));
      if item.None? {
        continue;
      }
      var newStart := item.value.tStartMs + deltaMs;
      if newStart < 0.0 {
        MoveRejectedIff(selectedMitIds[..k + 1], mitEvents, deltaMs);
        assert MovesBeforeZero(mitEvents, selectedMitIds[k], deltaMs);
        MoveRejectedIff(selectedMitIds, mitEvents, deltaMs);
        return Rejected;
      }
      movedEvents := movedEvents + [item.value.(tStartMs := newStart, tEndMs := newStart + item.value.durationMs)];
    }
    assert selectedMitIds[..|selectedMitIds|] == selectedMitIds;
    r := Moved(movedEvents);
  }

  /** The move of an event that is not selected: its start is clamped at 0
      instead of being rejected. */
  function ClampedMove(mit: MitEvent, deltaMs: real): (r: MitEvent)
    ensures r.tStartMs >= 0.0
    ensures r.tStartMs == if mit.tStartMs + deltaMs < 0.0 then 0.0 else mit.tStartMs + deltaMs
    ensures r.tEndMs == r.tStartMs + mit.durationMs
    ensures r.(tStartMs := mit.tStartMs, tEndMs := mit.tEndMs) == mit
  {
    var clampedStart := if mit.tStartMs + deltaMs < 0.0 then 0.0 else mit.tStartMs + deltaMs;
    Shifted(mit, clampedStart)
  }

  /** `handleExistingMitMove(event, mit)` up to `applyMovedEvents`: the result
      is the list it would hand to `applyMovedEvents`, empty when the handler
      returns first. The conflict check always reports a conflict, so no
      move is ever applied. */
  method HandleExistingMitMove(selectedMitIds: seq<string>, mitEvents: seq<MitEvent>, mit: MitEvent, deltaMs: real)
    returns (applied: seq<MitEvent>)
    ensures applied == []
  {
    if mit.id in selectedMitIds {
      var outcome := MoveSelected(selectedMitIds, mitEvents, deltaMs);
      match outcome {
        case Rejected =>
          return [];
        case Moved(movedEvents) =>
          var baseEvents := Filter(mitEvents, (m: MitEvent) => m.id !in selectedMitIds);
          var conflict := CheckConflictWithAdjust(movedEvents, baseEvents);
          if conflict {
            return [];
          }
          applied := movedEvents;
          return;
      }
    }
    var updatedMit := ClampedMove(mit, deltaMs);
    var conflict := CheckConflictWithAdjust([updatedMit], mitEvents);
    if conflict {
      return [];
    }
    applied := [updatedMit];
  }

  /** The drop of a new skill in `handleDragEnd`, up to `addMitEvent`: the
      event it would add, `None` when it returns first. An unknown skill
      yields nothing, and the conflict check rejects every other drop. */
  method HandleNewSkillDrop(skills: seq<Skill>, skillId: string, tStartMs: real, id: string, mitEvents: seq<MitEvent>)
    returns (added: Option<MitEvent>)
    ensures added.None?
  {
    var newMit := BuildMitEventFromSkill(skills, skillId, tStartMs, id);
    if newMit.None? {
      return None;
    }
    var conflict := CheckConflictWithAdjust([newMit.value], mitEvents);
    if conflict {
      return None;
    }
    added := newMit;
  }

  /** The list after `updateMitEvent` has been called for each moved event
      in turn with its new start and end. */
  function ApplyMoves(mits: seq<MitEvent>, moved: seq<MitEvent>): (r: seq<MitEvent>)
    ensures |r| == |mits|
    ensures moved != [] ==> SortedBy(r, MitStart)
    decreases |moved|
  {
    if moved == [] then mits
    else
      var last := moved[|moved| - 1];
      Store.WithUpdated(ApplyMoves(mits, moved[..|moved| - 1]), last.id, Store.MovePatch(last.tStartMs, last.tEndMs))
  }

  /** The store state after `updateMitEvent` has been called for each moved
      event in turn with its new start and end. */
  function StateAfterMoves(s: Store.StoreState, moved: seq<MitEvent>, build: seq<MitEvent> -> Option<seq<CooldownEvent>>): Store.StoreState
    decreases |moved|
  {
    if moved == [] then s
    else
      var prev := StateAfterMoves(s, moved[..|moved| - 1], build);
      var last := moved[|moved| - 1];
      var patch := Store.MovePatch(last.tStartMs, last.tEndMs);
      prev.(mitEvents := Store.WithUpdated(prev.mitEvents, last.id, patch),
            cooldownEvents := Store.CooldownsFor(build, Store.Patched(prev.mitEvents, last.id, patch)))
  }

  /** Moving events changes the mitigation list, as `ApplyMoves` says, and the
      cooldowns, which are those built from the last patched list; no other
      field of the store changes, and no moves change nothing at all. */
  lemma {:induction false} MovesTouchOnlyTheList(s: Store.StoreState, moved: seq<MitEvent>, build: seq<MitEvent> -> Option<seq<CooldownEvent>>)
    ensures StateAfterMoves(s, moved, build).mitEvents == ApplyMoves(s.mitEvents, moved)
    ensures StateAfterMoves(s, moved, build).(mitEvents := s.mitEvents, cooldownEvents := s.cooldownEvents) == s
    ensures moved == [] ==> StateAfterMoves(s, moved, build) == s
    ensures moved != [] ==>
      var last := moved[|moved| - 1];
      StateAfterMoves(s, moved, build).cooldownEvents
      == Store.CooldownsFor(build, Store.Patched(ApplyMoves(s.mitEvents, moved[..|moved| - 1]), last.id,
                                                 Store.MovePatch(last.tStartMs, last.tEndMs)))
    decreases |moved|
  {
    if moved != [] {
      MovesTouchOnlyTheList(s, moved[..|moved| - 1], build);
    }
  }

  /** `applyMovedEvents(movedEvents)` on the store. */
  method ApplyMovedEvents(store: Store.AppStore, movedEvents: seq<MitEvent>, build: seq<MitEvent> -> Option<seq<CooldownEvent>>)
    modifies store
    requires store.Valid()
    ensures store.Valid()
    ensures store.State() == StateAfterMoves(old(store.State()), movedEvents, build)
    ensures store.mitEvents == ApplyMoves(old(store.mitEvents), movedEvents)
    ensures store.State().(mitEvents := old(store.mitEvents), cooldownEvents := old(store.cooldownEvents)) == old(store.State())
    ensures movedEvents == [] ==> store.State() == old(store.State())
  {
    for i := 0 to |movedEvents|
      invariant store.Valid()
      invariant store.State() == StateAfterMoves(old(store.State()), movedEvents[..i], build)
    {
      assert movedEvents[..i + 1][..i] == movedEvents[..i];
      var item := movedEvents[i];
      store.UpdateMitEvent(item.id, Store.MovePatch(item.tStartMs, item.tEndMs), build);
    }
    assert movedEvents[..|movedEvents|] == movedEvents;
    MovesTouchOnlyTheList(old(store.State()), movedEvents, build);
  }

  /** What a rejected move hands to the store changes nothing. */
  lemma ApplyNoMoves(mits: seq<MitEvent>)
    ensures ApplyMoves(mits, []) == mits
  {
  }

  // ---------------------------------------------------------------------------
  // Events to export.

  function ExportTime(e: Exporter.ExportableEvent): real { e.time }

  /** A boss cast as an exported event. `roundTime` is
      `Number(x.toFixed(TIME_DECIMAL_PLACES))`. */
  function CastToExport(e: CastEvent, roundTime: real -> real): (r: Exporter.ExportableEvent)
    ensures r.time == roundTime(MsToSec(e.tMs)) && r.actionName == e.ability.name
    ensures r.actionId == if Truthy(e.originalActionId) then e.originalActionId.value else e.ability.guid
    ensures r.eventKind == if e.originalType.Some? then CastKindName(e.originalType.value) else e.eventKind
    ensures r.isFriendly <==> e.isFriendly == Some(true)
    ensures r.tts.None? && r.sourceId == Some(e.sourceID)
  {
    Exporter.ExportableEvent(
      roundTime(MsToSec(e.tMs)),
      e.ability.name,
      if Truthy(e.originalActionId) then e.originalActionId.value else e.ability.guid,
      None,
      if e.originalType.Some? then CastKindName(e.originalType.value) else e.eventKind,
      e.isFriendly == Some(true),
      Some(e.sourceID))
  }

  /** A placed mitigation as an exported event: a friendly 'cast' named after
      its skill, or 'Unknown' with id 0 when the table lacks the skill. */
  function MitToExport(m: MitEvent, skills: seq<Skill>, selectedPlayerId: Option<int>, roundTime: real -> real): Exporter.ExportableEvent {
    var skill := Find(skills, SkillIdIs(m.skillId));
    Exporter.ExportableEvent(
      roundTime(MsToSec(m.tStartMs)),
      if skill.Some? && skill.value.name != "" then skill.value.name else "Unknown",
      if skill.Some? && Truthy(skill.value.actionId) then skill.value.actionId.value else 0,
      None,
      "cast",
      true,
      Some(if Truthy(selectedPlayerId) then selectedPlayerId.value else 0))
  }

  function CastsToExport(castEvents: seq<CastEvent>, roundTime: real -> real): (r: seq<Exporter.ExportableEvent>)
    ensures |r| == |castEvents|
  {
    seq(|castEvents|, i requires 0 <= i < |castEvents| => CastToExport(castEvents[i], roundTime))
  }

  function MitsToExport(mitEvents: seq<MitEvent>, skills: seq<Skill>, selectedPlayerId: Option<int>, roundTime: real -> real)
    : (r: seq<Exporter.ExportableEvent>)
    ensures |r| == |mitEvents|
  {
    seq(|mitEvents|, i requires 0 <= i < |mitEvents| => MitToExport(mitEvents[i], skills, selectedPlayerId, roundTime))
  }

  /** `getEventsToExport()`: the boss casts, then the placed mitigations,
      stably sorted by time. */
  function EventsToExport(castEvents: seq<CastEvent>, mitEvents: seq<MitEvent>, skills: seq<Skill>,
                          selectedPlayerId: Option<int>, roundTime: real -> real): (r: seq<Exporter.ExportableEvent>)
    ensures |r| == |castEvents| + |mitEvents|
    ensures SortedBy(r, ExportTime)
    ensures multiset(r) == multiset(CastsToExport(castEvents, roundTime) + MitsToExport(mitEvents, skills, selectedPlayerId, roundTime))
  {
    SortBy(CastsToExport(castEvents, roundTime) + MitsToExport(mitEvents, skills, selectedPlayerId, roundTime), ExportTime)
  }

  /** A mitigation whose skill the table lacks is exported as a friendly
      'Unknown' cast with action id 0. */
  lemma UnknownSkillExport(m: MitEvent, skills: seq<Skill>, selectedPlayerId: Option<int>, roundTime: real -> real)
    requires forall i :: 0 <= i < |skills| ==> skills[i].id != m.skillId
    ensures var e := MitToExport(m, skills, selectedPlayerId, roundTime);
      e.actionName == "Unknown" && e.actionId == 0 && e.eventKind == "cast" && e.isFriendly
  {
  }

  /** A mitigation whose skill is known is exported under the first matching
      skill's name and action id, as a friendly cast. */
  lemma KnownSkillExport(m: MitEvent, skills: seq<Skill>, selectedPlayerId: Option<int>, roundTime: real -> real, i: nat)
    requires i < |skills| && FirstWith(skills, i, SkillIdIs(m.skillId))
    requires skills[i].name != "" && Truthy(skills[i].actionId)
    ensures var e := MitToExport(m, skills, selectedPlayerId, roundTime);
      e.actionName == skills[i].name && e.actionId == skills[i].actionId.value && e.eventKind == "cast" && e.isFriendly
  {
    var skill := Find(skills, SkillIdIs(m.skillId));
    var k :| 0 <= k < |skills| && FirstWith(skills, k, SkillIdIs(m.skillId)) && skills[k] == skill.value;
    FirstWithUnique(skills, i, k, SkillIdIs(m.skillId));
  }

  lemma CastsListed(castEvents: seq<CastEvent>, roundTime: real -> real)
    ensures forall c :: c in castEvents ==> CastToExport(c, roundTime) in CastsToExport(castEvents, roundTime)
    ensures forall x :: x in CastsToExport(castEvents, roundTime) ==> exists c :: c in castEvents && x == CastToExport(c, roundTime)
  {
    var cs := CastsToExport(castEvents, roundTime);
    forall c | c in castEvents ensures CastToExport(c, roundTime) in cs {
      var i :| 0 <= i < |castEvents| && castEvents[i] == c;
      assert cs[i] == CastToExport(c, roundTime);
    }
    forall x | x in cs ensures exists c :: c in castEvents && x == CastToExport(c, roundTime) {
      var i :| 0 <= i < |cs| && cs[i] == x;
      assert castEvents[i] in castEvents;
    }
  }

  lemma MitsListed(mitEvents: seq<MitEvent>, skills: seq<Skill>, selectedPlayerId: Option<int>, roundTime: real -> real)
    ensures var ms := MitsToExport(mitEvents, skills, selectedPlayerId, roundTime);
      && (forall m :: m in mitEvents ==> MitToExport(m, skills, selectedPlayerId, roundTime) in ms)
      && (forall x :: x in ms ==> exists m :: m in mitEvents && x == MitToExport(m, skills, selectedPlayerId, roundTime))
  {
    var ms := MitsToExport(mitEvents, skills, selectedPlayerId, roundTime);
    forall m | m in mitEvents ensures MitToExport(m, skills, selectedPlayerId, roundTime) in ms {
      var i :| 0 <= i < |mitEvents| && mitEvents[i] == m;
      assert ms[i] == MitToExport(m, skills, selectedPlayerId, roundTime);
    }
    forall x | x in ms ensures exists m :: m in mitEvents && x == MitToExport(m, skills, selectedPlayerId, roundTime) {
      var i :| 0 <= i < |ms| && ms[i] == x;
      assert mitEvents[i] in mitEvents;
    }
  }

  /** Every cast and every mitigation is exported, and nothing else. */
  lemma ExportMembers(castEvents: seq<CastEvent>, mitEvents: seq<MitEvent>, skills: seq<Skill>,
                      selectedPlayerId: Option<int>, roundTime: real -> real)
    ensures var r := EventsToExport(castEvents, mitEvents, skills, selectedPlayerId, roundTime);
      && (forall c :: c in castEvents ==> CastToExport(c, roundTime) in r)
      && (forall m :: m in mitEvents ==> MitToExport(m, skills, selectedPlayerId, roundTime) in r)
      && (forall x :: x in r ==>
            (exists c :: c in castEvents && x == CastToExport(c, roundTime))
            || (exists m :: m in mitEvents && x == MitToExport(m, skills, selectedPlayerId, roundTime)))
  {
    var cs, ms := CastsToExport(castEvents, roundTime), MitsToExport(mitEvents, skills, selectedPlayerId, roundTime);
    SortByMembers(cs + ms, ExportTime);
    assert forall x :: x in cs + ms <==> x in cs || x in ms;
    CastsListed(castEvents, roundTime);
    MitsListed(mitEvents, skills, selectedPlayerId, roundTime);
  }

  /** `handleExportTimeline()`: the text is the timeline of the exported
      events. */
  method ExportTimeline(castEvents: seq<CastEvent>, mitEvents: seq<MitEvent>, skills: seq<Skill>,
                        selectedPlayerId: Option<int>, enableTTS: bool, roundTime: real -> real,
                        rule: int -> Option<Exporter.SyncRule>, showNum: real -> string) returns (text: string)
    ensures text == Exporter.Join(Exporter.Render(EventsToExport(castEvents, mitEvents, skills, selectedPlayerId, roundTime),
                                                   rule, showNum, enableTTS).lines, "\n")
  {
    var eventsToExport := EventsToExport(castEvents, mitEvents, skills, selectedPlayerId, roundTime);
    text := Exporter.GenerateTimeline(eventsToExport, enableTTS, rule, showNum);
  }
}
