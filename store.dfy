/** The editor's state (src/store/index.ts): the mitigation list kept in start
    order, the bounded top-banner queue, the migration of persisted state and
    the fight selection of `loadFightMetadata`. `tryBuildCooldowns`, the
    fetched report and `Number(...)` of a text are parameters. */
module Store {
  import opened Wrappers
  import opened Types
  import opened Seqs
  import FFLogsUrl
  import opened Banners

  // ---------------------------------------------------------------------------
  // The mitigation list.

  /** `Partial<MitEvent>`: the fields an update carries. For the optional
      owner fields the outer `Option` says whether the key is present. */
  datatype MitPatch = MitPatch(
    eventType: Option<PlayerEventType>,
    id: Option<string>,
    skillId: Option<string>,
    tStartMs: Option<real>,
    durationMs: Option<real>,
    tEndMs: Option<real>,
    ownerId: Option<Option<int>>,
    ownerJob: Option<Option<Job>>)

  /** `{ ...e, ...updates }`. */
  function ApplyPatch(e: MitEvent, p: MitPatch): MitEvent {
    MitEvent(
      p.eventType.GetOr(e.eventType),
      p.id.GetOr(e.id),
      p.skillId.GetOr(e.skillId),
      p.tStartMs.GetOr(e.tStartMs),
      p.durationMs.GetOr(e.durationMs),
      p.tEndMs.GetOr(e.tEndMs),
      p.ownerId.GetOr(e.ownerId),
      p.ownerJob.GetOr(e.ownerJob))
  }

  /** The patch `{ tStartMs, tEndMs }` the editor sends when it moves an event. */
  function MovePatch(tStartMs: real, tEndMs: real): (p: MitPatch)
    ensures forall e :: ApplyPatch(e, p) == e.(tStartMs := tStartMs, tEndMs := tEndMs)
  {
    MitPatch(None, None, None, Some(tStartMs), None, Some(tEndMs), None, None)
  }

  /** A patch that leaves the `id` of an event with id `id` as it is. */
  predicate KeepsId(p: MitPatch, id: string) {
    p.id.None? || p.id == Some(id)
  }

  function IdIs(id: string): MitEvent -> bool { (e: MitEvent) => e.id == id }

  function IdIsNot(id: string): MitEvent -> bool { (e: MitEvent) => e.id != id }

  /** The list after `addMitEvent(event)`. */
  function WithAdded(mits: seq<MitEvent>, event: MitEvent): (r: seq<MitEvent>)
    ensures multiset(r) == multiset(mits) + multiset{event}
    ensures SortedBy(r, MitStart)
  {
    SortBy(mits + [event], MitStart)
  }

  /** The `map` of `updateMitEvent`, before its sort. */
  function Patched(mits: seq<MitEvent>, id: string, p: MitPatch): (r: seq<MitEvent>)
    ensures |r| == |mits|
  {
    seq(|mits|, i requires 0 <= i < |mits| => if mits[i].id == id then ApplyPatch(mits[i], p) else mits[i])
  }

  /** The list after `updateMitEvent(id, updates)`. */
  function WithUpdated(mits: seq<MitEvent>, id: string, p: MitPatch): (r: seq<MitEvent>)
    ensures |r| == |mits|
    ensures SortedBy(r, MitStart)
  {
    SortBy(Patched(mits, id, p), MitStart)
  }

  /** The list after `removeMitEvent(id)`: no re-sort. */
  function WithRemoved(mits: seq<MitEvent>, id: string): (r: seq<MitEvent>)
    ensures forall i :: 0 <= i < |r| ==> r[i].id != id
  {
    Filter(mits, IdIsNot(id))
  }

  /** The list `setMitEvents(events)` stores: a sorted copy. */
  function SortedCopy(events: seq<MitEvent>): (r: seq<MitEvent>)
    ensures multiset(r) == multiset(events)
    ensures SortedBy(r, MitStart)
  {
    SortBy(events, MitStart)
  }

  /** `tryBuildCooldowns(list) ?? []`. */
  function CooldownsFor(build: seq<MitEvent> -> Option<seq<CooldownEvent>>, mits: seq<MitEvent>): seq<CooldownEvent> {
    build(mits).GetOr([])
  }

  /** Updating touches exactly the events with that id: every one of them is
      patched, and the others are the same events as before. */
  lemma UpdateTouchesOnlyId(mits: seq<MitEvent>, id: string, p: MitPatch)
    ensures multiset(WithUpdated(mits, id, p)) == multiset(Patched(mits, id, p))
    ensures forall e :: e in WithUpdated(mits, id, p) && e !in mits ==> exists m :: m in mits && m.id == id && e == ApplyPatch(m, p)
    ensures forall m :: m in mits && m.id != id ==> m in WithUpdated(mits, id, p)
  {
    var q := Patched(mits, id, p);
    var r := WithUpdated(mits, id, p);
    SortByMembers(q, MitStart);
    forall e | e in r && e !in mits ensures exists m :: m in mits && m.id == id && e == ApplyPatch(m, p) {
      var i :| 0 <= i < |q| && q[i] == e;
      assert mits[i] in mits;
    }
    forall m | m in mits && m.id != id ensures m in r {
      var i :| 0 <= i < |mits| && mits[i] == m;
      assert q[i] == m;
    }
  }

  /** With a patch that keeps the id, the events with other ids form the
      same multiset after the update, and as many events carry the id. */
  lemma UpdateKeepsOthers(mits: seq<MitEvent>, id: string, p: MitPatch)
    requires KeepsId(p, id)
    ensures multiset(Filter(WithUpdated(mits, id, p), IdIsNot(id))) == multiset(Filter(mits, IdIsNot(id)))
    ensures Count(WithUpdated(mits, id, p), IdIs(id)) == Count(mits, IdIs(id))
  {
    var q := Patched(mits, id, p);
    var r := WithUpdated(mits, id, p);
    PatchedOthers(mits, id, p);
    FilterMultiset(r, IdIsNot(id));
    FilterMultiset(q, IdIsNot(id));
    FilterMultiset(mits, IdIsNot(id));
    assert multiset(Filter(r, IdIsNot(id))) == multiset(Filter(q, IdIsNot(id)));
    SortByCount(q, MitStart, IdIs(id));
    PatchedCount(mits, id, p);
  }

  lemma {:induction false} PatchedOthers(mits: seq<MitEvent>, id: string, p: MitPatch)
    requires KeepsId(p, id)
    ensures Filter(Patched(mits, id, p), IdIsNot(id)) == Filter(mits, IdIsNot(id))
    decreases |mits|
  {
    if mits != [] {
      var init := mits[..|mits| - 1];
      PatchedOthers(init, id, p);
      assert Patched(mits, id, p)[..|mits| - 1] == Patched(init, id, p);
    }
  }

  lemma {:induction false} PatchedCount(mits: seq<MitEvent>, id: string, p: MitPatch)
    requires KeepsId(p, id)
    ensures Count(Patched(mits, id, p), IdIs(id)) == Count(mits, IdIs(id))
    decreases |mits|
  {
    if mits != [] {
      var init := mits[..|mits| - 1];
      PatchedCount(init, id, p);
      assert Patched(mits, id, p)[..|mits| - 1] == Patched(init, id, p);
    }
  }

  /** Removing drops exactly the events with that id, keeps every other one
      as often as before, keeps their order, and keeps a sorted list sorted. */
  lemma RemoveExactly(mits: seq<MitEvent>, id: string)
    ensures forall e :: multiset(WithRemoved(mits, id))[e] == if e.id != id then multiset(mits)[e] else 0
    ensures IsSubsequence(WithRemoved(mits, id), mits)
    ensures SortedBy(mits, MitStart) ==> SortedBy(WithRemoved(mits, id), MitStart)
  {
    FilterMultiset(mits, IdIsNot(id));
    FilterSubsequence(mits, IdIsNot(id));
    if SortedBy(mits, MitStart) {
      FilterSorted(mits, IdIsNot(id), MitStart);
    }
  }

  /** Storing a list that is already in start order stores it unchanged. */
  lemma SortedCopyOfSorted(events: seq<MitEvent>)
    requires SortedBy(events, MitStart)
    ensures SortedCopy(events) == events
  {
    SortBySortedIsIdentity(events, MitStart);
  }

  // ---------------------------------------------------------------------------
  // Migration of persisted state (version 1).

  /** The persisted part of the state, each field possibly absent. */
  datatype PersistedState = PersistedState(
    apiKey: Option<string>,
    fflogsUrl: Option<string>,
    selectedJob: Option<Job>,
    selectedPlayerId: Option<int>,
    mitEvents: Option<seq<MitEvent>>)

  /** `event.ownerId || event.ownerJob`: a non-zero owner id or any job. */
  predicate HasOwner(e: MitEvent) {
    (e.ownerId.Some? && e.ownerId.value != 0) || e.ownerJob.Some?
  }

  /** One event through the migration's `map`. */
  function MigrateEvent(e: MitEvent, ownerId: Option<int>, ownerJob: Option<Job>): MitEvent {
    if HasOwner(e) then e else e.(ownerId := ownerId, ownerJob := ownerJob)
  }

  /** `migrate(persistedState)`: events without an owner get the selected
      player and job; a missing list becomes empty; the rest is kept. */
  function Migrate(state: PersistedState): (r: PersistedState)
    ensures r.mitEvents.Some?
    ensures r.(mitEvents := state.mitEvents) == state
    ensures state.mitEvents.None? ==> r.mitEvents.value == []
    ensures state.mitEvents.Some? ==> |r.mitEvents.value| == |state.mitEvents.value|
  {
    var events := state.mitEvents.GetOr([]);
    state.(mitEvents := Some(seq(|events|, i requires 0 <= i < |events| =>
      MigrateEvent(events[i], state.selectedPlayerId, state.selectedJob))))
  }

  /** An owned event is kept as it is; an event without an owner differs
      from before only in its owner fields, which are the fallback owner. */
  lemma MigrateEventCases(state: PersistedState, i: nat)
    requires state.mitEvents.Some? && i < |state.mitEvents.value|
    ensures var e, m := state.mitEvents.value[i], Migrate(state).mitEvents.value[i];
      && (HasOwner(e) ==> m == e)
      && (!HasOwner(e) ==>
            m.ownerId == state.selectedPlayerId && m.ownerJob == state.selectedJob
            && m.(ownerId := e.ownerId, ownerJob := e.ownerJob) == e)
  {
  }

  /** With a selected job or a non-zero player, every migrated event has an
      owner. */
  lemma MigrateGivesOwners(state: PersistedState)
    requires state.selectedJob.Some? || (state.selectedPlayerId.Some? && state.selectedPlayerId.value != 0)
    ensures forall e :: e in Migrate(state).mitEvents.value ==> HasOwner(e)
  {
  }

  /** Migrating twice is migrating once. */
  lemma MigrateIdempotent(state: PersistedState)
    ensures Migrate(Migrate(state)) == Migrate(state)
  {
    var once := Migrate(state);
    var twice := Migrate(once);
    assert twice.mitEvents.value == once.mitEvents.value;
  }

  // ---------------------------------------------------------------------------
  // Fight selection in `loadFightMetadata`.

  /** A fight as the report lists it. */
  datatype ReportFight = ReportFight(id: int, startTime: real, endTime: real, name: string)

  const MissingApiKeyMsg: string := "未输入 API Key"
  const BadUrlMsg: string := "FFLogs URL 不合法"
  const FightNotFoundMsg: string := "报告中未找到该 Fight ID"
  const LoadFightFailedMsg: string := "加载战斗失败"

  /** The message `loadFightMetadata` stops with before any request: a missing
      API key first, then a URL without a report code. */
  function RequestError(apiKey: string, url: string): (r: Option<string>)
    ensures r.None? <==> apiKey != "" && FFLogsUrl.ParseFFLogsUrl(url).Some?
    ensures apiKey == "" ==> r == Some(MissingApiKeyMsg)
  {
    if apiKey == "" then Some(MissingApiKeyMsg)
    else
      match FFLogsUrl.ParseFFLogsUrl(url)
      case None => Some(BadUrlMsg)
      case Some(parsed) =>
        FFLogsUrl.ParsedFields(url);
        if parsed.reportCode == "" then Some(BadUrlMsg) else None
  }

  /** `(f) => f.id === n`. */
  function FightIdIs(n: real): ReportFight -> bool { (f: ReportFight) => f.id as real == n }

  /** The `Fight` record made from a listed fight. */
  function FightOf(f: ReportFight): (r: Fight)
    ensures r.durationMs == r.end - r.start
    ensures r.id == f.id && r.start == f.startTime && r.end == f.endTime && r.name == f.name
  {
    Fight(f.id, f.startTime, f.endTime, f.endTime - f.startTime, f.name)
  }

  /** The fight `loadFightMetadata` selects: the last one for `'last'`,
      otherwise the first whose id is `Number(fightId)` (`toNumber`, `None`
      for `NaN`); no such fight is an error. */
  function SelectFight(fights: seq<ReportFight>, fightId: string, toNumber: string -> Option<real>): (r: Result<Fight, string>)
    ensures r.Err? ==> r.error == FightNotFoundMsg
    ensures fightId == "last" ==> (r.Ok? <==> |fights| > 0)
    ensures fightId == "last" && |fights| > 0 ==> r == Ok(FightOf(fights[|fights| - 1]))
    ensures fightId != "last" ==>
      (r.Ok? <==> toNumber(fightId).Some? && exists i :: 0 <= i < |fights| && fights[i].id as real == toNumber(fightId).value)
    ensures fightId != "last" && r.Ok? ==>
      exists i :: 0 <= i < |fights| && FirstWith(fights, i, FightIdIs(toNumber(fightId).value)) && r.value == FightOf(fights[i])
    ensures r.Ok? ==> r.value.durationMs == r.value.end - r.value.start
  {
    if fightId == "last" then
      if |fights| == 0 then Err(FightNotFoundMsg) else Ok(FightOf(fights[|fights| - 1]))
    else
      match toNumber(fightId)
      case None => Err(FightNotFoundMsg)
      case Some(n) =>
        match Find(fights, FightIdIs(n))
        case None => Err(FightNotFoundMsg)
        case Some(f) => Ok(FightOf(f))
  }

  /** `rawMsg || '加载战斗失败'`. */
  function FailureMessage(raw: string): (m: string)
    ensures m != ""
    ensures raw != "" ==> m == raw
  {
    if raw == "" then LoadFightFailedMsg else raw
  }

  /** The banner options of an error banner: `{ tone: 'error' }`. */
  const ErrorBanner: Option<BannerOptions> := Some(BannerOptions(Some(Error), Undefined))

  /** What `loadFightMetadata` ends with, given the stored key and URL and
      the fetched report (its fights, or the message it failed with): the
      fight, or the message shown as `error`. */
  function FightOutcome(apiKey: string, url: string, report: Result<seq<ReportFight>, string>,
                        toNumber: string -> Option<real>): (r: Result<Fight, string>)
    ensures r.Err? ==> r.error != ""
    ensures RequestError(apiKey, url).Some? ==> r == Err(RequestError(apiKey, url).value)
    ensures RequestError(apiKey, url).None? && report.Err? ==> r == Err(FailureMessage(report.error))
    ensures r.Ok? ==> report.Ok? && exists i :: 0 <= i < |report.value| && FightOf(report.value[i]) == r.value
  {
    match RequestError(apiKey, url)
    case Some(msg) => Err(msg)
    case None => FetchedOutcome(url, report, toNumber)
  }

  /** What the fetch gives once the key and URL are accepted: the fetch's own
      failure, or the fight the URL names, with failures turned into their
      banner message. */
  function FetchedOutcome(url: string, report: Result<seq<ReportFight>, string>,
                          toNumber: string -> Option<real>): (r: Result<Fight, string>)
    requires FFLogsUrl.ParseFFLogsUrl(url).Some?
    ensures r.Err? ==> r.error != ""
    ensures report.Err? ==> r == Err(FailureMessage(report.error))
    ensures r.Ok? ==> report.Ok? && exists i :: 0 <= i < |report.value| && FightOf(report.value[i]) == r.value
  {
    var parsed := FFLogsUrl.ParseFFLogsUrl(url).value;
    match report
    case Err(m) => Err(FailureMessage(m))
    case Ok(fights) =>
      match SelectFight(fights, parsed.fightId, toNumber)
      case Err(m) => Err(FailureMessage(m))
      case Ok(f) => OkFightListed(fights, parsed.fightId, toNumber); Ok(f)
  }

  /** A selected fight is one of the report's fights. */
  lemma OkFightListed(fights: seq<ReportFight>, fightId: string, toNumber: string -> Option<real>)
    requires SelectFight(fights, fightId, toNumber).Ok?
    ensures exists i :: 0 <= i < |fights| && FightOf(fights[i]) == SelectFight(fights, fightId, toNumber).value
  {
    if fightId == "last" {
      assert FightOf(fights[|fights| - 1]) == SelectFight(fights, fightId, toNumber).value;
    } else {
      var f := Find(fights, FightIdIs(toNumber(fightId).value)).value;
      var i :| 0 <= i < |fights| && FirstWith(fights, i, FightIdIs(toNumber(fightId).value)) && fights[i] == f;
      assert FightOf(fights[i]) == SelectFight(fights, fightId, toNumber).value;
    }
  }

  /** With a valid key and URL and a fetched report, the outcome is the
      fight selection by the URL's fight id. */
  lemma FightOutcomeSelects(apiKey: string, url: string, fights: seq<ReportFight>, toNumber: string -> Option<real>)
    requires RequestError(apiKey, url).None?
    ensures FFLogsUrl.ParseFFLogsUrl(url).Some?
    ensures FightOutcome(apiKey, url, Ok(fights), toNumber)
         == SelectFight(fights, FFLogsUrl.ParseFFLogsUrl(url).value.fightId, toNumber)
  {
  }

  // ---------------------------------------------------------------------------
  // The store.

  /** The mitigation list is in start order and the banner queue is valid. */
  predicate StoreValid(mitEvents: seq<MitEvent>, banners: seq<BannerItem>, bannerSeq: int) {
    SortedBy(mitEvents, MitStart) && BannersValid(banners, bannerSeq)
  }

  /** The fields of the store, as one value. */
  datatype StoreState = StoreState(
    apiKey: string, fflogsUrl: string, fight: Option<Fight>, error: Option<string>, isLoading: bool,
    selectedMitIds: seq<string>, mitEvents: seq<MitEvent>, cooldownEvents: seq<CooldownEvent>,
    banners: seq<BannerItem>, bannerSeq: nat)

  /** `set({ isLoading: true, error: null })`, which `loadFightMetadata()`
      performs only once the key and the URL are accepted. */
  function RequestStarted(s: StoreState): StoreState {
    if RequestError(s.apiKey, s.fflogsUrl).None? then s.(isLoading := true, error := None) else s
  }

  /** The `set` calls that end `loadFightMetadata()`: a found fight is stored;
      a failure sets `error` and pushes an error banner. */
  function LoadFinished(s: StoreState, outcome: Result<Fight, string>): StoreState {
    match outcome
    case Ok(f) => s.(fight := Some(f), isLoading := false)
    case Err(m) =>
      s.(error := Some(m), isLoading := false,
         banners := Pushed(s.banners, s.bannerSeq + 1, m, ErrorBanner), bannerSeq := s.bannerSeq + 1)
  }

  /** What `loadFightMetadata()` does to the store, given the fetched report. */
  function Loaded(s: StoreState, report: Result<seq<ReportFight>, string>, toNumber: string -> Option<real>): StoreState {
    LoadFinished(RequestStarted(s), FightOutcome(s.apiKey, s.fflogsUrl, report, toNumber))
  }

  /** A load ends with the fight stored and `error` cleared, or with the
      failure's message as `error` and as a new error banner; it always ends
      with `isLoading` false and touches nothing else. */
  lemma LoadedState(s: StoreState, report: Result<seq<ReportFight>, string>, toNumber: string -> Option<real>)
    ensures match FightOutcome(s.apiKey, s.fflogsUrl, report, toNumber)
      case Ok(f) => Loaded(s, report, toNumber) == s.(fight := Some(f), error := None, isLoading := false)
      case Err(m) =>
        Loaded(s, report, toNumber)
        == s.(error := Some(m), isLoading := false,
              banners := Pushed(s.banners, s.bannerSeq + 1, m, ErrorBanner), bannerSeq := s.bannerSeq + 1)
  {
    var outcome := FightOutcome(s.apiKey, s.fflogsUrl, report, toNumber);
    var s1 := RequestStarted(s);
    if RequestError(s.apiKey, s.fflogsUrl).Some? {
      assert outcome.Err? && s1 == s;
    } else {
      assert s1 == s.(isLoading := true, error := None);
    }
    assert Loaded(s, report, toNumber) == LoadFinished(s1, outcome);
  }

  class AppStore {
    var apiKey: string
    var fflogsUrl: string
    var fight: Option<Fight>
    var error: Option<string>
    var isLoading: bool
    var selectedMitIds: seq<string>
    var mitEvents: seq<MitEvent>
    var cooldownEvents: seq<CooldownEvent>
    var banners: seq<BannerItem>
    /** The module-level `bannerSeq` counter. */
    var bannerSeq: nat

    /** All fields at once, so that a method can state its whole new state. */
    ghost function State(): StoreState
      reads this
    {
      StoreState(apiKey, fflogsUrl, fight, error, isLoading, selectedMitIds, mitEvents, cooldownEvents, banners, bannerSeq)
    }

    /** The mitigation list is in start order and the banner queue is valid. */
    ghost predicate Valid()
      reads this
    {
      StoreValid(mitEvents, banners, bannerSeq)
    }

    /** The initial state. */
    constructor()
      ensures Valid()
      ensures apiKey == "" && fflogsUrl == "" && fight == None && error == None && !isLoading
      ensures selectedMitIds == [] && mitEvents == [] && cooldownEvents == [] && banners == []
      ensures bannerSeq == 0
    {
      apiKey, fflogsUrl := "", "";
      fight, error, isLoading := None, None, false;
      selectedMitIds, mitEvents, cooldownEvents, banners := [], [], [], [];
      bannerSeq := 0;
    }

    method SetSelectedMitIds(ids: seq<string>)
      modifies this
      requires Valid()
      ensures Valid()
      ensures State() == old(State()).(selectedMitIds := ids)
    {
      selectedMitIds := ids;
    }

    /** `addMitEvent(event)`: the cooldowns are built from the list before it
        is sorted. */
    method AddMitEvent(event: MitEvent, build: seq<MitEvent> -> Option<seq<CooldownEvent>>)
      modifies this
      requires Valid()
      ensures Valid()
      ensures State() == old(State()).(mitEvents := WithAdded(old(mitEvents), event),
                                       cooldownEvents := CooldownsFor(build, old(mitEvents) + [event]))
    {
      var newMits := mitEvents + [event];
      cooldownEvents := CooldownsFor(build, newMits);
      mitEvents := SortBy(newMits, MitStart);
    }

    /** `updateMitEvent(id, updates)`. */
    method UpdateMitEvent(id: string, updates: MitPatch, build: seq<MitEvent> -> Option<seq<CooldownEvent>>)
      modifies this
      requires Valid()
      ensures Valid()
      ensures State() == old(State()).(mitEvents := WithUpdated(old(mitEvents), id, updates),
                                       cooldownEvents := CooldownsFor(build, Patched(old(mitEvents), id, updates)))
    {
      var newMits := Patched(mitEvents, id, updates);
      cooldownEvents := CooldownsFor(build, newMits);
      mitEvents := SortBy(newMits, MitStart);
    }

    /** `removeMitEvent(id)`: the filtered list is not re-sorted, and stays
        sorted. */
    method RemoveMitEvent(id: string, build: seq<MitEvent> -> Option<seq<CooldownEvent>>)
      modifies this
      requires Valid()
      ensures Valid()
      ensures State() == old(State()).(mitEvents := WithRemoved(old(mitEvents), id),
                                       cooldownEvents := CooldownsFor(build, WithRemoved(old(mitEvents), id)))
    {
      FilterSorted(mitEvents, IdIsNot(id), MitStart);
      mitEvents := WithRemoved(mitEvents, id);
      cooldownEvents := CooldownsFor(build, mitEvents);
    }

    /** `setMitEvents(events)`: the argument is a value and is not changed. */
    method SetMitEvents(events: seq<MitEvent>, build: seq<MitEvent> -> Option<seq<CooldownEvent>>)
      modifies this
      requires Valid()
      ensures Valid()
      ensures State() == old(State()).(mitEvents := SortedCopy(events), cooldownEvents := CooldownsFor(build, SortedCopy(events)))
    {
      var sortedEvents := SortBy(events, MitStart);
      cooldownEvents := CooldownsFor(build, sortedEvents);
      mitEvents := sortedEvents;
    }

    /** The queue part of `pushBanner(message, options)`: the returned id is
        one more than the last one handed out, so it is above every id in
        the queue. */
    method PushBanner(message: string, options: Option<BannerOptions>) returns (id: nat)
      modifies this
      requires Valid()
      ensures Valid()
      ensures id == old(bannerSeq) + 1
      ensures forall b :: b in old(banners) ==> b.id < id
      ensures State() == old(State()).(banners := Pushed(old(banners), id, message, options), bannerSeq := id)
    {
      var next;
      next, id := PushQueue(banners, bannerSeq, message, options);
      banners, bannerSeq := next, id;
    }

    /** The queue part of `closeBanner(id)`. */
    method CloseBanner(id: int, hasWindow: bool)
      modifies this
      requires Valid()
      ensures Valid()
      ensures State() == old(State()).(banners := Closed(old(banners), id, hasWindow))
    {
      ClosedValid(banners, bannerSeq, id, hasWindow);
      banners := Closed(banners, id, hasWindow);
    }

    /** The `set` calls that end `loadFightMetadata()`. */
    method FinishLoad(outcome: Result<Fight, string>)
      modifies this
      requires Valid()
      ensures Valid()
      ensures State() == LoadFinished(old(State()), outcome)
    {
      match outcome {
        case Ok(f) =>
          fight, isLoading := Some(f), false;
        case Err(msg) =>
          error, isLoading := Some(msg), false;
          var _ := PushBanner(msg, ErrorBanner);
      }
    }

    /** `loadFightMetadata()` with the fetched report given as `report`: a
        bad key or URL, a failed fetch and a missing fight each set `error`
        and push an error banner; a found fight is stored. */
    method LoadFightMetadata(report: Result<seq<ReportFight>, string>, toNumber: string -> Option<real>)
      modifies this
      requires Valid()
      ensures Valid()
      ensures State() == Loaded(old(State()), report, toNumber)
    {
      var outcome := FightOutcome(apiKey, fflogsUrl, report, toNumber);
      if RequestError(apiKey, fflogsUrl).None? {
        // the request starts
        isLoading, error := true, None;
      }
      FinishLoad(outcome);
    }
  }
}
