# xiv-mit-composer: a verified model of the editor's core logic

xiv-mit-composer is a browser editor for planning damage mitigation in Final
Fantasy XIV fights. It imports a fight from an FFLogs report: boss casts,
damage taken, and the tank's own mitigation casts. The user drags
mitigation skills onto a timeline, and the plan can be exported as a
cactbot-style timeline text. This project models the deterministic core of
that editor in Dafny and proves properties of the model. The core covers:

- **the charge/cooldown replay** `simulateSkillStacks` (module `Cooldowns`).
  Uses of a skill are sorted and replayed against a charge counter that
  starts full. A single recovery timer refills one charge per cooldown.
  The replay records shadow zones, where no charge is left, and the uses
  that found no charge.
- **the conflict check** `adjustEvents` / `sanitizeEvents`, as written
  (module `PlayerCast`). Its callers are in the application shell (module
  `App`): the conflict check, the construction of a dropped mitigation, the
  all-or-nothing move of a multi-selection, and the list of events to
  export.
- **the FFLogs import transforms** (modules `MergeDamage`, `BuildMit`,
  `BuildCast`, `DamageByJob`):
  - merging of damage packets;
  - mitigation events from friendly casts;
  - boss cast events;
  - merged damage per job.
- **the timeline text writer** `FFLogsExporter.generateTimeline` (module
  `Exporter`), with the integer printing it relies on (module `Numerals`).
- **the timeline helpers** (modules `TimelineUtils`, `MitigationBar`):
  - colours;
  - label truncation;
  - gap-based clustering;
  - the visible window;
  - bar heights.
- **the store** (modules `Store`, `Banners`):
  - the sorted mitigation list and its updaters;
  - the bounded banner queue;
  - the migration of persisted state;
  - fight selection in `loadFightMetadata`.
- **the string builders** (modules `FFLogsUrl`, `Dnd`, `Icons`):
  - `parseFFLogsUrl`;
  - drop-zone ids;
  - icon paths.

Code that changes state step by step is modelled imperatively:
- loops become methods with `for`/`while` loops, proved against a
  specification function;
- the store is a class whose methods state its whole new state.

Pure code is modelled as functions, with lemmas about them. Shared
entities (`MitEvent`, `CooldownEvent`, `DamageEvent`, `CastEvent`, `Skill`,
`Fight`, `BannerItem`) are datatypes in module `Types`, taken from
src/model/types.ts and src/model/banner.ts. `Seqs` holds the generic
helpers:
- the stable sort that stands for `Array.prototype.sort` with a numeric
  comparator;
- filter, find and count.

`MS_PER_SEC` is taken to be 1000. src/constants/time.ts is not part of
this model.

The code has no engine that resolves cooldown availability or conflicts.
It holds only two things:
- `simulateSkillStacks` (src/utils/cooldowns.ts);
- an `adjustEvents` that always returns `undefined`
  (src/utils/playerCast.ts:3-46).

## Model

| member | source | states |
|---|---|---|
| Cooldowns.MaxStacks | src/utils/cooldowns.ts:13 | the charge capacity is the skill's stack count, and 1 when that count is absent or 0 |
| Cooldowns.Spend | src/utils/cooldowns.ts:50-71 | the second half of a loop iteration: spend a charge, opening a shadow zone when the last one goes, or list the use as invalid; its properties are those of `Cooldowns.StepZone`, `Cooldowns.DueRecoveryIsCredited` and `Cooldowns.EmptyWithoutDueRecoveryIsInvalid` |
| Cooldowns.Step | src/utils/cooldowns.ts:49-71 | one iteration of the `for` loop, the recovery then `Spend`; `Cooldowns.Replay` is proved to perform it per use, and `Cooldowns.StepZone` says when it opens a zone |
| Cooldowns.Run | src/utils/cooldowns.ts:49-72 | the replay specification: `Step` over the uses in order from full charges; its bounds are `Cooldowns.RunChargeInRange`, `RunAccounting`, `RunInvalidInOrder`, `RunZonesEndAfterStart`, `RunZonesStartAtUses` and `RunChargeLowerBound` |
| Cooldowns.Simulation | src/utils/cooldowns.ts:9-79 | the whole-simulation specification, `Run` on the uses sorted by start; `Cooldowns.SimulateSkillStacks` returns it and `Cooldowns.SimulationFacts` proves its facts |
| Cooldowns.RecoverLoop | src/utils/cooldowns.ts:36-46 | crediting recoveries never lowers the counter and, from below the maximum, never passes it; afterwards the timer is off or after `t`, unless nothing was due; a due recovery adds a charge |
| Cooldowns.Recover | src/utils/cooldowns.ts:26-47 | `processRecovery` keeps the counter within `0..maxStacks`; afterwards no recovery is due by `t`; a recovery due by `t` on a non-full counter adds a charge |
| Cooldowns.ProcessRecovery | src/utils/cooldowns.ts:26-47 | the closure's `while` loop yields exactly the counter and timer of the recovery specification |
| Cooldowns.Replay | src/utils/cooldowns.ts:49-72 | the `for` loop over the sorted uses yields exactly the shadow zones and invalid ids of the replay specification, with the counter within `0..maxStacks` as a loop invariant |
| Cooldowns.SimulateSkillStacks | src/utils/cooldowns.ts:9-79 | the result is the replay of a sorted copy; `isValid` iff no invalid ids; invalid ids are a subsequence of the sorted uses' ids; with a positive cooldown every zone ends after it starts; with no more uses than charges the result is valid |
| Cooldowns.SimulationFacts | src/utils/cooldowns.ts:17-78 | the same facts, proved about the specification of the whole simulation |
| Cooldowns.RunChargeInRange | src/utils/cooldowns.ts:31-53 | the charge counter stays in `[0, maxStacks]` after any number of uses |
| Cooldowns.RunAccounting | src/utils/cooldowns.ts:49-71 | every use either spends a charge or is listed as invalid, once; no more zones than spent charges |
| Cooldowns.RunInvalidInOrder | src/utils/cooldowns.ts:49-71 | the invalid ids are ids of the replayed uses, in replay order |
| Cooldowns.RunZonesEndAfterStart | src/utils/cooldowns.ts:55-66 | with a positive cooldown, each shadow zone ends strictly after its start |
| Cooldowns.StepZone | src/utils/cooldowns.ts:52-67 | a use that spends the last charge opens the zone from its start to the pending recovery; any other use opens none |
| Cooldowns.RunZonesStartAtUses | src/utils/cooldowns.ts:62-66 | every shadow zone starts at the start time of a replayed use |
| Cooldowns.RunChargeLowerBound | src/utils/cooldowns.ts:19-53 | after `k` uses at least `maxStacks - k` charges remain, so up to `maxStacks` uses are all valid |
| Cooldowns.FewUsesAllValid | src/utils/cooldowns.ts:19-71 | no more uses than charges means no invalid use |
| Cooldowns.DueRecoveryIsCredited | src/utils/cooldowns.ts:37-53 | a recovery due at or before a use's time, exactly at it included, is credited before the use, which then succeeds |
| Cooldowns.EmptyWithoutDueRecoveryIsInvalid | src/utils/cooldowns.ts:50-71 | a use that finds no charge and no recovery due is listed as invalid and opens no zone |
| Cooldowns.SimulationOfSorted | src/utils/cooldowns.ts:17 | uses already in time order are replayed as given; the caller's order does not matter beyond the sort |
| Cooldowns.FirstUseOfOneCharge | src/utils/cooldowns.ts:52-66 | the first use of a one-charge skill spends it, starts the timer one cooldown later and opens exactly that zone |
| Cooldowns.SingleUseOfOneChargeSkill | src/utils/cooldowns.ts:13-66 | a one-charge skill used once at `t0` is valid with the single zone `[t0, t0 + cooldownSec*1000]` |
| Cooldowns.SecondUseWithinCooldownIsInvalid | src/utils/cooldowns.ts:13-71 | a second use of a one-charge skill within the cooldown is the only invalid use |
| PlayerCast.SanitizeEvents | src/utils/playerCast.ts:38-46 | returns an empty list for every input |
| PlayerCast.KeptForAdjust | src/utils/playerCast.ts:9-17 | the filter's predicate: a 'mit' record is kept iff its `id` is adjusted, any other record iff its `mitId` is; `PlayerCast.AdjustEvents` applies it before the scan |
| PlayerCast.OuterScan | src/utils/playerCast.ts:20-35 | the scan specification of the outer loop; `PlayerCast.AdjustLoop` is proved equal to it, and `PlayerCast.OuterScanOnEmpty` states its result on an empty list |
| PlayerCast.InnerScan | src/utils/playerCast.ts:21-34 | an insertion happens only at an index of the scanned list, at or after the start index |
| PlayerCast.AdjustLoop | src/utils/playerCast.ts:20-35 | the nested loops, with `splice` and early returns, end as the scan specification says; on an empty list they complete without change |
| PlayerCast.AdjustEvents | src/utils/playerCast.ts:3-36 | returns `undefined` for every input |
| PlayerCast.InnerScanInsertAt | src/utils/playerCast.ts:21-31 | the loop inserts at `i` iff every record scanned before it is a non-'mit' record ending before the adjusted start, and record `i` is a non-'mit' record ending at or after the adjusted start and starting after the adjusted end |
| PlayerCast.InnerScanExhausted | src/utils/playerCast.ts:21-26 | the loop runs off the end iff every record from the start index is a non-'mit' record ending before the adjusted start |
| PlayerCast.InnerScanReturns | src/utils/playerCast.ts:22-33 | a 'mit' record, or a cooldown overlapping the adjusted span, met first makes the call return `undefined` |
| PlayerCast.OuterScanOnEmpty | src/utils/playerCast.ts:20-35 | with nothing to scan every adjusted event passes and the list stays empty |
| MergeDamage.Tagged | src/domain/fflogs/mergeDamageEvents.ts:24-27 | prefixing the ability name keeps the timestamp and packet id |
| MergeDamage.StandaloneOf | src/domain/fflogs/mergeDamageEvents.ts:22-31 | a standalone event keeps its timestamp and packet id |
| MergeDamage.GroupStep | src/domain/fflogs/mergeDamageEvents.ts:12-31 | one `forEach` iteration; `MergeDamage.GroupByPacket` is proved to perform it per event |
| MergeDamage.Group | src/domain/fflogs/mergeDamageEvents.ts:11-32 | the grouping specification; `MergeDamage.GroupKeys`, `GroupEntries`, `GroupStandalone` and `GroupWellFormed` state what it holds against `LastMatching` |
| MergeDamage.Combined | src/domain/fflogs/mergeDamageEvents.ts:34-55 | the events pushed from `dict.values()` in key order; `MergeDamage.CombineValues` is proved equal to it, and `CombinedShape`, `CombinedCount` and `PacketCombined` state its shape |
| MergeDamage.Combine | src/domain/fflogs/mergeDamageEvents.ts:37-54 | a packet entry yields at most one event |
| MergeDamage.CombineOne | src/domain/fflogs/mergeDamageEvents.ts:36-55 | an entry holding either half yields exactly one event |
| MergeDamage.RebaseAll | src/domain/fflogs/mergeDamageEvents.ts:4-7 | the final map keeps length and gives event `k` its `tMs = timestamp - fightStart` |
| MergeDamage.Merged | src/domain/fflogs/mergeDamageEvents.ts:3-62 | the output is sorted by timestamp and every event has `tMs = timestamp - fightStart` |
| MergeDamage.RebaseKeepsOrder | src/domain/fflogs/mergeDamageEvents.ts:57-61 | setting `tMs` keeps the timestamp order |
| MergeDamage.GroupByPacket | src/domain/fflogs/mergeDamageEvents.ts:11-32 | the `forEach` builds exactly the grouping of the specification |
| MergeDamage.CombineValues | src/domain/fflogs/mergeDamageEvents.ts:34-55 | the loop over the dictionary's values pushes the combined event of each key, in key order |
| MergeDamage.RebaseEach | src/domain/fflogs/mergeDamageEvents.ts:61 | the final map loop is the rebase of every event |
| MergeDamage.MergeDamageEvents | src/domain/fflogs/mergeDamageEvents.ts:3-62 | the method returns the merged list of the specification |
| MergeDamage.LastMatching | src/domain/fflogs/mergeDamageEvents.ts:17-21 | reference definition: the last report of a kind for a packet; none iff no report matches |
| MergeDamage.GroupKeys | src/domain/fflogs/mergeDamageEvents.ts:11-21 | the key list holds each dictionary key exactly once, and the dictionary keys are exactly the truthy packet ids of the input |
| MergeDamage.GroupEntries | src/domain/fflogs/mergeDamageEvents.ts:14-21 | a packet's entry holds the last calculated and the last damage report carrying that id; later reports overwrite earlier ones |
| MergeDamage.GroupStandalone | src/domain/fflogs/mergeDamageEvents.ts:22-31 | the standalone list holds only events without a truthy packet id, one per such input event |
| MergeDamage.GroupWellFormed | src/domain/fflogs/mergeDamageEvents.ts:11-32 | keys, entries and standalone list together, as above |
| MergeDamage.CombinedShape | src/domain/fflogs/mergeDamageEvents.ts:36-55 | one combined event per key, carrying that key as its packet id |
| MergeDamage.CombinedCount | src/domain/fflogs/mergeDamageEvents.ts:36-55 | with distinct keys, a packet id occurs once in the combined list if it is a key, otherwise never |
| MergeDamage.CombineCount | src/domain/fflogs/mergeDamageEvents.ts:37-54 | the one event of an entry carries the entry's packet id |
| MergeDamage.RebaseCount | src/domain/fflogs/mergeDamageEvents.ts:61 | rebasing keeps how often each packet id occurs |
| MergeDamage.EntriesAreTagged | src/domain/fflogs/mergeDamageEvents.ts:12-21 | every entry holds at least one half, and each half carries the entry's packet id |
| MergeDamage.MergedLength | src/domain/fflogs/mergeDamageEvents.ts:11-61 | output length is the standalone count plus the number of distinct truthy packet ids |
| MergeDamage.MergedOnePerPacket | src/domain/fflogs/mergeDamageEvents.ts:11-61 | every truthy packet id of the input occurs exactly once in the output, and no other does |
| MergeDamage.MergedPacketEvent | src/domain/fflogs/mergeDamageEvents.ts:36-61 | for a truthy packet id of the input, the last calculated and the last damage report with that id are not both missing, and their combination, rebased, is in the output |
| MergeDamage.PacketCombined | src/domain/fflogs/mergeDamageEvents.ts:36-55 | each packet's event is among the combined events |
| MergeDamage.InMerged | src/domain/fflogs/mergeDamageEvents.ts:57-61 | every grouped event is in the output, rebased |
| MergeDamage.MergedStandaloneEvent | src/domain/fflogs/mergeDamageEvents.ts:22-61 | an event without a truthy packet id is in the output in its standalone form, rebased |
| MergeDamage.StandaloneKept | src/domain/fflogs/mergeDamageEvents.ts:22-31 | every event without a truthy packet id is kept in the standalone list |
| BuildMit.BatchCasts | src/domain/fflogs/buildMitEvents.ts:22-23 | each cast of a batch is paired with that batch's owner |
| BuildMit.AllCasts | src/domain/fflogs/buildMitEvents.ts:22-23 | the casts in the order the nested loops visit them; `BuildMit.BuildMitEvents` is proved to collect from it |
| BuildMit.Collect | src/domain/fflogs/buildMitEvents.ts:22-42 | the events pushed, in push order: `BuildMit.CollectLength`, `CollectIds`, `CollectFromCasts`, `KnownCastCollected` and `CollectIdsDistinct` state its length, ids and provenance |
| BuildMit.MakeMit | src/domain/fflogs/buildMitEvents.ts:27-40 | a 'mit' event with `tStartMs = time*1000`, `durationMs = durationSec*1000`, `tEndMs = tStartMs + durationMs`; it carries the batch owner and the skill id resolved for that owner |
| BuildMit.CollectLength | src/domain/fflogs/buildMitEvents.ts:22-42 | one event per cast whose action id has a skill; the others are dropped |
| BuildMit.CollectIds | src/domain/fflogs/buildMitEvents.ts:32 | the k-th event created gets the k-th generated id |
| BuildMit.BuildMitEvents | src/domain/fflogs/buildMitEvents.ts:15-46 | the nested loops and the final sort give the sorted list of the events made from the known casts |
| BuildMit.CollectFromCasts | src/domain/fflogs/buildMitEvents.ts:22-42 | every pushed event was made from a cast with a known skill |
| BuildMit.BuildMitEventsShape | src/domain/fflogs/buildMitEvents.ts:22-44 | the result is sorted by start, has one event per known cast, and each event is made from one of the casts |
| BuildMit.KnownCastCollected | src/domain/fflogs/buildMitEvents.ts:22-42 | every cast with a known skill produces an event |
| BuildMit.CollectIdsDistinct | src/domain/fflogs/buildMitEvents.ts:32 | with an injective id source, no two events share an id |
| BuildCast.ToCast | src/domain/fflogs/buildCastEvents.ts:15-27 | `tMs = time*1000` and `timestamp = fightStart + tMs`; a boss event, not friendly, target 0; the action id is kept as guid and as `originalActionId`, the type as `originalType` |
| BuildCast.ToCasts | src/domain/fflogs/buildCastEvents.ts:15-27 | the map keeps length and turns cast `k` into event `k` |
| BuildCast.BuildCastEvents | src/domain/fflogs/buildCastEvents.ts:13-29 | the output is a permutation of the mapped casts, sorted by `tMs` |
| BuildCast.BuildCastEventsMembers | src/domain/fflogs/buildCastEvents.ts:14-28 | every cast yields its event, and every event comes from a cast |
| BuildCast.BuildCastEventsOfOrderedInput | src/domain/fflogs/buildCastEvents.ts:28 | casts already in time order come out in the same order |
| DamageByJob.BuildDamageEventsByJob | src/domain/fflogs/buildDamageEventsByJob.ts:4-13 | the `forEach` builds the record in which each batch overwrites its job's entry with its merged damage |
| DamageByJob.ByJob | src/domain/fflogs/buildDamageEventsByJob.ts:8-12 | the record the `forEach` builds; `DamageByJob.ByJobIsLastBatch` proves it equal to the merge of the last batch per job, `LastBatchFor` |
| DamageByJob.LastBatchFor | src/domain/fflogs/buildDamageEventsByJob.ts:9-11 | reference definition: the last batch for a job; none iff no batch is for it |
| DamageByJob.ByJobIsLastBatch | src/domain/fflogs/buildDamageEventsByJob.ts:8-12 | a job has an entry iff some batch is for it, and the entry is the merge of the last such batch |
| Exporter.LowerAscii | src/lib/fflogs/exporter.ts:38 | ASCII case folding of the `i` regular-expression flag, character by character |
| Exporter.RegexType | src/lib/fflogs/exporter.ts:48 | `StartsUsing` iff the type is 'begincast', `Ability` otherwise |
| Exporter.IsAttack | src/lib/fflogs/exporter.ts:38 | the auto-attack test: one of the two fixed names, or `attack` under ASCII case folding; used by `Exporter.UnruledEventLine` |
| Exporter.IgnoredWithoutRule | src/lib/fflogs/exporter.ts:41-44 | the guard of the bare comment line, kept as written (with its repeated `!rule`); `Exporter.UnruledEventLine` states its cases |
| Exporter.EventLine | src/lib/fflogs/exporter.ts:26-69 | the line pushed for one event; `Exporter.FriendlyEventLine`, `UnruledEventLine`, `RuledEventLine` and `BattleOnceFirstOnly` state its cases, and `Exporter.RenderLine` places it |
| Exporter.Join | src/lib/fflogs/exporter.ts:73 | `lines.join(sep)`; `Exporter.JoinLineBreaks` counts its breaks |
| Exporter.Render | src/lib/fflogs/exporter.ts:26-71 | exactly one line per input event |
| Exporter.GenerateTimeline | src/lib/fflogs/exporter.ts:22-74 | the loop with its `battleSyncedIds` set and `continue` branches yields the rendered lines joined with '\n' |
| Exporter.GenerateTimelineDefault | src/lib/fflogs/exporter.ts:22 | `enableTTS` defaults to false |
| Exporter.RenderSynced | src/lib/fflogs/exporter.ts:51-62 | an id ends in the synced set iff some boss event with that id has a `battleOnce` rule |
| Exporter.RenderLine | src/lib/fflogs/exporter.ts:26-71 | line `k` is the line of event `k` under the ids synced before it, so lines follow input order |
| Exporter.FriendlyEventLine | src/lib/fflogs/exporter.ts:27-33 | a friendly event is `time "<name>~"`, with ` tts "<tts>"` only when TTS is enabled |
| Exporter.UnruledEventLine | src/lib/fflogs/exporter.ts:36-69 | a boss event without a rule is `# time "name"` when it is an auto-attack or a 'cast', else `# <coreLine>` |
| Exporter.RuledEventLine | src/lib/fflogs/exporter.ts:51-65 | a boss event with a non-`battleOnce` rule is `<coreLine> window a,b`, plus ` once` when `syncOnce` is set |
| Exporter.BattleOnceFirstOnly | src/lib/fflogs/exporter.ts:55-65 | under a `battleOnce` rule only the first boss event with that id gets a sync line; later ones become `# time "name"` |
| Exporter.JoinLineBreaks | src/lib/fflogs/exporter.ts:73 | lines without breaks join into text with exactly `n - 1` line breaks |
| Numerals.NatToBase | src/lib/fflogs/exporter.ts:47 | digits of the base only, at least one, with no leading zero |
| Numerals.BaseRoundTrip | src/lib/fflogs/exporter.ts:47 | reading the printed digits gives back the number |
| Numerals.NatToBaseInjective | src/lib/fflogs/exporter.ts:47 | distinct numbers print differently |
| Numerals.IntToBase | src/lib/fflogs/exporter.ts:47 | a minus sign iff negative, then digits that read back as the magnitude |
| Numerals.IntToDecimal | src/data/icons.ts:6 | the decimal text of an id is non-empty |
| Numerals.IntToHexUpper | src/lib/fflogs/exporter.ts:47 | the hexadecimal text of an id is non-empty |
| Numerals.IntToBaseInjective | src/lib/fflogs/exporter.ts:47 | distinct integers print differently |
| Numerals.HexIsUpperCase | src/lib/fflogs/exporter.ts:47 | the hexadecimal id uses only `0-9` and upper-case `A-F`, apart from a leading minus |
| TimelineUtils.GetCastColor | src/components/Timeline/timelineUtils.ts:10-22 | '#60A5FA' iff the type is 'begincast', '#A78BFA' otherwise |
| TimelineUtils.GetDamageColor | src/components/Timeline/timelineUtils.ts:15-25 | '#34D399' iff mitigated, '#F87171' iff not |
| TimelineUtils.Clamp | src/components/Timeline/timelineUtils.ts:30 | the `substring` bound never exceeds the length, and a bound within `[0, length]` is kept |
| TimelineUtils.TruncateText | src/components/Timeline/timelineUtils.ts:27-31 | empty gives ''; text within the limit is unchanged; longer text is its first `max` characters plus '...', so at most `max + 3` long |
| TimelineUtils.PushCluster | src/components/Timeline/timelineUtils.ts:49-60 | closing a good, separated cluster keeps the cluster list good and separated and appends its events |
| TimelineUtils.ExtendCluster | src/components/Timeline/timelineUtils.ts:45-47 | an event closer than `gap` to the open cluster's end extends it, keeping the loop state good |
| TimelineUtils.CloseCluster | src/components/Timeline/timelineUtils.ts:48-56 | an event `gap` or more below closes the open cluster and opens a new one, keeping the loop state good |
| TimelineUtils.ScanEvents | src/components/Timeline/timelineUtils.ts:37-58 | the loop keeps the closed clusters plus the open one equal to the events seen so far, all well formed and separated |
| TimelineUtils.ClusterEvents | src/components/Timeline/timelineUtils.ts:33-62 | empty input gives no clusters; concatenating the clusters gives the input back; every cluster is non-empty, with steps below `gap` inside, `startY`/`endY` its first and last positions; consecutive clusters are at least `gap` apart |
| TimelineUtils.GetVisibleClusters | src/components/Timeline/timelineUtils.ts:64-76 | the clusters hold exactly the events filtered to the buffered window, in order, clustered as above |
| TimelineUtils.VisibleWindow | src/components/Timeline/timelineUtils.ts:70-74 | the filter keeps exactly the events with `tMs` in `[start - 2000, end + 2000]` |
| MitigationBar.GetMitigationBarHeights | src/components/Timeline/mitigationBarUtils.ts:12-22 | `effectHeight = durationMs/1000*zoom`; `cooldownHeight = cooldownSec*zoom`, which is 0 without a skill; `totalHeight = 40 + effect + cooldown` |
| MitigationBar.HeightsNonNegative | src/components/Timeline/mitigationBarUtils.ts:17-20 | with non-negative inputs every height is non-negative and the total is at least 40 |
| MitigationBar.HeightsScaleWithZoom | src/components/Timeline/mitigationBarUtils.ts:17-19 | effect and cooldown heights scale linearly with zoom |
| Icons.GetSkillIconLocalSrc | src/data/icons.ts:5-6 | '' iff the action id is missing or 0 |
| Icons.JobIconLocalSrc | src/data/icons.ts:8-13 | `JOB_ICON_LOCAL_SRC[job]`; `Icons.JobIconUnderBase` and `Icons.JobIconInjective` state that it lies under `xiv-icons/jobs/`, ends in `.png` and differs per job |
| Icons.SkillIconUnderBase | src/data/icons.ts:3-6 | every non-empty skill icon path begins with `xiv-icons/` |
| Icons.JobIconUnderBase | src/data/icons.ts:8-13 | every job icon path lies under `xiv-icons/jobs/` and ends in `.png` |
| Icons.SkillIconInjective | src/data/icons.ts:5-6 | different non-zero action ids get different icon paths |
| Icons.JobIconInjective | src/data/icons.ts:8-13 | each job has its own icon path |
| Dnd.BuildDropZoneId | src/dnd/types.ts:13-17 | the trash gives 'trash'; a lane's id starts with 'mit-lane:' |
| Dnd.IdIgnoresScale | src/dnd/types.ts:15-16 | lanes differing only in `msPerPx` share an id |
| Dnd.LaneIsNotTrash | src/dnd/types.ts:14-16 | a lane id never equals the trash id |
| Dnd.LaneIdInjective | src/dnd/types.ts:16 | when timeline ids hold no ':', equal lane ids mean the same timeline and lane |
| FFLogsUrl.TrimStart | src/utils.ts:33 | the result does not begin with white space |
| FFLogsUrl.TrimEnd | src/utils.ts:33 | the result does not end with white space |
| FFLogsUrl.Trim | src/utils.ts:33 | the result neither begins nor ends with white space |
| FFLogsUrl.RunEnd | src/utils.ts:36 | a greedy character-class run: every character inside matches, the one after does not |
| FFLogsUrl.FightIdAfter | src/utils.ts:36-44 | the fight id is 'last' unless a `?` directly follows the code and a `fight=` followed by a fight character occurs later on the line; otherwise it is the whole run of characters other than `&` and white space after the last such `fight=` on the line |
| FFLogsUrl.FindFrom | src/utils.ts:36-41 | a found match begins at or after the start, at the marker followed by a letter or digit, and ends within the text |
| FFLogsUrl.MatchAt | src/utils.ts:36-44 | the groups of the match at a marker; `FFLogsUrl.MatchAtCode`, `MatchAtFightGroup` and `MatchAtFields` state its report code and fight id |
| FFLogsUrl.ParseFFLogsUrl | src/utils.ts:30-50 | `parseFFLogsUrl`; `FFLogsUrl.ParseNullIff`, `ParsedFields`, `CanonicalUrl` and `ParseIgnoresSurroundingSpace` state when it is null, what it returns, and that it ignores surrounding white space |
| FFLogsUrl.SearchLines | src/utils.ts:36-41 | the search of a regular expression without the `s` flag, line by line: a found position qualifies, lies at or after the start and before the returned line end |
| FFLogsUrl.SearchLinesNone | src/utils.ts:36-41 | the line-by-line search finds nothing iff no position from the start on qualifies, for any predicate that never holds on a line terminator |
| FFLogsUrl.SearchLinesFirstLine | src/utils.ts:36-41 | a found position is the last qualifying one on its line, the line's end is the returned end, and no earlier qualifying position from the start on lies on another line |
| FFLogsUrl.FindFromNone | src/utils.ts:36-41 | no match iff the marker followed by a letter or digit occurs nowhere from the start on |
| FFLogsUrl.FindFromFirstLine | src/utils.ts:36-41 | the match is the last marker on the first line from the start that holds one, and its end is that line's end |
| FFLogsUrl.ParseNullIff | src/utils.ts:33-41 | null iff the trimmed input holds no `fflogs.com/reports/` followed by a letter or digit |
| FFLogsUrl.MatchAtFields | src/utils.ts:36-44 | the match's report code is the whole alphanumeric run after the marker; its fight id is well formed and is the fight group of the line after that code |
| FFLogsUrl.ParsedFields | src/utils.ts:30-46 | a parsed report code is the maximal `[a-zA-Z0-9]` run after the marker that the line-by-line search picks in the trimmed input; the fight id is the fight group after that code on that line: 'last' without a `?` straight after the code or without a later `fight=`, else the run after the last `fight=` |
| FFLogsUrl.CanonicalUrl | src/utils.ts:30-46 | `https://www.fflogs.com/reports/<code>?fight=<id>` parses to that code and id, for an alphanumeric code and a fight id without `&`, white space, `.` or `=` |
| FFLogsUrl.TrimStartSkipsSpace | src/utils.ts:33 | leading white space does not change the left-trimmed text |
| FFLogsUrl.TrimStartAppend | src/utils.ts:33 | trailing white space survives left trimming only after a non-space character |
| FFLogsUrl.TrimEndSkipsSpace | src/utils.ts:33 | trailing white space does not change the right-trimmed text |
| FFLogsUrl.ParseIgnoresSurroundingSpace | src/utils.ts:30-50 | white space around the input does not change the result |
| Banners.DurationOf | src/store/index.ts:248 | the given number, else 3000, for both `undefined` and `null` |
| Banners.ToneOf | src/store/index.ts:256 | `options?.tone ?? 'info'` |
| Banners.NewBanner | src/store/index.ts:253-259 | the banner `pushBanner` appends: not closing, with `ToneOf` and `DurationOf`; `Banners.PushedKeepsNew` says where it ends up |
| Banners.FirstTimed | src/store/index.ts:263 | the first index whose duration is not null, and -1 iff there is none |
| Banners.RemoveAt | src/store/index.ts:269 | removes exactly the element at the index and keeps the rest in order |
| Banners.Pushed | src/store/index.ts:250-273 | the queue grows by one up to 4 banners and then keeps its length |
| Banners.Closed | src/store/index.ts:298-308 | with a `window` the queue keeps its length |
| Banners.RemoveAtKeepsIds | src/store/index.ts:262-270 | eviction keeps the ids increasing and in range |
| Banners.PushedValid | src/store/index.ts:246-273 | after a push the queue holds at most 4 banners with increasing ids; the new id is above every earlier one |
| Banners.PushQueue | src/store/index.ts:246-273 | `++bannerSeq` and the append: the returned id is one past the counter and above every id in the queue, and the queue stays valid |
| Banners.SnocKeepsIds | src/store/index.ts:251-260 | appending the next id keeps the ids increasing |
| Banners.PushedDropsOldest | src/store/index.ts:262-270 | when every queued banner has a duration, as all pushed ones do, a full queue evicts its oldest banner |
| Banners.PushedKeepsNew | src/store/index.ts:251-272 | the new banner ends the queue, unless the queue is full of banners without a duration, in which case the new one itself is evicted |
| Banners.ClosedMarksOnlyId | src/store/index.ts:298-302 | with a `window`, exactly the banners with that id become closing; no other field of any banner changes |
| Banners.PrefixKeepsIds | src/store/index.ts:305-307 | dropping the last banner keeps the ids increasing, in range and below that banner's id |
| Banners.AppendKeepsIds | src/store/index.ts:305-307 | appending a banner with a larger id keeps the ids increasing and in range |
| Banners.FilterKeepsIds | src/store/index.ts:305-307 | filtering the queue keeps the ids increasing and in range |
| Banners.ClosedValid | src/store/index.ts:296-318 | closing keeps the queue valid; without a `window` the banner is gone |
| Store.MovePatch | src/App.tsx:172-175 | the patch `{ tStartMs, tEndMs }` changes exactly those two fields |
| Store.ApplyPatch | src/store/index.ts:488 | `{ ...e, ...updates }`; `Store.MovePatch`, `Store.UpdateTouchesOnlyId` and `Store.UpdateKeepsOthers` state what it changes |
| Store.CooldownsFor | src/store/index.ts:476 | `tryBuildCooldowns(list) ?? []`; the store methods state which list it is built from |
| Store.WithAdded | src/store/index.ts:473-484 | the new list is the old list plus the event (as multisets), sorted by start |
| Store.Patched | src/store/index.ts:488 | the `map` keeps length |
| Store.WithUpdated | src/store/index.ts:486-497 | the updated list keeps length and is sorted by start |
| Store.WithRemoved | src/store/index.ts:499-508 | no event with that id remains |
| Store.SortedCopy | src/store/index.ts:511 | a sorted permutation of the argument |
| Store.UpdateTouchesOnlyId | src/store/index.ts:488-491 | every event with another id is kept; every new event is a patched event with that id |
| Store.UpdateKeepsOthers | src/store/index.ts:488-491 | with an id-preserving patch, the other events keep their multiset and the count of that id is unchanged |
| Store.PatchedOthers | src/store/index.ts:488 | before sorting, the events with other ids are exactly as they were, in order |
| Store.PatchedCount | src/store/index.ts:488 | an id-preserving patch keeps the number of events with that id |
| Store.RemoveExactly | src/store/index.ts:501 | removes exactly the events with that id, keeps every other as often as before and in order, and keeps a sorted list sorted |
| Store.SortedCopyOfSorted | src/store/index.ts:511 | storing an already sorted list stores it unchanged |
| Store.Migrate | src/store/index.ts:519-538 | only the mitigation list changes; a missing list becomes `[]`; a present list keeps its length |
| Store.MigrateEvent | src/store/index.ts:525-532 | one event through the migration; `Store.MigrateEventCases`, `MigrateGivesOwners` and `MigrateIdempotent` state its cases |
| Store.MigrateEventCases | src/store/index.ts:525-532 | an owned event is unchanged; an ownerless one gets the fallback player and job and differs in nothing else |
| Store.MigrateGivesOwners | src/store/index.ts:521-532 | with a fallback job or non-zero player, every migrated event has an owner |
| Store.MigrateIdempotent | src/store/index.ts:519-538 | migrating twice is migrating once |
| Store.RequestError | src/store/index.ts:322-333 | the request starts iff an API key is set and the URL parses; a missing key is reported first |
| Store.FightOf | src/store/index.ts:354-360 | the fight keeps id, start, end and name, and `durationMs = end - start` |
| Store.SelectFight | src/store/index.ts:341-352 | 'last' picks the last fight and fails only on an empty report; any other id picks the first fight with `id == Number(fightId)`; no match fails with the not-found message |
| Store.FailureMessage | src/store/index.ts:384-385 | the message is never empty and is the raw message when that one is not empty |
| Store.FightOutcome | src/store/index.ts:320-388 | a rejected key or URL gives its message; a failed fetch gives its message; a found fight is one of the report's fights |
| Store.FetchedOutcome | src/store/index.ts:336-388 | after the request starts, a failed fetch gives its message and a found fight is one of the report's fights |
| Store.OkFightListed | src/store/index.ts:341-352 | a selected fight is one of the report's fights |
| Store.FightOutcomeSelects | src/store/index.ts:341-360 | with an accepted key and URL and a fetched report, the outcome is the fight selected by the URL's fight id |
| Store.LoadedState | src/store/index.ts:320-389 | a load stores the fight and clears `error`, or sets `error` to the failure and pushes one error banner; `isLoading` ends false and nothing else changes |
| Store.AppStore.constructor | src/store/index.ts:222-238 | every field the class holds starts at the source's initial value: empty key, URL and lists, no fight, no error, not loading |
| Store.AppStore.SetSelectedMitIds | src/store/index.ts:244 | only the selection changes |
| Store.AppStore.AddMitEvent | src/store/index.ts:473-484 | the list becomes the sorted list with the event added; cooldowns are built from the unsorted list; nothing else changes and the store stays valid |
| Store.AppStore.UpdateMitEvent | src/store/index.ts:486-497 | the list becomes the patched list re-sorted; cooldowns are built before the sort; nothing else changes |
| Store.AppStore.RemoveMitEvent | src/store/index.ts:499-508 | the list becomes the filtered list, not re-sorted yet still sorted; nothing else changes |
| Store.AppStore.SetMitEvents | src/store/index.ts:510-514 | the list becomes a sorted copy of the argument; nothing else changes |
| Store.AppStore.PushBanner | src/store/index.ts:246-295 | the returned id is one past the counter and above every queued id; the queue becomes the pushed queue; nothing else changes |
| Store.AppStore.CloseBanner | src/store/index.ts:296-318 | the queue becomes the closed queue and stays valid; nothing else changes |
| Store.AppStore.FinishLoad | src/store/index.ts:380-388 | the final `set` calls of a load: the fight is stored, or the error is set and an error banner pushed |
| Store.AppStore.LoadFightMetadata | src/store/index.ts:320-389 | the store ends in the loaded state of the specification, whose effects `LoadedState` spells out; the store stays valid |
| App.BuildMitEventFromSkill | src/App.tsx:145-161 | null iff the table has no skill with that id; otherwise a 'mit' event with the given id, `tEndMs = tStartMs + durationMs`, and the first matching skill's duration times 1000 |
| App.CheckConflictWithAdjust | src/App.tsx:163-167 | always reports a conflict, since `adjustEvents` always returns `undefined` |
| App.Shifted | src/App.tsx:190-194 | the moved event starts at the new start, ends one duration later and is otherwise unchanged |
| App.MoveSelection | src/App.tsx:183-196 | the selection loop's specification; `App.MoveSelected` is proved equal to it, `App.MoveRejectedIff` says when it rejects, and `App.MovedAreSelected` and `App.MovedShape` say what it moves |
| App.MoveRejectedIff | src/App.tsx:185-189 | the multi-select move is rejected iff some selected event found in the list would start before 0 |
| App.MovedShape | src/App.tsx:184-195 | an accepted move has one event per selected id found, in selection order: the `i`-th is the event of the `i`-th found id, shifted by the delta, starting at or after 0 and keeping its duration |
| App.MovedAreSelected | src/App.tsx:184-195 | the `i`-th moved event is the list event of the `i`-th selected id found in the list, shifted by the delta; ids not found are skipped |
| App.MovedBounds | src/App.tsx:184-195 | the number of moved events is the number of selected ids found; each is a list event shifted by the delta, at or after 0 |
| App.MoveSelected | src/App.tsx:183-196 | the selection loop, with its early return, gives the move outcome of the specification |
| App.ClampedMove | src/App.tsx:203-208 | a single unselected move clamps its start to 0 or more, keeps its duration and changes nothing else |
| App.HandleExistingMitMove | src/App.tsx:179-215 | nothing is handed to `applyMovedEvents`: every move, selected or not, is rejected by the conflict check |
| App.HandleNewSkillDrop | src/App.tsx:231-238 | nothing is added: an unknown skill yields nothing and the conflict check rejects every drop |
| App.ApplyMoves | src/App.tsx:169-177 | applying moves keeps the list length, and the list is sorted after any move |
| App.StateAfterMoves | src/App.tsx:169-177 | the store state after each move is passed to `updateMitEvent` in turn; `App.MovesTouchOnlyTheList` states what it changes, and `App.ApplyMovedEvents` ends in it |
| App.MovesTouchOnlyTheList | src/App.tsx:169-177 | the moves change only the event list and the cooldowns: the list is the moves applied one by one, the cooldowns are rebuilt from the list the last move patched, every other field is unchanged, and no moves leave the state as it was |
| App.ApplyMovedEvents | src/App.tsx:169-177 | the store's whole new state is the state after the moves one by one: the list with the moves applied, cooldowns rebuilt from the last patched list, every other field unchanged; the store stays valid |
| App.ApplyNoMoves | src/App.tsx:197-199 | an empty move list leaves the list as it is, so a rejected batch changes nothing |
| App.CastToExport | src/App.tsx:81-88 | the exported cast's time is in seconds, rounded; its id is `originalActionId` when truthy, else the guid; its type is `originalType` when present; friendly only when flagged |
| App.MitToExport | src/App.tsx:89-99 | a placed mitigation as an exported friendly 'cast'; `App.UnknownSkillExport` and `App.KnownSkillExport` state its name and action id |
| App.CastsToExport | src/App.tsx:81-88 | one exported event per cast |
| App.MitsToExport | src/App.tsx:89-99 | one exported event per mitigation |
| App.EventsToExport | src/App.tsx:78-101 | the casts' and mitigations' exported events, as a permutation, sorted by time |
| App.UnknownSkillExport | src/App.tsx:89-99 | a mitigation of an unknown skill exports as a friendly 'Unknown' cast with action id 0 |
| App.KnownSkillExport | src/App.tsx:89-99 | a mitigation of a known skill exports under the first matching skill's name and action id |
| App.CastsListed | src/App.tsx:81-88 | every cast is exported, and every exported cast comes from a cast |
| App.MitsListed | src/App.tsx:89-99 | every mitigation is exported, and every exported mitigation comes from one |
| App.ExportMembers | src/App.tsx:78-101 | every cast and mitigation is in the export list, and nothing else is |
| App.ExportTimeline | src/App.tsx:103-108 | the exported text is the timeline rendered from the export list |
| Seqs.SortBy | src/utils/cooldowns.ts:17 | the sort yields a sorted permutation of a copy of its input |
| Seqs.SortBySortedIsIdentity | src/store/index.ts:511 | sorting a sorted list leaves it unchanged |
| Seqs.Filter | src/store/index.ts:501 | the filtered list holds exactly the elements satisfying the predicate |
| Seqs.FilterSorted | src/store/index.ts:501 | filtering keeps a sorted list sorted |
| Seqs.FilterMultiset | src/store/index.ts:501 | filtering keeps every satisfying element exactly as often as before and drops all others |
| Seqs.Find | src/store/index.ts:347 | `Array.prototype.find`: none iff no element satisfies the predicate, otherwise the first element that does |

## Left out

- Asynchronous and browser work is not modelled, for these reasons:
  - The network fetches (`FFLogsClient`, `loadEventsCore`, `loadEvents`, `loadEventsForPlayers`) and the request sequence and AbortController guards are I/O and concurrency. `loadFightMetadata` is modelled with the fetched report as a parameter, as if no newer request superseded it.
  - The `window.setTimeout` timers of `pushBanner` and `closeBanner`, with `BANNER_CLOSE_MS` and the timer map, are clocks. `Closed` models the mark and the immediate removal when no `window` exists; the delayed removal is not modelled.
  - zustand `persist` storage is I/O. Only its `migrate` function is modelled.
  - React rendering, dnd-kit, DOM measurement (`getDropStartMs`, `pixelsToMs`) and `localStorage` are UI. The drag delta and the drop time are parameters.
- The actor and boss lists that `loadFightMetadata` filters from the report are omitted because they feed only the rendering layer. Only the fight selection is modelled.
- Foreign or unshown code becomes parameters:
  - `getFactoryRule` → `rule`;
  - the `SKILLS` table → `skills` or `getSkillByActionId`;
  - `withOwnerSkillId` → `resolveSkillId`;
  - `tryBuildCooldowns` → `build`;
  - `crypto.randomUUID` → `uuid` or `id`;
  - `Number(fightId)` → `toNumber`.

  `canInsertMitigation` and `tryBuildCooldowns` are imported from src/utils/playerCast.ts but are not defined in the source of this model.
- Floating point is not modelled:
  - JavaScript numbers that are times or heights are `real`, with no rounding;
  - the number-to-text conversion in the exporter is the parameter `showNum`;
  - `Number(x.toFixed(TIME_DECIMAL_PLACES))` is the parameter `roundTime`;
  - `MS_PER_SEC` is 1000.

  Only integral ids are printed by the model itself (decimal for icon paths, upper-case hexadecimal for sync ids).
- Strings are `seq<char>`, whose elements are Unicode scalar values, not JavaScript's UTF-16 code units. Outside the Basic Multilingual Plane, lengths and the positions where `substring`, `trim` and the regular expressions cut differ from JavaScript. This affects `TimelineUtils.TruncateText`, `TimelineUtils.Clamp`, `FFLogsUrl.RunEnd`, `FFLogsUrl.FindFrom` and `FFLogsUrl.Trim`. Splitting a surrogate pair is not modelled. The `i` flag of the auto-attack regular expression is modelled as ASCII case folding only.
- `parseFFLogsUrl`'s `try`/`catch` is not modelled, because the model cannot throw. `FFLogsUrl.ParseFFLogsUrl` is total, so every input gives a value.
- Handlers stop before the store:
  - `App.HandleExistingMitMove` returns the list it would hand to `applyMovedEvents`;
  - `App.HandleNewSkillDrop` returns the event it would add.

  Both are proved empty. `applyMovedEvents` itself is modelled on the store as `App.ApplyMovedEvents`.
- Cooldowns.SimulateSkillStacks: a skill's `stack` is a natural number or absent. Negative or fractional stack counts are not modelled.
- Seqs.SortBy: the sort is stable by construction, but stability is not stated as a contract.
- Store.WithUpdated: a patch that changes an event's `id` is allowed. The lemmas about other events keeping their multiset (`Store.UpdateKeepsOthers`) assume the patch keeps the id, as every caller in the source does.
- Exporter.GenerateTimeline: `tts` is never set by the caller, so with TTS enabled friendly lines end in `tts "undefined"`. This is modelled as written.
- Banners.DurationOf: `??` turns an explicit `null` duration into 3000, so `pushBanner` never creates a banner without a duration. This is modelled as written.
- Types.MitEvent: the required `stackAfterUse` field (src/model/types.ts:41) is left out, because no code in the source reads it, and `buildMitEventFromSkill` (src/App.tsx:153-160) builds events without it.
- Store.AppStore: the fields `selectedJob` (initially `'GNB'`), `selectedPlayerId`, `damageEvents`, `damageEventsByJob`, `castEvents` and `isRendering` (src/store/index.ts:222-238) are left out. The record of damage by job is built as a value by `DamageByJob.BuildDamageEventsByJob`. Their setters are plain assignments, or they feed only the loaders and the rendering layer listed above. The actor and boss lists are covered above.
- Timeline.tsx holds copies of `truncateText` and `clusterEvents`. They are not modelled separately.
