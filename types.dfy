/** The records of the editor (src/model/types.ts, src/model/banner.ts).
    JavaScript numbers standing for times, durations and amounts are `real`;
    identifiers are `int`; optional fields are `Option`. */
module Types {
  import opened Wrappers

  /** `sec * MS_PER_SEC`: seconds to milliseconds (1000 per second). */
  function SecToMs(sec: real): real { sec * 1000.0 }

  /** `ms / MS_PER_SEC`: milliseconds to seconds. */
  function MsToSec(ms: real): real { ms / 1000.0 }

  /** JavaScript truthiness of an optional number: present and not 0. */
  predicate Truthy(n: Option<int>) { n.Some? && n.value != 0 }

  datatype Job = PLD | WAR | DRK | GNB

  function JobName(j: Job): string {
    match j
    case PLD => "PLD"
    case WAR => "WAR"
    case DRK => "DRK"
    case GNB => "GNB"
  }

  /** `Skill['job']`: one job or every job ('ALL'). */
  datatype SkillJob = ForJob(job: Job) | AllJobs

  /** A skill definition. `stack` is the charge count; an absent or zero value
      means one charge. */
  datatype Skill = Skill(
    id: string,
    name: string,
    cooldownSec: real,
    durationSec: real,
    job: SkillJob,
    actionId: Option<int>,
    stack: Option<nat>,
    cooldownGroup: Option<string>)

  /** The `eventType` discriminator of a player event. */
  datatype PlayerEventType = MitType | CooldownType

  /** A placed mitigation use. `ownerId` / `ownerJob` are the optional owner
      fields the store and the importers read and write. */
  datatype MitEvent = MitEvent(
    eventType: PlayerEventType,
    id: string,
    skillId: string,
    tStartMs: real,
    durationMs: real,
    tEndMs: real,
    ownerId: Option<int>,
    ownerJob: Option<Job>)

  datatype CdType = CdCooldown | CdUnusable

  datatype CooldownEvent = CooldownEvent(
    eventType: PlayerEventType,
    cdType: CdType,
    mitId: string,
    skillGroupId: string,
    tStartMs: real,
    durationMs: real,
    tEndMs: real)

  /** `PlayerEvent = MitEvent | CooldownEvent`, one record or the other. */
  datatype PlayerEvent = Mit(mit: MitEvent) | Cooldown(cd: CooldownEvent)

  /** The `eventType` field of either kind of record. */
  function EventTypeOf(e: PlayerEvent): PlayerEventType {
    match e
    case Mit(m) => m.eventType
    case Cooldown(c) => c.eventType
  }

  function StartOf(e: PlayerEvent): real {
    match e
    case Mit(m) => m.tStartMs
    case Cooldown(c) => c.tStartMs
  }

  function EndOf(e: PlayerEvent): real {
    match e
    case Mit(m) => m.tEndMs
    case Cooldown(c) => c.tEndMs
  }

  function MitStart(e: MitEvent): real { e.tStartMs }

  datatype FFLogsAbility = FFLogsAbility(name: string, guid: int, abilityType: int)

  datatype DamageEvent = DamageEvent(
    timestamp: real,
    eventKind: string,
    sourceID: int,
    targetID: int,
    ability: FFLogsAbility,
    amount: real,
    unmitigatedAmount: real,
    packetID: Option<int>,
    tMs: real)

  function Timestamp(e: DamageEvent): real { e.timestamp }

  /** The two kinds of enemy cast FFLogs reports. */
  datatype CastKind = CastDone | BeginCast

  function CastKindName(k: CastKind): string {
    match k
    case CastDone => "cast"
    case BeginCast => "begincast"
  }

  datatype CastEvent = CastEvent(
    timestamp: real,
    eventKind: string,
    sourceID: int,
    targetID: int,
    ability: FFLogsAbility,
    duration: Option<real>,
    tMs: real,
    originalActionId: Option<int>,
    isBossEvent: Option<bool>,
    isFriendly: Option<bool>,
    originalType: Option<CastKind>,
    abilityIcon: Option<string>)

  function CastTime(e: CastEvent): real { e.tMs }

  datatype Fight = Fight(id: int, start: real, end: real, durationMs: real, name: string)

  datatype BannerTone = Info | Warning | Error

  /** A top banner; `durationMs == None` stands for `null` (no auto-dismiss). */
  datatype BannerItem = BannerItem(
    id: int,
    message: string,
    tone: BannerTone,
    closing: bool,
    durationMs: Option<real>)

  /** `number | null | undefined`, the type of `BannerOptions.durationMs`. */
  datatype NullableNumber = Undefined | Null | Number(value: real)

  datatype BannerOptions = BannerOptions(tone: Option<BannerTone>, durationMs: NullableNumber)
}
