/** The charge/cooldown replay of src/utils/cooldowns.ts (`simulateSkillStacks`).
    Uses are sorted by start time and replayed against a charge counter that
    starts full; a single recovery timer refills one charge per cooldown period. */
module Cooldowns {
  import opened Wrappers
  import opened Types
  import opened Seqs

  /** One scheduled use of the skill: `{ id, tStartMs }`. */
  datatype Use = Use(id: string, tStartMs: real)

  function UseTime(u: Use): real { u.tStartMs }

  function UseId(u: Use): string { u.id }

  function Ids(us: seq<Use>): (r: seq<string>)
    ensures |r| == |us|
    decreases |us|
  {
    if us == [] then [] else Ids(us[..|us| - 1]) + [us[|us| - 1].id]
  }

  /** A stretch of time in which the skill has no charge left. */
  datatype Zone = Zone(start: real, end: real)

  datatype StackSimulationResult = StackSimulationResult(
    isValid: bool,
    shadowZones: seq<Zone>,
    invalidEvents: seq<string>)

  /** The sentinel the source stores in `nextRecoverTime` when no recovery is
      pending. */
  const NoTimer: real := -1.0

  /** `skill.stack || 1`. */
  function MaxStacks(skill: Skill): (m: nat)
    ensures m >= 1
    ensures skill.stack.None? || skill.stack == Some(0) ==> m == 1
    ensures skill.stack.Some? && skill.stack.value > 0 ==> m == skill.stack.value
  {
    if skill.stack.Some? && skill.stack.value != 0 then skill.stack.value else 1
  }

  /** The charge counter and the time of the pending recovery. */
  datatype Charge = Charge(stacks: int, next: real)

  /** The `while` loop of `processRecovery`: credits every recovery due at or
      before `t`, stopping the timer once the counter is full. */
  function RecoverLoop(c: Charge, maxStacks: nat, cooldownMs: real, t: real): (r: Charge)
    ensures c.stacks <= r.stacks
    ensures c.stacks < maxStacks ==> r.stacks <= maxStacks
    ensures r.next == NoTimer || r.next > t || (r == c && c.next > t)
    ensures c.next != NoTimer && c.next <= t ==> r.stacks > c.stacks
    decreases maxStacks - c.stacks
  {
    if c.next != NoTimer && c.next <= t then
      if c.stacks + 1 >= maxStacks then Charge(c.stacks + 1, NoTimer)
      else RecoverLoop(Charge(c.stacks + 1, c.next + cooldownMs), maxStacks, cooldownMs, t)
    else c
  }

  /** `processRecovery(t)`. */
  function Recover(c: Charge, maxStacks: nat, cooldownMs: real, t: real): (r: Charge)
    ensures 0 <= c.stacks <= maxStacks ==> c.stacks <= r.stacks <= maxStacks
    ensures r.next == NoTimer || r.next > t
    ensures c.next != NoTimer && c.next <= t && c.stacks < maxStacks ==> r.stacks > c.stacks
    ensures r.stacks == c.stacks ==> r.next == c.next || r.next == NoTimer
  {
    if c.next == NoTimer then c
    else if c.stacks >= maxStacks then Charge(c.stacks, NoTimer)
    else RecoverLoop(c, maxStacks, cooldownMs, t)
  }

  /** What the replay has produced so far; `consumed` counts the uses that
      found a charge. */
  datatype Acc = Acc(charge: Charge, zones: seq<Zone>, invalid: seq<string>, consumed: nat)

  /** One iteration of the `for` loop: recover up to the use's time, then
      spend a charge (opening a shadow zone when the last one goes) or record
      the use as invalid. */
  function Step(a: Acc, u: Use, maxStacks: nat, cooldownMs: real): Acc {
    Spend(a, Recover(a.charge, maxStacks, cooldownMs, u.tStartMs), u, cooldownMs)
  }

  /** The part of a loop iteration after the recovery has produced `c`. */
  function Spend(a: Acc, c: Charge, u: Use, cooldownMs: real): Acc {
    if c.stacks > 0 then
      var s := c.stacks - 1;
      var next := if c.next == NoTimer then u.tStartMs + cooldownMs else c.next;
      Acc(Charge(s, next),
          if s == 0 then a.zones + [Zone(u.tStartMs, next)] else a.zones,
          a.invalid,
          a.consumed + 1)
    else
      Acc(c, a.zones, a.invalid + [u.id], a.consumed)
  }

  function Initial(maxStacks: nat): Acc {
    Acc(Charge(maxStacks, NoTimer), [], [], 0)
  }

  /** The replay of `uses` in the given order. */
  function Run(uses: seq<Use>, maxStacks: nat, cooldownMs: real): Acc
    decreases |uses|
  {
    if uses == [] then Initial(maxStacks)
    else Step(Run(uses[..|uses| - 1], maxStacks, cooldownMs), uses[|uses| - 1], maxStacks, cooldownMs)
  }

  /** `skill.cooldownSec * 1000`. */
  function CooldownMs(skill: Skill): real { SecToMs(skill.cooldownSec) }

  /** What `simulateSkillStacks(skill, events)` returns. */
  function Simulation(skill: Skill, events: seq<Use>): StackSimulationResult {
    var acc := Run(SortBy(events, UseTime), MaxStacks(skill), CooldownMs(skill));
    StackSimulationResult(|acc.invalid| == 0, acc.zones, acc.invalid)
  }

  // ---------------------------------------------------------------------------
  // The imperative replay.

  /** The closure `processRecovery`, which updates the two locals of the
      enclosing function; here it returns their new values. */
  method ProcessRecovery(stacks: int, nextRecoverTime: real, maxStacks: nat, cooldownMs: real, t: real)
    returns (stacks': int, nextRecoverTime': real)
    ensures Charge(stacks', nextRecoverTime') == Recover(Charge(stacks, nextRecoverTime), maxStacks, cooldownMs, t)
  {
    stacks', nextRecoverTime' := stacks, nextRecoverTime;
    if nextRecoverTime' == NoTimer {
      return;
    }
    if stacks' >= maxStacks {
      nextRecoverTime' := NoTimer;
      return;
    }
    ghost var target := RecoverLoop(Charge(stacks', nextRecoverTime'), maxStacks, cooldownMs, t);
    while nextRecoverTime' != NoTimer && nextRecoverTime' <= t
      invariant stacks' < maxStacks
      invariant RecoverLoop(Charge(stacks', nextRecoverTime'), maxStacks, cooldownMs, t) == target
      decreases maxStacks - stacks'
    {
      stacks' := stacks' + 1;
      if stacks' >= maxStacks {
        nextRecoverTime' := NoTimer;
        break;
      } else {
        nextRecoverTime' := nextRecoverTime' + cooldownMs;
      }
    }
  }

  /** The `for` loop of `simulateSkillStacks` over the sorted uses, with the
      counter starting full and no recovery pending. */
  method Replay(sorted: seq<Use>, maxStacks: nat, cooldownMs: real)
    returns (shadowZones: seq<Zone>, invalidEvents: seq<string>)
    ensures shadowZones == Run(sorted, maxStacks, cooldownMs).zones
    ensures invalidEvents == Run(sorted, maxStacks, cooldownMs).invalid
  {
    var stacks: int := maxStacks;
    var nextRecoverTime := NoTimer;
    shadowZones, invalidEvents := [], [];
    ghost var consumed: nat := 0;

    for i := 0 to |sorted|
      invariant 0 <= stacks <= maxStacks
      invariant Run(sorted[..i], maxStacks, cooldownMs)
             == Acc(Charge(stacks, nextRecoverTime), shadowZones, invalidEvents, consumed)
    {
      var ev := sorted[i];
      ghost var before := Acc(Charge(stacks, nextRecoverTime), shadowZones, invalidEvents, consumed);
      assert Run(sorted[..i + 1], maxStacks, cooldownMs) == Step(before, ev, maxStacks, cooldownMs) by {
        assert sorted[..i + 1][..i] == sorted[..i];
      }
      stacks, nextRecoverTime := ProcessRecovery(stacks, nextRecoverTime, maxStacks, cooldownMs, ev.tStartMs);
      ghost var target := Spend(before, Charge(stacks, nextRecoverTime), ev, cooldownMs);
      assert Run(sorted[..i + 1], maxStacks, cooldownMs) == target;
      if stacks > 0 {
        stacks := stacks - 1;
        if nextRecoverTime == NoTimer {
          nextRecoverTime := ev.tStartMs + cooldownMs;
        }
        if stacks == 0 {
          shadowZones := shadowZones + [Zone(ev.tStartMs, nextRecoverTime)];
        }
        consumed := consumed + 1;
      } else {
        invalidEvents := invalidEvents + [ev.id];
      }
      assert Acc(Charge(stacks, nextRecoverTime), shadowZones, invalidEvents, consumed) == target;
    }
    assert sorted[..|sorted|] == sorted;
  }

  /** `simulateSkillStacks`: sorts a copy of the uses by start time and replays
      them. Every use either spends a charge or is listed as invalid, the
      result is valid exactly when no use is invalid, and with a positive
      cooldown every shadow zone ends after it starts. */
  method SimulateSkillStacks(skill: Skill, events: seq<Use>) returns (result: StackSimulationResult)
    ensures result == Simulation(skill, events)
    ensures result.isValid <==> result.invalidEvents == []
    ensures |result.invalidEvents| <= |events|
    ensures IsSubsequence(result.invalidEvents, Ids(SortBy(events, UseTime)))
    ensures skill.cooldownSec > 0.0 ==> forall z :: z in result.shadowZones ==> z.end > z.start
    ensures |events| <= MaxStacks(skill) ==> result.isValid
  {
    var maxStacks := MaxStacks(skill);
    var cooldownMs := CooldownMs(skill);
    var sorted := SortBy(events, UseTime);
    var shadowZones, invalidEvents := Replay(sorted, maxStacks, cooldownMs);
    result := StackSimulationResult(|invalidEvents| == 0, shadowZones, invalidEvents);
    assert result == Simulation(skill, events);
    SimulationFacts(skill, events);
  }

  /** The facts the method promises, proved about the specification. */
  lemma SimulationFacts(skill: Skill, events: seq<Use>)
    ensures var r := Simulation(skill, events);
      && (r.isValid <==> r.invalidEvents == [])
      && |r.invalidEvents| <= |events|
      && IsSubsequence(r.invalidEvents, Ids(SortBy(events, UseTime)))
      && (skill.cooldownSec > 0.0 ==> forall z :: z in r.shadowZones ==> z.end > z.start)
      && (|events| <= MaxStacks(skill) ==> r.isValid)
  {
    var sorted := SortBy(events, UseTime);
    var maxStacks, cooldownMs := MaxStacks(skill), CooldownMs(skill);
    var acc := Run(sorted, maxStacks, cooldownMs);
    assert Simulation(skill, events) == StackSimulationResult(|acc.invalid| == 0, acc.zones, acc.invalid);
    RunAccounting(sorted, maxStacks, cooldownMs);
    RunInvalidInOrder(sorted, maxStacks, cooldownMs);
    assert IsSubsequence(Simulation(skill, events).invalidEvents, Ids(sorted));
    if skill.cooldownSec > 0.0 {
      RunZonesEndAfterStart(sorted, maxStacks, cooldownMs);
    }
    if |events| <= maxStacks {
      FewUsesAllValid(sorted, maxStacks, cooldownMs);
    }
  }

  // ---------------------------------------------------------------------------
  // Properties of the replay.

  /** The counter never leaves `0..maxStacks`: a recovery stops at the maximum
      and a use only spends a charge when one is left. */
  lemma {:induction false} RunChargeInRange(uses: seq<Use>, maxStacks: nat, cooldownMs: real)
    ensures 0 <= Run(uses, maxStacks, cooldownMs).charge.stacks <= maxStacks
    decreases |uses|
  {
    if uses != [] {
      RunChargeInRange(uses[..|uses| - 1], maxStacks, cooldownMs);
    }
  }

  /** Every use is counted once: it spent a charge or its id was listed as
      invalid; at most one shadow zone is opened per spent charge. */
  lemma {:induction false} RunAccounting(uses: seq<Use>, maxStacks: nat, cooldownMs: real)
    ensures var a := Run(uses, maxStacks, cooldownMs);
      |a.invalid| + a.consumed == |uses| && |a.zones| <= a.consumed
    decreases |uses|
  {
    if uses != [] {
      RunAccounting(uses[..|uses| - 1], maxStacks, cooldownMs);
    }
  }

  /** The invalid ids are ids of the replayed uses, in replay order. */
  lemma {:induction false} RunInvalidInOrder(uses: seq<Use>, maxStacks: nat, cooldownMs: real)
    ensures IsSubsequence(Run(uses, maxStacks, cooldownMs).invalid, Ids(uses))
    decreases |uses|
  {
    if uses == [] {
      SubsequenceEmpty(Ids(uses));
    } else {
      var init, last := uses[..|uses| - 1], uses[|uses| - 1];
      RunInvalidInOrder(init, maxStacks, cooldownMs);
      var a := Run(init, maxStacks, cooldownMs);
      var c := Recover(a.charge, maxStacks, cooldownMs, last.tStartMs);
      SubsequenceExtend(a.invalid, Ids(init), last.id, c.stacks <= 0);
    }
  }

  /** With a positive cooldown, each shadow zone ends strictly after the use
      that opened it: it ends at the pending recovery, which is later than
      that use. */
  lemma {:induction false} RunZonesEndAfterStart(uses: seq<Use>, maxStacks: nat, cooldownMs: real)
    requires cooldownMs > 0.0
    ensures forall z :: z in Run(uses, maxStacks, cooldownMs).zones ==> z.end > z.start
    decreases |uses|
  {
    if uses != [] {
      RunZonesEndAfterStart(uses[..|uses| - 1], maxStacks, cooldownMs);
    }
  }

  /** A use that spends the last charge opens a shadow zone from its own
      start to the recovery then pending; any other use opens none. */
  lemma StepZone(a: Acc, u: Use, maxStacks: nat, cooldownMs: real)
    ensures var b := Step(a, u, maxStacks, cooldownMs);
      if b.consumed == a.consumed + 1 && b.charge.stacks == 0
      then b.zones == a.zones + [Zone(u.tStartMs, b.charge.next)]
      else b.zones == a.zones
  {
  }

  /** Every shadow zone starts at the start of one of the replayed uses. */
  lemma {:induction false} RunZonesStartAtUses(uses: seq<Use>, maxStacks: nat, cooldownMs: real)
    ensures forall z :: z in Run(uses, maxStacks, cooldownMs).zones ==>
      exists k :: 0 <= k < |uses| && z.start == uses[k].tStartMs
    decreases |uses|
  {
    if uses != [] {
      var init, last := uses[..|uses| - 1], uses[|uses| - 1];
      RunZonesStartAtUses(init, maxStacks, cooldownMs);
      var a := Run(init, maxStacks, cooldownMs);
      assert Run(uses, maxStacks, cooldownMs) == Step(a, last, maxStacks, cooldownMs);
      StepZone(a, last, maxStacks, cooldownMs);
      forall z | z in Run(uses, maxStacks, cooldownMs).zones
        ensures exists k :: 0 <= k < |uses| && z.start == uses[k].tStartMs
      {
        if z in a.zones {
          var k :| 0 <= k < |init| && z.start == init[k].tStartMs;
          assert uses[k] == init[k];
        } else {
          assert z.start == uses[|uses| - 1].tStartMs;
        }
      }
    }
  }

  /** Each use leaves at least as many charges as before minus one, so the
      counter after `k` uses is at least `maxStacks - k`. */
  lemma {:induction false} RunChargeLowerBound(uses: seq<Use>, maxStacks: nat, cooldownMs: real)
    ensures Run(uses, maxStacks, cooldownMs).charge.stacks >= maxStacks - |uses|
    ensures |uses| <= maxStacks ==> Run(uses, maxStacks, cooldownMs).invalid == []
    decreases |uses|
  {
    if uses != [] {
      var init := uses[..|uses| - 1];
      RunChargeLowerBound(init, maxStacks, cooldownMs);
      RunChargeInRange(init, maxStacks, cooldownMs);
    }
  }

  /** No more uses than charges: every use is valid. */
  lemma FewUsesAllValid(uses: seq<Use>, maxStacks: nat, cooldownMs: real)
    requires |uses| <= maxStacks
    ensures Run(uses, maxStacks, cooldownMs).invalid == []
  {
    RunChargeLowerBound(uses, maxStacks, cooldownMs);
  }

  /** A recovery due at or before a use's time (exactly at it included) is
      credited before the use, so a use that finds an empty counter with a
      recovery due at its own instant still succeeds. */
  lemma DueRecoveryIsCredited(a: Acc, u: Use, maxStacks: nat, cooldownMs: real)
    requires 0 <= a.charge.stacks < maxStacks
    requires a.charge.next != NoTimer && a.charge.next <= u.tStartMs
    ensures Step(a, u, maxStacks, cooldownMs).consumed == a.consumed + 1
    ensures Step(a, u, maxStacks, cooldownMs).invalid == a.invalid
  {
  }

  /** A use that finds no charge and no recovery due by its time is invalid. */
  lemma EmptyWithoutDueRecoveryIsInvalid(a: Acc, u: Use, maxStacks: nat, cooldownMs: real)
    requires a.charge.stacks == 0 && 0 < maxStacks
    requires a.charge.next == NoTimer || a.charge.next > u.tStartMs
    ensures Step(a, u, maxStacks, cooldownMs).invalid == a.invalid + [u.id]
    ensures Step(a, u, maxStacks, cooldownMs).zones == a.zones
  {
  }

  /** Uses already in time order are replayed as given. */
  lemma SimulationOfSorted(skill: Skill, events: seq<Use>)
    requires SortedBy(events, UseTime)
    ensures Simulation(skill, events).invalidEvents == Run(events, MaxStacks(skill), CooldownMs(skill)).invalid
    ensures Simulation(skill, events).shadowZones == Run(events, MaxStacks(skill), CooldownMs(skill)).zones
    ensures Simulation(skill, events).isValid == (Run(events, MaxStacks(skill), CooldownMs(skill)).invalid == [])
  {
    SortBySortedIsIdentity(events, UseTime);
  }

  /** The replay of two uses is two steps from the initial state. */
  lemma RunTwo(events: seq<Use>, maxStacks: nat, cooldownMs: real)
    requires |events| == 2
    ensures Run(events, maxStacks, cooldownMs)
         == Step(Step(Initial(maxStacks), events[0], maxStacks, cooldownMs), events[1], maxStacks, cooldownMs)
  {
    assert events[..1][..0] == [];
    assert Run(events[..1], maxStacks, cooldownMs) == Step(Initial(maxStacks), events[0], maxStacks, cooldownMs);
    assert events[..|events| - 1] == events[..1];
  }

  /** The first use of a one-charge skill spends its charge, starts the timer
      and opens a shadow zone lasting one cooldown. */
  lemma FirstUseOfOneCharge(id: string, t0: real, cd: real)
    ensures Step(Initial(1), Use(id, t0), 1, cd) == Acc(Charge(0, t0 + cd), [Zone(t0, t0 + cd)], [], 1)
  {
    assert Recover(Charge(1, NoTimer), 1, cd, t0) == Charge(1, NoTimer);
  }

  /** A one-charge skill used once at `t0` is valid and has exactly one shadow
      zone, from `t0` to one cooldown later. */
  lemma SingleUseOfOneChargeSkill(skill: Skill, id: string, t0: real)
    requires MaxStacks(skill) == 1
    ensures Simulation(skill, [Use(id, t0)])
         == StackSimulationResult(true, [Zone(t0, t0 + CooldownMs(skill))], [])
  {
    var events := [Use(id, t0)];
    var cd := CooldownMs(skill);
    SimulationOfSorted(skill, events);
    assert events[..0] == [];
    assert Run(events, 1, cd) == Step(Initial(1), Use(id, t0), 1, cd);
    FirstUseOfOneCharge(id, t0, cd);
  }

  /** Two uses of a one-charge skill closer together than the cooldown: the
      second finds no charge. */
  lemma SecondUseWithinCooldownIsInvalid(skill: Skill, id1: string, id2: string, t0: real, d: real)
    requires MaxStacks(skill) == 1
    requires 0.0 <= d < CooldownMs(skill)
    ensures Simulation(skill, [Use(id1, t0), Use(id2, t0 + d)]).invalidEvents == [id2]
  {
    var events := [Use(id1, t0), Use(id2, t0 + d)];
    var cd := CooldownMs(skill);
    SimulationOfSorted(skill, events);
    RunTwo(events, 1, cd);
    FirstUseOfOneCharge(id1, t0, cd);
    EmptyWithoutDueRecoveryIsInvalid(Acc(Charge(0, t0 + cd), [Zone(t0, t0 + cd)], [], 1), Use(id2, t0 + d), 1, cd);
  }
}
