/** Damage event lists keyed by job (src/domain/fflogs/buildDamageEventsByJob.ts). */
module DamageByJob {
  import opened Wrappers
  import opened Types
  import opened MergeDamage

  /** One job's fetched damage events. */
  datatype DamageBatch = DamageBatch(job: Job, events: seq<DamageEvent>)

  /** The record the `forEach` builds: each batch overwrites its job's entry. */
  function ByJob(batches: seq<DamageBatch>, fightStart: real): map<Job, seq<DamageEvent>>
    decreases |batches|
  {
    if batches == [] then map[]
    else
      var b := batches[|batches| - 1];
      ByJob(batches[..|batches| - 1], fightStart)[b.job := Merged(b.events, fightStart)]
  }

  method BuildDamageEventsByJob(batches: seq<DamageBatch>, fightStart: real) returns (r: map<Job, seq<DamageEvent>>)
    ensures r == ByJob(batches, fightStart)
  {
    r := map[];
    for i := 0 to |batches|
      invariant r == ByJob(batches[..i], fightStart)
    {
      assert batches[..i + 1][..i] == batches[..i];
      var merged := MergeDamageEvents(batches[i].events, fightStart);
      r := r[batches[i].job := merged];
    }
    assert batches[..|batches|] == batches;
  }

  /** The events of the last batch for `job`, if any. */
  function LastBatchFor(batches: seq<DamageBatch>, job: Job): (r: Option<seq<DamageEvent>>)
    ensures r.None? <==> forall k :: 0 <= k < |batches| ==> batches[k].job != job
    decreases |batches|
  {
    if batches == [] then None
    else if batches[|batches| - 1].job == job then Some(batches[|batches| - 1].events)
    else
      var r := LastBatchFor(batches[..|batches| - 1], job);
      assert forall k :: 0 <= k < |batches| - 1 ==> batches[..|batches| - 1][k] == batches[k];
      r
  }

  /** A job has an entry exactly when some batch is for it, and the entry is
      the merge of the last such batch. */
  lemma {:induction false} ByJobIsLastBatch(batches: seq<DamageBatch>, fightStart: real, job: Job)
    ensures job in ByJob(batches, fightStart) <==> LastBatchFor(batches, job).Some?
    ensures job in ByJob(batches, fightStart) ==>
      ByJob(batches, fightStart)[job] == Merged(LastBatchFor(batches, job).value, fightStart)
    decreases |batches|
  {
    if batches != [] {
      var init, b := batches[..|batches| - 1], batches[|batches| - 1];
      ByJobIsLastBatch(init, fightStart, job);
      var prev := ByJob(init, fightStart);
      assert ByJob(batches, fightStart) == prev[b.job := Merged(b.events, fightStart)];
      if b.job != job {
        assert LastBatchFor(batches, job) == LastBatchFor(init, job);
        assert job in ByJob(batches, fightStart) <==> job in prev;
      }
    }
  }
}
