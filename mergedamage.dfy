/** Merging FFLogs damage events (src/domain/fflogs/mergeDamageEvents.ts):
    the `calculateddamage` and `damage` reports of one hit share a truthy
    `packetID` and are folded into a single event; events without one pass
    through on their own; the result is sorted by `timestamp` and each event
    gets `tMs`, its time from the start of the fight. */
module MergeDamage {
  import opened Wrappers
  import opened Types
  import opened Seqs

  predicate IsCalc(e: DamageEvent) { e.eventKind == "calculateddamage" }

  predicate NoPacket(e: DamageEvent) { !Truthy(e.packetID) }

  /** `e` with `prefix` put in front of its ability name. */
  function Tagged(e: DamageEvent, prefix: string): (r: DamageEvent)
    ensures r.packetID == e.packetID && r.timestamp == e.timestamp
  {
    e.(ability := e.ability.(name := prefix + e.ability.name))
  }

  /** An event without a packet: a lone `calculateddamage` is marked "? ". */
  function StandaloneOf(e: DamageEvent): (r: DamageEvent)
    ensures r.packetID == e.packetID && r.timestamp == e.timestamp
  {
    if IsCalc(e) then Tagged(e, "? ") else e
  }

  /** The `{ calc?, dmg? }` record kept per packet. */
  datatype Entry = Entry(calcPart: Option<DamageEvent>, dmgPart: Option<DamageEvent>)

  /** The state built by the `forEach`: the packet dictionary, its keys in
      insertion order (the iteration order of a `Map`), and the standalone
      events. */
  datatype Grouping = Grouping(dict: map<int, Entry>, keys: seq<int>, standalone: seq<DamageEvent>)

  function GroupStep(g: Grouping, e: DamageEvent): Grouping {
    if Truthy(e.packetID) then
      var pid := e.packetID.value;
      var entry := if pid in g.dict then g.dict[pid] else Entry(None, None);
      var keys := if pid in g.dict then g.keys else g.keys + [pid];
      var entry' := if IsCalc(e) then entry.(calcPart := Some(e)) else entry.(dmgPart := Some(e));
      Grouping(g.dict[pid := entry'], keys, g.standalone)
    else
      Grouping(g.dict, g.keys, g.standalone + [StandaloneOf(e)])
  }

  function Group(ds: seq<DamageEvent>): Grouping
    decreases |ds|
  {
    if ds == [] then Grouping(map[], [], [])
    else GroupStep(Group(ds[..|ds| - 1]), ds[|ds| - 1])
  }

  /** The event pushed for one packet entry: both halves give the `damage`
      event with the `calculateddamage` timestamp and packet id and type
      'damage-combined'; a lone half is marked "? " (calculated) or "* "
      (damage). An empty entry gives nothing. */
  function Combine(entry: Entry): (r: seq<DamageEvent>)
    ensures |r| <= 1
  {
    match entry
    case Entry(Some(c), Some(dmg)) =>
      [dmg.(timestamp := c.timestamp, packetID := c.packetID, eventKind := "damage-combined")]
    case Entry(Some(c), None) => [Tagged(c, "? ")]
    case Entry(None, Some(dmg)) => [Tagged(dmg, "* ")]
    case Entry(None, None) => []
  }

  lemma CombineOne(entry: Entry)
    requires entry.calcPart.Some? || entry.dmgPart.Some?
    ensures |Combine(entry)| == 1
  {
  }

  /** The events pushed while iterating `dict.values()` in key order. */
  function Combined(keys: seq<int>, dict: map<int, Entry>): seq<DamageEvent>
    decreases |keys|
  {
    if keys == [] then []
    else
      var k := keys[|keys| - 1];
      Combined(keys[..|keys| - 1], dict) + (if k in dict then Combine(dict[k]) else [])
  }

  function Rebase(e: DamageEvent, fightStart: real): DamageEvent {
    e.(tMs := e.timestamp - fightStart)
  }

  function RebaseAll(s: seq<DamageEvent>, fightStart: real): (r: seq<DamageEvent>)
    ensures |r| == |s|
    ensures forall k :: 0 <= k < |s| ==> r[k] == Rebase(s[k], fightStart)
    decreases |s|
  {
    if s == [] then [] else RebaseAll(s[..|s| - 1], fightStart) + [Rebase(s[|s| - 1], fightStart)]
  }

  /** The value `mergeDamageEvents(damages, fightStart)` returns. */
  function Merged(ds: seq<DamageEvent>, fightStart: real): (r: seq<DamageEvent>)
    ensures SortedBy(r, Timestamp)
    ensures forall k :: 0 <= k < |r| ==> r[k].tMs == r[k].timestamp - fightStart
  {
    var g := Group(ds);
    var sorted := SortBy(g.standalone + Combined(g.keys, g.dict), Timestamp);
    RebaseKeepsOrder(sorted, fightStart);
    RebaseAll(sorted, fightStart)
  }

  lemma RebaseKeepsOrder(s: seq<DamageEvent>, fightStart: real)
    requires SortedBy(s, Timestamp)
    ensures SortedBy(RebaseAll(s, fightStart), Timestamp)
  {
    var r := RebaseAll(s, fightStart);
    forall i, j | 0 <= i < j < |r| ensures Timestamp(r[i]) <= Timestamp(r[j]) {
      assert r[i].timestamp == s[i].timestamp && r[j].timestamp == s[j].timestamp;
    }
  }

  /** The `forEach` of `mergeDamageEvents` that fills the packet dictionary
      and the standalone list. */
  method GroupByPacket(damages: seq<DamageEvent>) returns (dict: map<int, Entry>, keys: seq<int>, standaloneEvents: seq<DamageEvent>)
    ensures Grouping(dict, keys, standaloneEvents) == Group(damages)
  {
    dict, keys, standaloneEvents := map[], [], [];
    for i := 0 to |damages|
      invariant Group(damages[..i]) == Grouping(dict, keys, standaloneEvents)
    {
      GroupPrefix(damages, i);
      var e := damages[i];
      var pid := e.packetID;
      if Truthy(pid) {
        if pid.value !in dict {
          dict := dict[pid.value := Entry(None, None)];
          keys := keys + [pid.value];
        }
        var entry := dict[pid.value];
        if IsCalc(e) {
          entry := entry.(calcPart := Some(e));
        } else {
          entry := entry.(dmgPart := Some(e));
        }
        dict := dict[pid.value := entry];
      } else if IsCalc(e) {
        standaloneEvents := standaloneEvents + [Tagged(e, "? ")];
      } else {
        standaloneEvents := standaloneEvents + [e];
      }
    }
    assert damages[..|damages|] == damages;
  }

  /** The loop pushing one event per dictionary value, in key order. */
  method CombineValues(keys: seq<int>, dict: map<int, Entry>) returns (combinedDamages: seq<DamageEvent>)
    requires forall i :: 0 <= i < |keys| ==> keys[i] in dict
    ensures combinedDamages == Combined(keys, dict)
  {
    combinedDamages := [];
    for j := 0 to |keys|
      invariant combinedDamages == Combined(keys[..j], dict)
    {
      assert keys[..j + 1][..j] == keys[..j];
      combinedDamages := combinedDamages + Combine(dict[keys[j]]);
    }
    assert keys[..|keys|] == keys;
  }

  /** The final `map` giving each event its time from the fight start. */
  method RebaseEach(s: seq<DamageEvent>, fightStart: real) returns (r: seq<DamageEvent>)
    ensures r == RebaseAll(s, fightStart)
  {
    r := [];
    for k := 0 to |s|
      invariant r == RebaseAll(s[..k], fightStart)
    {
      assert s[..k + 1][..k] == s[..k];
      r := r + [Rebase(s[k], fightStart)];
    }
    assert s[..|s|] == s;
  }

  /** `mergeDamageEvents`: the grouping, the loop over the dictionary's
      values, the stable sort and the final map. */
  method MergeDamageEvents(damages: seq<DamageEvent>, fightStart: real) returns (r: seq<DamageEvent>)
    ensures r == Merged(damages, fightStart)
  {
    var dict, keys, standaloneEvents := GroupByPacket(damages);
    GroupKeys(damages);
    var combinedDamages := CombineValues(keys, dict);
    var finalDamages := SortBy(standaloneEvents + combinedDamages, Timestamp);
    r := RebaseEach(finalDamages, fightStart);
  }

  // ---------------------------------------------------------------------------
  // Reference definitions: the entry of a packet holds the LAST report of each
  // kind carrying that packet id.

  function CalcOf(p: int): DamageEvent -> bool {
    (e: DamageEvent) => e.packetID == Some(p) && IsCalc(e)
  }

  function DmgOf(p: int): DamageEvent -> bool {
    (e: DamageEvent) => e.packetID == Some(p) && !IsCalc(e)
  }

  function PacketIs(p: int): DamageEvent -> bool {
    (e: DamageEvent) => e.packetID == Some(p)
  }

  /** The last element of `ds` that satisfies `q`. */
  function LastMatching(ds: seq<DamageEvent>, q: DamageEvent -> bool): (r: Option<DamageEvent>)
    ensures r.Some? ==> r.value in ds && q(r.value)
    ensures r.None? <==> forall k :: 0 <= k < |ds| ==> !q(ds[k])
    decreases |ds|
  {
    if ds == [] then None
    else if q(ds[|ds| - 1]) then Some(ds[|ds| - 1])
    else
      var r := LastMatching(ds[..|ds| - 1], q);
      assert forall k :: 0 <= k < |ds| - 1 ==> ds[..|ds| - 1][k] == ds[k];
      r
  }

  /** Some event of `ds` carries packet id `p`. */
  predicate HasPacket(ds: seq<DamageEvent>, p: int) {
    exists k :: 0 <= k < |ds| && ds[k].packetID == Some(p)
  }

  lemma GroupPrefix(ds: seq<DamageEvent>, i: nat)
    requires i < |ds|
    ensures Group(ds[..i + 1]) == GroupStep(Group(ds[..i]), ds[i])
  {
    assert ds[..i + 1][..i] == ds[..i];
  }

  lemma HasPacketSnoc(init: seq<DamageEvent>, e: DamageEvent, p: int)
    ensures HasPacket(init + [e], p) <==> HasPacket(init, p) || e.packetID == Some(p)
  {
    var ds := init + [e];
    if HasPacket(ds, p) {
      var k :| 0 <= k < |ds| && ds[k].packetID == Some(p);
      if k < |init| { assert init[k].packetID == Some(p); }
    }
    if HasPacket(init, p) {
      var k :| 0 <= k < |init| && init[k].packetID == Some(p);
      assert ds[k].packetID == Some(p);
    }
    if e.packetID == Some(p) {
      assert ds[|init|].packetID == Some(p);
    }
  }

  /** The keys of the grouping are the distinct truthy packet ids in
      first-seen order, and the dictionary holds exactly those keys. */
  lemma {:induction false} GroupKeys(ds: seq<DamageEvent>)
    ensures var g := Group(ds);
      && (forall i, j :: 0 <= i < j < |g.keys| ==> g.keys[i] != g.keys[j])
      && (forall i :: 0 <= i < |g.keys| ==> g.keys[i] in g.dict)
      && (forall p :: p in g.dict ==> p in g.keys)
      && (forall p :: p in g.dict <==> p != 0 && HasPacket(ds, p))
    decreases |ds|
  {
    if ds != [] {
      var init, e := ds[..|ds| - 1], ds[|ds| - 1];
      assert ds == init + [e];
      GroupKeys(init);
      assert forall i :: 0 <= i < |Group(init).keys| ==> Group(init).keys[i] in Group(init).dict;
      var g, g' := Group(init), Group(ds);
      assert g' == GroupStep(g, e);
      if Truthy(e.packetID) {
        var pid := e.packetID.value;
        if pid !in g.dict {
          assert forall i :: 0 <= i < |g.keys| ==> g.keys[i] in g.dict;
          assert pid !in g.keys;
          assert g'.keys == g.keys + [pid];
        } else {
          assert g'.keys == g.keys;
        }
        assert g'.dict.Keys == g.dict.Keys + {pid};
      } else {
        assert g'.keys == g.keys && g'.dict == g.dict;
      }
      forall p ensures p in g'.dict <==> p != 0 && HasPacket(ds, p) {
        HasPacketSnoc(init, e, p);
      }
    }
  }

  /** Each entry holds the last report of each kind for its packet. */
  lemma {:induction false} GroupEntries(ds: seq<DamageEvent>)
    ensures var g := Group(ds);
      forall p :: p in g.dict ==>
        g.dict[p] == Entry(LastMatching(ds, CalcOf(p)), LastMatching(ds, DmgOf(p)))
    decreases |ds|
  {
    if ds != [] {
      var init, e := ds[..|ds| - 1], ds[|ds| - 1];
      assert ds == init + [e];
      GroupEntries(init);
      GroupKeys(init);
      var g := Group(init);
      forall p | p in g.dict && !(Truthy(e.packetID) && e.packetID.value == p)
        ensures LastMatching(ds, CalcOf(p)) == LastMatching(init, CalcOf(p))
        ensures LastMatching(ds, DmgOf(p)) == LastMatching(init, DmgOf(p))
      {
        assert !CalcOf(p)(e) && !DmgOf(p)(e);
      }
      if Truthy(e.packetID) {
        var pid := e.packetID.value;
        if pid !in g.dict {
          assert !HasPacket(init, pid);
          assert LastMatching(init, CalcOf(pid)).None?;
          assert LastMatching(init, DmgOf(pid)).None?;
        }
        assert LastMatching(ds, CalcOf(pid)) == if IsCalc(e) then Some(e) else LastMatching(init, CalcOf(pid));
        assert LastMatching(ds, DmgOf(pid)) == if IsCalc(e) then LastMatching(init, DmgOf(pid)) else Some(e);
      }
    }
  }

  /** The standalone list holds one event per input without a truthy packet
      id. */
  lemma {:induction false} GroupStandalone(ds: seq<DamageEvent>)
    ensures var g := Group(ds);
      && (forall k :: 0 <= k < |g.standalone| ==> NoPacket(g.standalone[k]))
      && |g.standalone| == Count(ds, NoPacket)
    decreases |ds|
  {
    if ds != [] {
      var init := ds[..|ds| - 1];
      GroupStandalone(init);
    }
  }

  /** The shape of the grouping: keys, entries and standalone events. */
  lemma GroupWellFormed(ds: seq<DamageEvent>)
    ensures var g := Group(ds);
      && (forall i, j :: 0 <= i < j < |g.keys| ==> g.keys[i] != g.keys[j])
      && (forall i :: 0 <= i < |g.keys| ==> g.keys[i] in g.dict)
      && (forall p :: p in g.dict ==> p in g.keys)
      && (forall p :: p in g.dict <==> p != 0 && HasPacket(ds, p))
      && (forall p :: p in g.dict ==>
            g.dict[p] == Entry(LastMatching(ds, CalcOf(p)), LastMatching(ds, DmgOf(p))))
      && (forall k :: 0 <= k < |g.standalone| ==> NoPacket(g.standalone[k]))
      && |g.standalone| == Count(ds, NoPacket)
  {
    GroupKeys(ds);
    GroupEntries(ds);
    GroupStandalone(ds);
  }

  /** The combined list has one event for each key, carrying that key as
      packet id. */
  lemma {:induction false} CombinedShape(keys: seq<int>, dict: map<int, Entry>)
    requires forall i :: 0 <= i < |keys| ==> keys[i] in dict
    requires forall p :: p in dict ==> dict[p].calcPart.Some? || dict[p].dmgPart.Some?
    requires forall p :: p in dict ==> dict[p].calcPart.Some? ==> dict[p].calcPart.value.packetID == Some(p)
    requires forall p :: p in dict ==> dict[p].dmgPart.Some? ==> dict[p].dmgPart.value.packetID == Some(p)
    ensures |Combined(keys, dict)| == |keys|
    ensures forall k :: 0 <= k < |keys| ==> |Combine(dict[keys[k]])| == 1
    ensures forall k :: 0 <= k < |keys| ==> Combined(keys, dict)[k] == Combine(dict[keys[k]])[0]
    ensures forall k :: 0 <= k < |keys| ==> Combined(keys, dict)[k].packetID == Some(keys[k])
    decreases |keys|
  {
    if keys != [] {
      CombinedShape(keys[..|keys| - 1], dict);
      forall k | 0 <= k < |keys| ensures |Combine(dict[keys[k]])| == 1 {
        var q := keys[k];
        assert q in dict;
        CombineOne(dict[q]);
      }
    }
  }

  /** With distinct keys, a packet id occurs once in the combined list when it
      is a key and not at all otherwise. */
  lemma {:induction false} CombinedCount(keys: seq<int>, dict: map<int, Entry>, p: int)
    requires forall i, j :: 0 <= i < j < |keys| ==> keys[i] != keys[j]
    requires forall i :: 0 <= i < |keys| ==> keys[i] in dict
    requires forall q :: q in dict ==> dict[q].calcPart.Some? || dict[q].dmgPart.Some?
    requires forall q :: q in dict ==> dict[q].calcPart.Some? ==> dict[q].calcPart.value.packetID == Some(q)
    requires forall q :: q in dict ==> dict[q].dmgPart.Some? ==> dict[q].dmgPart.value.packetID == Some(q)
    ensures Count(Combined(keys, dict), PacketIs(p)) == if p in keys then 1 else 0
    decreases |keys|
  {
    if keys != [] {
      var init, k := keys[..|keys| - 1], keys[|keys| - 1];
      assert keys == init + [k];
      CombinedCount(init, dict, p);
      assert k in dict;
      assert Combined(keys, dict) == Combined(init, dict) + Combine(dict[k]);
      CountAppend(Combined(init, dict), Combine(dict[k]), PacketIs(p));
      CombineCount(dict[k], k, p);
      assert p in keys <==> p in init || p == k;
    }
  }

  /** The one event of a packet's entry carries that packet's id. */
  lemma CombineCount(entry: Entry, q: int, p: int)
    requires entry.calcPart.Some? || entry.dmgPart.Some?
    requires entry.calcPart.Some? ==> entry.calcPart.value.packetID == Some(q)
    requires entry.dmgPart.Some? ==> entry.dmgPart.value.packetID == Some(q)
    ensures Count(Combine(entry), PacketIs(p)) == if q == p then 1 else 0
  {
    var c := Combine(entry);
    CombineOne(entry);
    assert c[..0] == [];
    assert c[0].packetID == Some(q);
  }

  lemma {:induction false} RebaseCount(s: seq<DamageEvent>, fightStart: real, p: int)
    ensures Count(RebaseAll(s, fightStart), PacketIs(p)) == Count(s, PacketIs(p))
    decreases |s|
  {
    if s != [] {
      RebaseCount(s[..|s| - 1], fightStart, p);
      assert RebaseAll(s, fightStart)[..|s| - 1] == RebaseAll(s[..|s| - 1], fightStart);
    }
  }

  lemma EntriesAreTagged(ds: seq<DamageEvent>)
    ensures var g := Group(ds);
      && (forall q :: q in g.dict ==> g.dict[q].calcPart.Some? || g.dict[q].dmgPart.Some?)
      && (forall q :: q in g.dict ==> g.dict[q].calcPart.Some? ==> g.dict[q].calcPart.value.packetID == Some(q))
      && (forall q :: q in g.dict ==> g.dict[q].dmgPart.Some? ==> g.dict[q].dmgPart.value.packetID == Some(q))
  {
    GroupKeys(ds);
    GroupEntries(ds);
    var g := Group(ds);
    forall q | q in g.dict ensures g.dict[q].calcPart.Some? || g.dict[q].dmgPart.Some? {
      var k :| 0 <= k < |ds| && ds[k].packetID == Some(q);
      assert CalcOf(q)(ds[k]) || DmgOf(q)(ds[k]);
    }
  }

  /** The output has one event per input without a truthy packet id and one
      per distinct truthy packet id. */
  lemma MergedLength(ds: seq<DamageEvent>, fightStart: real)
    ensures |Merged(ds, fightStart)| == Count(ds, NoPacket) + |Group(ds).keys|
  {
    GroupWellFormed(ds);
    EntriesAreTagged(ds);
    var g := Group(ds);
    CombinedShape(g.keys, g.dict);
  }

  /** Each packet id seen in the input comes out exactly once; the combining
      never duplicates nor drops a hit. */
  lemma MergedOnePerPacket(ds: seq<DamageEvent>, fightStart: real, p: int)
    requires p != 0
    ensures Count(Merged(ds, fightStart), PacketIs(p)) == if HasPacket(ds, p) then 1 else 0
  {
    GroupWellFormed(ds);
    EntriesAreTagged(ds);
    var g := Group(ds);
    var all := g.standalone + Combined(g.keys, g.dict);
    RebaseCount(SortBy(all, Timestamp), fightStart, p);
    SortByCount(all, Timestamp, PacketIs(p));
    CountAppend(g.standalone, Combined(g.keys, g.dict), PacketIs(p));
    CountZero(g.standalone, PacketIs(p));
    CombinedCount(g.keys, g.dict, p);
    assert p in g.keys <==> p in g.dict;
  }

  /** What comes out for a packet: the last `damage` report with the last
      `calculateddamage` report's timestamp and packet id when both kinds
      were seen, else the one kind seen, marked. */
  lemma MergedPacketEvent(ds: seq<DamageEvent>, fightStart: real, p: int)
    requires p != 0 && HasPacket(ds, p)
    ensures var c, dmg := LastMatching(ds, CalcOf(p)), LastMatching(ds, DmgOf(p));
      && (c.Some? || dmg.Some?)
      && Rebase(Combine(Entry(c, dmg))[0], fightStart) in Merged(ds, fightStart)
  {
    GroupKeys(ds);
    GroupEntries(ds);
    var g := Group(ds);
    assert p in g.dict;
    PacketCombined(ds, p);
    var x := Combine(g.dict[p])[0];
    assert x in g.standalone + Combined(g.keys, g.dict);
    InMerged(ds, fightStart, x);
  }

  /** The event a packet's entry gives is among the combined events. */
  lemma PacketCombined(ds: seq<DamageEvent>, p: int)
    requires p in Group(ds).dict
    ensures |Combine(Group(ds).dict[p])| == 1
    ensures Combine(Group(ds).dict[p])[0] in Combined(Group(ds).keys, Group(ds).dict)
  {
    GroupKeys(ds);
    EntriesAreTagged(ds);
    var g := Group(ds);
    CombinedShape(g.keys, g.dict);
    var i :| 0 <= i < |g.keys| && g.keys[i] == p;
    assert Combined(g.keys, g.dict)[i] == Combine(g.dict[p])[0];
  }

  /** Every grouped event comes out, rebased. */
  lemma InMerged(ds: seq<DamageEvent>, fightStart: real, x: DamageEvent)
    requires x in Group(ds).standalone + Combined(Group(ds).keys, Group(ds).dict)
    ensures Rebase(x, fightStart) in Merged(ds, fightStart)
  {
    var g := Group(ds);
    var all := g.standalone + Combined(g.keys, g.dict);
    var sorted := SortBy(all, Timestamp);
    assert x in multiset(sorted);
    var j :| 0 <= j < |sorted| && sorted[j] == x;
    assert RebaseAll(sorted, fightStart)[j] == Rebase(x, fightStart);
  }

  /** An event without a truthy packet id comes out on its own, "? "-marked
      when it is a `calculateddamage` report, at its own timestamp. */
  lemma MergedStandaloneEvent(ds: seq<DamageEvent>, fightStart: real, k: nat)
    requires k < |ds| && NoPacket(ds[k])
    ensures Rebase(StandaloneOf(ds[k]), fightStart) in Merged(ds, fightStart)
  {
    StandaloneKept(ds, k);
    var g := Group(ds);
    assert StandaloneOf(ds[k]) in g.standalone + Combined(g.keys, g.dict);
    InMerged(ds, fightStart, StandaloneOf(ds[k]));
  }

  lemma {:induction false} StandaloneKept(ds: seq<DamageEvent>, k: nat)
    requires k < |ds| && NoPacket(ds[k])
    ensures StandaloneOf(ds[k]) in Group(ds).standalone
    decreases |ds|
  {
    var init := ds[..|ds| - 1];
    if k < |init| {
      assert init[k] == ds[k];
      StandaloneKept(init, k);
    }
  }
}
