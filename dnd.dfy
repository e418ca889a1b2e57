/** Drop-zone identities for drag and drop (src/dnd/types.ts). */
module Dnd {

  /** `DropZoneData`: a mitigation lane of one timeline, or the trash. */
  datatype DropZoneData = MitLane(timelineId: string, laneId: string, msPerPx: real) | Trash

  const LanePrefix: string := "mit-lane:"

  /** `buildDropZoneId(zone)`. The scale `msPerPx` is not part of the id. */
  function BuildDropZoneId(zone: DropZoneData): (id: string)
    ensures zone.Trash? ==> id == "trash"
    ensures zone.MitLane? ==> |id| > |LanePrefix| && id[..|LanePrefix|] == LanePrefix
  {
    match zone
    case Trash => "trash"
    case MitLane(timelineId, laneId, _) =>
      var id := LanePrefix + timelineId + ":" + laneId;
      assert id[..|LanePrefix|] == LanePrefix;
      id
  }

  /** Lanes that differ only in scale share an id, so a zoom change does not
      remount the drop target. */
  lemma IdIgnoresScale(t: string, l: string, a: real, b: real)
    ensures BuildDropZoneId(MitLane(t, l, a)) == BuildDropZoneId(MitLane(t, l, b))
  {
  }

  /** A lane id is never the trash id. */
  lemma LaneIsNotTrash(zone: DropZoneData)
    requires zone.MitLane?
    ensures BuildDropZoneId(zone) != BuildDropZoneId(Trash)
  {
    var id := BuildDropZoneId(zone);
    assert id[0] == 'm';
  }

  /** The position of the first `c` in `s`, or `|s|` when there is none. */
  function IndexOf(s: string, c: char): (i: nat)
    ensures i <= |s|
    ensures i < |s| ==> s[i] == c
    ensures forall k :: 0 <= k < i ==> s[k] != c
    decreases |s|
  {
    if s == [] then 0 else if s[0] == c then 0 else 1 + IndexOf(s[1..], c)
  }

  lemma {:induction false} IndexOfAfter(t: string, rest: string, c: char)
    requires c !in t
    ensures IndexOf(t + [c] + rest, c) == |t|
    decreases |t|
  {
    if t != [] {
      assert (t + [c] + rest)[1..] == t[1..] + [c] + rest;
      IndexOfAfter(t[1..], rest, c);
    }
  }

  /** When timeline ids contain no ':', lanes with equal ids are the same
      lane of the same timeline. */
  lemma LaneIdInjective(z1: DropZoneData, z2: DropZoneData)
    requires z1.MitLane? && z2.MitLane?
    requires ':' !in z1.timelineId && ':' !in z2.timelineId
    requires BuildDropZoneId(z1) == BuildDropZoneId(z2)
    ensures z1.timelineId == z2.timelineId && z1.laneId == z2.laneId
  {
    var id := BuildDropZoneId(z1);
    var p := |LanePrefix|;
    var t1, t2 := z1.timelineId, z2.timelineId;
    var body := id[p..];
    assert body == t1 + ":" + z1.laneId;
    assert body == t2 + ":" + z2.laneId;
    IndexOfAfter(t1, z1.laneId, ':');
    IndexOfAfter(t2, z2.laneId, ':');
    assert t1 == body[..|t1|] == t2;
    assert z1.laneId == body[|t1| + 1..] == z2.laneId;
  }
}
