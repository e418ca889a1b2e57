/** Heights of a placed mitigation bar (src/components/Timeline/mitigationBarUtils.ts):
    a fixed header, the effect part and the cooldown part, in pixels. */
module MitigationBar {
  import opened Wrappers
  import opened Types

  const MitigationHeaderHeight: real := 40.0

  datatype MitigationBarHeights = MitigationBarHeights(effectHeight: real, cooldownHeight: real, totalHeight: real)

  /** The skill's cooldown in seconds, 0 when the skill is unknown. */
  function CooldownSecOf(skill: Option<Skill>): real {
    match skill
    case None => 0.0
    case Some(s) => s.cooldownSec
  }

  /** `getMitigationBarHeights(mit, zoom, skill)`: each part is its length in
      seconds times `zoom` pixels per second, under a 40-pixel header. */
  function GetMitigationBarHeights(mit: MitEvent, zoom: real, skill: Option<Skill>): (h: MitigationBarHeights)
    ensures h.effectHeight == MsToSec(mit.durationMs) * zoom
    ensures h.cooldownHeight == CooldownSecOf(skill) * zoom
    ensures skill.None? ==> h.cooldownHeight == 0.0
    ensures h.totalHeight == MitigationHeaderHeight + h.effectHeight + h.cooldownHeight
  {
    var effectHeight := MsToSec(mit.durationMs) * zoom;
    var cooldownMs := SecToMs(CooldownSecOf(skill));
    var cooldownHeight := MsToSec(cooldownMs) * zoom;
    MitigationBarHeights(effectHeight, cooldownHeight, MitigationHeaderHeight + effectHeight + cooldownHeight)
  }

  /** With a non-negative duration, cooldown and zoom no part is negative
      and the bar is at least as tall as its header. */
  lemma HeightsNonNegative(mit: MitEvent, zoom: real, skill: Option<Skill>)
    requires mit.durationMs >= 0.0 && zoom >= 0.0
    requires skill.Some? ==> skill.value.cooldownSec >= 0.0
    ensures var h := GetMitigationBarHeights(mit, zoom, skill);
      h.effectHeight >= 0.0 && h.cooldownHeight >= 0.0 && h.totalHeight >= MitigationHeaderHeight
  {
    var d := MsToSec(mit.durationMs);
    var c := CooldownSecOf(skill);
    assert d >= 0.0 && c >= 0.0;
    assert d * zoom >= 0.0;
    assert c * zoom >= 0.0;
  }

  /** Both parts grow linearly with the zoom: zooming by `k` scales them by `k`. */
  lemma HeightsScaleWithZoom(mit: MitEvent, zoom: real, k: real, skill: Option<Skill>)
    ensures var h, hk := GetMitigationBarHeights(mit, zoom, skill), GetMitigationBarHeights(mit, k * zoom, skill);
      hk.effectHeight == k * h.effectHeight && hk.cooldownHeight == k * h.cooldownHeight
  {
    var d := MsToSec(mit.durationMs);
    var c := CooldownSecOf(skill);
    assert d * (k * zoom) == k * (d * zoom);
    assert c * (k * zoom) == k * (c * zoom);
  }
}
