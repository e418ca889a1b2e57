/** Local icon paths (src/data/icons.ts). */
module Icons {
  import opened Wrappers
  import opened Numerals
  import opened Types

  const IconBasePath: string := "xiv-icons"

  /** `getSkillIconLocalSrc(actionId)`: no icon for a missing or zero id,
      else the action's PNG under `xiv-icons/actions/`. */
  function GetSkillIconLocalSrc(actionId: Option<int>): (src: string)
    ensures src == "" <==> actionId.None? || actionId.value == 0
  {
    if actionId.None? || actionId.value == 0 then ""
    else IconBasePath + "/actions/" + IntToDecimal(actionId.value) + ".png"
  }

  /** `JOB_ICON_LOCAL_SRC[job]`. */
  function JobIconLocalSrc(job: Job): string {
    IconBasePath + "/jobs/" + JobName(job) + ".png"
  }

  /** The prefix `xiv-icons/`. */
  predicate UnderBase(src: string) {
    |src| > |IconBasePath| && src[..|IconBasePath| + 1] == IconBasePath + "/"
  }

  /** Every non-empty skill icon path lies under `xiv-icons/`. */
  lemma SkillIconUnderBase(actionId: Option<int>)
    ensures var src := GetSkillIconLocalSrc(actionId);
      src != "" ==> UnderBase(src)
  {
    var src := GetSkillIconLocalSrc(actionId);
    if src != "" {
      var rest := "actions/" + IntToDecimal(actionId.value) + ".png";
      assert src == (IconBasePath + "/") + rest;
      assert src[..|IconBasePath| + 1] == IconBasePath + "/";
    }
  }

  /** Every job icon path lies under `xiv-icons/jobs/` and ends in `.png`. */
  lemma JobIconUnderBase(job: Job)
    ensures var src := JobIconLocalSrc(job);
      && UnderBase(src)
      && src[..|IconBasePath| + 6] == IconBasePath + "/jobs/"
      && src[|src| - 4..] == ".png"
  {
  }

  /** The action id can be read back from its icon path: different ids get
      different icons. */
  lemma SkillIconInjective(a: int, b: int)
    requires a != 0 && b != 0
    requires GetSkillIconLocalSrc(Some(a)) == GetSkillIconLocalSrc(Some(b))
    ensures a == b
  {
    var pre := IconBasePath + "/actions/";
    var sa, sb := GetSkillIconLocalSrc(Some(a)), GetSkillIconLocalSrc(Some(b));
    var da, db := IntToDecimal(a), IntToDecimal(b);
    assert sa == pre + da + ".png";
    assert sb == pre + db + ".png";
    assert |da| == |db|;
    assert da == sa[|pre|..|pre| + |da|];
    assert db == sb[|pre|..|pre| + |db|];
    IntToBaseInjective(a, b, 10);
  }

  /** Each job has its own icon. */
  lemma JobIconInjective(j: Job, k: Job)
    requires JobIconLocalSrc(j) == JobIconLocalSrc(k)
    ensures j == k
  {
    assert JobIconLocalSrc(j)[15] == JobIconLocalSrc(k)[15];
    assert JobIconLocalSrc(j)[16] == JobIconLocalSrc(k)[16];
  }
}
