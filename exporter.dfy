/** The cactbot-style timeline text writer (`FFLogsExporter.generateTimeline`,
    src/lib/fflogs/exporter.ts). The rule table `getFactoryRule` and the
    printing of JavaScript numbers are parameters. */
module Exporter {
  import opened Wrappers
  import opened Numerals
  import opened Seqs

  /** `ExportableEvent`. `tts` is `None` when the field is absent; it is then
      printed as `undefined`. */
  datatype ExportableEvent = ExportableEvent(
    time: real,
    actionName: string,
    actionId: int,
    tts: Option<string>,
    eventKind: string,
    isFriendly: bool,
    sourceId: Option<int>)

  /** A sync rule: the window `[before, after]` and its two flags. */
  datatype SyncRule = SyncRule(windowBefore: real, windowAfter: real, syncOnce: bool, battleOnce: bool)

  function LowerAscii(s: string): (r: string)
    ensures |r| == |s|
    ensures forall i :: 0 <= i < |s| ==> r[i] == if 'A' <= s[i] <= 'Z' then (s[i] as int + 32) as char else s[i]
  {
    seq(|s|, i requires 0 <= i < |s| => if 'A' <= s[i] <= 'Z' then (s[i] as int + 32) as char else s[i])
  }

  /** `/^(?:攻击|attack|攻撃)$/i`: a generic auto-attack, compared without
      regard to the case of ASCII letters. */
  predicate IsAttack(name: string) {
    name == "攻击" || name == "攻撃" || LowerAscii(name) == "attack"
  }

  function TtsText(tts: Option<string>): string {
    match tts
    case None => "undefined"
    case Some(t) => t
  }

  function FriendlyLine(e: ExportableEvent, showNum: real -> string, enableTTS: bool): string {
    if enableTTS then showNum(e.time) + " \"<" + e.actionName + ">~\" tts \"" + TtsText(e.tts) + "\""
    else showNum(e.time) + " \"<" + e.actionName + ">~\""
  }

  /** `# time "name"`: a boss action kept only as a comment. */
  function CommentLine(e: ExportableEvent, showNum: real -> string): string {
    "# " + showNum(e.time) + " \"" + e.actionName + "\""
  }

  /** `StartsUsing` for a cast being started, `Ability` for anything else. */
  function RegexType(kind: string): (t: string)
    ensures t == "StartsUsing" <==> kind == "begincast"
    ensures t == "Ability" <==> kind != "begincast"
  {
    if kind == "begincast" then "StartsUsing" else "Ability"
  }

  function CoreLine(e: ExportableEvent, showNum: real -> string): string {
    showNum(e.time) + " \"" + e.actionName + "\" " + RegexType(e.eventKind)
      + " { id: \"" + IntToHexUpper(e.actionId) + "\" }"
  }

  function SyncLine(e: ExportableEvent, r: SyncRule, showNum: real -> string): string {
    CoreLine(e, showNum) + " window " + showNum(r.windowBefore) + "," + showNum(r.windowAfter)
      + (if r.syncOnce then " once" else "")
  }

  /** A boss event without a rule that is an auto-attack or a finished cast
      is written as a bare comment. */
  predicate IgnoredWithoutRule(e: ExportableEvent, rule: int -> Option<SyncRule>) {
    (IsAttack(e.actionName) || (e.eventKind == "cast" && rule(e.actionId).None?)) && rule(e.actionId).None?
  }

  /** The line pushed for `e`, given the ids already synced under a
      `battleOnce` rule. */
  function EventLine(
    e: ExportableEvent, synced: set<int>,
    rule: int -> Option<SyncRule>, showNum: real -> string, enableTTS: bool): string
  {
    if e.isFriendly then FriendlyLine(e, showNum, enableTTS)
    else if IgnoredWithoutRule(e, rule) then CommentLine(e, showNum)
    else
      match rule(e.actionId)
      case Some(r) =>
        if r.battleOnce && e.actionId in synced then CommentLine(e, showNum)
        else SyncLine(e, r, showNum)
      case None => "# " + CoreLine(e, showNum)
  }

  /** The event's id joins the synced set: a boss event with a `battleOnce` rule. */
  predicate Marks(e: ExportableEvent, rule: int -> Option<SyncRule>) {
    !e.isFriendly && rule(e.actionId).Some? && rule(e.actionId).value.battleOnce
  }

  datatype Rendered = Rendered(lines: seq<string>, synced: set<int>)

  /** The lines pushed for `events` and the final `battleSyncedIds`. */
  function Render(
    events: seq<ExportableEvent>,
    rule: int -> Option<SyncRule>, showNum: real -> string, enableTTS: bool): (r: Rendered)
    ensures |r.lines| == |events|
    decreases |events|
  {
    if events == [] then Rendered([], {})
    else
      var prev := Render(events[..|events| - 1], rule, showNum, enableTTS);
      var e := events[|events| - 1];
      Rendered(prev.lines + [EventLine(e, prev.synced, rule, showNum, enableTTS)],
               if Marks(e, rule) then prev.synced + {e.actionId} else prev.synced)
  }

  /** `lines.join(sep)`. */
  function Join(lines: seq<string>, sep: string): string
    decreases |lines|
  {
    if lines == [] then ""
    else if |lines| == 1 then lines[0]
    else Join(lines[..|lines| - 1], sep) + sep + lines[|lines| - 1]
  }

  /** `generateTimeline(events, enableTTS)`. */
  method GenerateTimeline(
    events: seq<ExportableEvent>, enableTTS: bool,
    rule: int -> Option<SyncRule>, showNum: real -> string) returns (text: string)
    ensures text == Join(Render(events, rule, showNum, enableTTS).lines, "\n")
  {
    var lines: seq<string> := [];
    var battleSyncedIds: set<int> := {};
    for i := 0 to |events|
      invariant Render(events[..i], rule, showNum, enableTTS) == Rendered(lines, battleSyncedIds)
    {
      assert events[..i + 1][..i] == events[..i];
      var event := events[i];
      if event.isFriendly {
        if enableTTS {
          lines := lines + [showNum(event.time) + " \"<" + event.actionName + ">~\" tts \"" + TtsText(event.tts) + "\""];
        } else {
          lines := lines + [showNum(event.time) + " \"<" + event.actionName + ">~\""];
        }
      } else {
        var r := rule(event.actionId);
        var isAttack := IsAttack(event.actionName);
        if (isAttack || (event.eventKind == "cast" && r.None?)) && r.None? {
          lines := lines + ["# " + showNum(event.time) + " \"" + event.actionName + "\""];
          continue;
        }
        var hexId := IntToHexUpper(event.actionId);
        var regexType := if event.eventKind == "begincast" then "StartsUsing" else "Ability";
        var coreLine := showNum(event.time) + " \"" + event.actionName + "\" " + regexType + " { id: \"" + hexId + "\" }";
        if r.Some? {
          if r.value.battleOnce {
            if event.actionId in battleSyncedIds {
              lines := lines + ["# " + showNum(event.time) + " \"" + event.actionName + "\""];
              continue;
            }
            battleSyncedIds := battleSyncedIds + {event.actionId};
          }
          var syncStr := if r.value.syncOnce then " once" else "";
          lines := lines + [coreLine + " window " + showNum(r.value.windowBefore) + "," + showNum(r.value.windowAfter) + syncStr];
        } else {
          lines := lines + ["# " + coreLine];
        }
      }
    }
    assert events[..|events|] == events;
    text := Join(lines, "\n");
  }

  /** The call with `enableTTS` left at its default, `false`. */
  method GenerateTimelineDefault(
    events: seq<ExportableEvent>,
    rule: int -> Option<SyncRule>, showNum: real -> string) returns (text: string)
    ensures text == Join(Render(events, rule, showNum, false).lines, "\n")
  {
    text := GenerateTimeline(events, false, rule, showNum);
  }

  // ---------------------------------------------------------------------------
  // Properties of the rendering.

  /** An id is in the synced set exactly when an earlier boss event with that
      id has a `battleOnce` rule. */
  lemma {:induction false} RenderSynced(
    events: seq<ExportableEvent>,
    rule: int -> Option<SyncRule>, showNum: real -> string, enableTTS: bool, id: int)
    ensures id in Render(events, rule, showNum, enableTTS).synced <==>
      exists j :: 0 <= j < |events| && Marks(events[j], rule) && events[j].actionId == id
    decreases |events|
  {
    if events != [] {
      var init := events[..|events| - 1];
      RenderSynced(init, rule, showNum, enableTTS, id);
      if exists j :: 0 <= j < |events| && Marks(events[j], rule) && events[j].actionId == id {
        var j :| 0 <= j < |events| && Marks(events[j], rule) && events[j].actionId == id;
        if j < |init| { assert init[j] == events[j]; }
      }
      if exists j :: 0 <= j < |init| && Marks(init[j], rule) && init[j].actionId == id {
        var j :| 0 <= j < |init| && Marks(init[j], rule) && init[j].actionId == id;
        assert events[j] == init[j];
      }
    }
  }

  /** Line `k` is the line of event `k` under the ids synced before it: one
      line per event, in input order. */
  lemma {:induction false} RenderLine(
    events: seq<ExportableEvent>,
    rule: int -> Option<SyncRule>, showNum: real -> string, enableTTS: bool, k: nat)
    requires k < |events|
    ensures Render(events, rule, showNum, enableTTS).lines[k] ==
      EventLine(events[k], Render(events[..k], rule, showNum, enableTTS).synced, rule, showNum, enableTTS)
    decreases |events|
  {
    var init := events[..|events| - 1];
    if k < |init| {
      RenderLine(init, rule, showNum, enableTTS, k);
      assert init[..k] == events[..k];
    } else {
      assert init == events[..k];
    }
  }

  /** A friendly event is written as `time "<name>~"`, with the tts part only
      when it is enabled. */
  lemma FriendlyEventLine(
    events: seq<ExportableEvent>,
    rule: int -> Option<SyncRule>, showNum: real -> string, enableTTS: bool, k: nat)
    requires k < |events| && events[k].isFriendly
    ensures var e := events[k];
      Render(events, rule, showNum, enableTTS).lines[k] ==
        showNum(e.time) + " \"<" + e.actionName + ">~\""
          + (if enableTTS then " tts \"" + TtsText(e.tts) + "\"" else "")
  {
    RenderLine(events, rule, showNum, enableTTS, k);
  }

  /** A boss event without a rule: a comment of time and name for an
      auto-attack or a finished cast, otherwise the commented-out sync line. */
  lemma UnruledEventLine(
    events: seq<ExportableEvent>,
    rule: int -> Option<SyncRule>, showNum: real -> string, enableTTS: bool, k: nat)
    requires k < |events| && !events[k].isFriendly && rule(events[k].actionId).None?
    ensures var e := events[k];
      Render(events, rule, showNum, enableTTS).lines[k] ==
        if IsAttack(e.actionName) || e.eventKind == "cast" then CommentLine(e, showNum)
        else "# " + CoreLine(e, showNum)
  {
    RenderLine(events, rule, showNum, enableTTS, k);
  }

  /** A boss event with a rule that is not `battleOnce` always gets its sync
      line, window and optional ` once` suffix. */
  lemma RuledEventLine(
    events: seq<ExportableEvent>,
    rule: int -> Option<SyncRule>, showNum: real -> string, enableTTS: bool, k: nat)
    requires k < |events| && !events[k].isFriendly
    requires rule(events[k].actionId).Some? && !rule(events[k].actionId).value.battleOnce
    ensures Render(events, rule, showNum, enableTTS).lines[k] ==
      SyncLine(events[k], rule(events[k].actionId).value, showNum)
  {
    RenderLine(events, rule, showNum, enableTTS, k);
  }

  /** Under a `battleOnce` rule only the first boss event with a given id is
      synced; every later one becomes a comment. */
  lemma BattleOnceFirstOnly(
    events: seq<ExportableEvent>,
    rule: int -> Option<SyncRule>, showNum: real -> string, enableTTS: bool, k: nat)
    requires k < |events| && Marks(events[k], rule)
    ensures var line := Render(events, rule, showNum, enableTTS).lines[k];
      var first := forall j :: 0 <= j < k ==> events[j].isFriendly || events[j].actionId != events[k].actionId;
      && (first ==> line == SyncLine(events[k], rule(events[k].actionId).value, showNum))
      && (!first ==> line == CommentLine(events[k], showNum))
  {
    RenderLine(events, rule, showNum, enableTTS, k);
    var before := events[..k];
    RenderSynced(before, rule, showNum, enableTTS, events[k].actionId);
    assert forall j :: 0 <= j < k ==> before[j] == events[j];
  }

  predicate IsNewline(c: char) { c == '\n' }

  /** When no line holds a line break, the joined text has exactly one line
      per element: `|lines| - 1` breaks. */
  lemma {:induction false} JoinLineBreaks(lines: seq<string>)
    requires |lines| >= 1
    requires forall k :: 0 <= k < |lines| ==> Count(lines[k], IsNewline) == 0
    ensures Count(Join(lines, "\n"), IsNewline) == |lines| - 1
    decreases |lines|
  {
    if |lines| > 1 {
      var init := lines[..|lines| - 1];
      JoinLineBreaks(init);
      CountAppend(Join(init, "\n"), "\n", IsNewline);
      CountAppend(Join(init, "\n") + "\n", lines[|lines| - 1], IsNewline);
      assert "\n"[..0] == [];
    }
  }
}
