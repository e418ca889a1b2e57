/** `parseFFLogsUrl` (src/utils.ts): the input is trimmed, then matched
    against `/.*fflogs\.com\/reports\/([a-zA-Z0-9]+)(?:\?.*fight=([^&\s]+))?/`.
    The regular expression is modelled by the search its backtracking performs:
    the first line holding a match, the greedy `.*` picking the last place in
    that line where the report marker is followed by a letter or digit, and
    greedy runs for the report code and the fight id. */
module FFLogsUrl {
  import opened Wrappers

  /** JavaScript white space and line terminators (`trim` and `\s`). */
  predicate IsJsSpace(c: char) {
    var n := c as int;
    n == 0x09 || n == 0x0A || n == 0x0B || n == 0x0C || n == 0x0D || n == 0x20
    || n == 0xA0 || n == 0x1680 || (0x2000 <= n <= 0x200A) || n == 0x2028 || n == 0x2029
    || n == 0x202F || n == 0x205F || n == 0x3000 || n == 0xFEFF
  }

  /** The characters `.` does not match. */
  predicate IsLineTerminator(c: char) {
    var n := c as int;
    n == 0x0A || n == 0x0D || n == 0x2028 || n == 0x2029
  }

  predicate NotLineTerminator(c: char) { !IsLineTerminator(c) }

  predicate IsAlnum(c: char) { 'a' <= c <= 'z' || 'A' <= c <= 'Z' || '0' <= c <= '9' }

  /** `[^&\s]`. */
  predicate IsFightChar(c: char) { c != '&' && !IsJsSpace(c) }

  predicate AllSpace(s: string) { forall i :: 0 <= i < |s| ==> IsJsSpace(s[i]) }

  function TrimStart(s: string): (r: string)
    ensures r == [] || !IsJsSpace(r[0])
    decreases |s|
  {
    if s != [] && IsJsSpace(s[0]) then TrimStart(s[1..]) else s
  }

  function TrimEnd(s: string): (r: string)
    ensures r == [] || !IsJsSpace(r[|r| - 1])
    decreases |s|
  {
    if s != [] && IsJsSpace(s[|s| - 1]) then TrimEnd(s[..|s| - 1]) else s
  }

  /** `String.prototype.trim`. */
  function Trim(s: string): (r: string)
    ensures r == [] || (!IsJsSpace(r[0]) && !IsJsSpace(r[|r| - 1]))
  {
    var t := TrimStart(s);
    var r := TrimEnd(t);
    TrimEndKeepsStart(t);
    r
  }

  lemma {:induction false} TrimEndKeepsStart(t: string)
    requires t == [] || !IsJsSpace(t[0])
    ensures TrimEnd(t) == [] || TrimEnd(t)[0] == t[0]
    decreases |t|
  {
    if t != [] && IsJsSpace(t[|t| - 1]) {
      var init := t[..|t| - 1];
      if init != [] {
        assert init[0] == t[0];
      }
      TrimEndKeepsStart(init);
    }
  }

  const Marker: string := "fflogs.com/reports/"
  const FightKey: string := "fight="

  /** The report marker at `q`, followed by a letter or digit. */
  predicate HasCodeAt(s: string, q: int) {
    0 <= q && q + |Marker| < |s| && s[q..q + |Marker|] == Marker && IsAlnum(s[q + |Marker|])
  }

  /** `fight=` at `f`, followed by a character of `[^&\s]`. */
  predicate HasFightAt(s: string, f: int) {
    0 <= f && f + |FightKey| < |s| && s[f..f + |FightKey|] == FightKey && IsFightChar(s[f + |FightKey|])
  }

  /** The end of the run of characters satisfying `p` that starts at `i`. */
  function RunEnd(s: string, i: nat, p: char -> bool): (j: nat)
    requires i <= |s|
    ensures i <= j <= |s|
    ensures forall k :: i <= k < j ==> p(s[k])
    ensures j == |s| || !p(s[j])
    decreases |s| - i
  {
    if i == |s| || !p(s[i]) then i else RunEnd(s, i + 1, p)
  }

  /** The largest position in `[lo, hi)` satisfying `p`. */
  function LastIn(p: int -> bool, lo: int, hi: int): (r: Option<int>)
    ensures r.Some? ==> lo <= r.value < hi && p(r.value) && forall k :: r.value < k < hi ==> !p(k)
    ensures r.None? ==> forall k :: lo <= k < hi ==> !p(k)
    decreases hi - lo
  {
    if hi <= lo then None
    else if p(hi - 1) then Some(hi - 1)
    else LastIn(p, lo, hi - 1)
  }

  lemma RunEndAt(s: string, i: nat, p: char -> bool, j: nat)
    requires i <= j <= |s|
    requires forall k :: i <= k < j ==> p(s[k])
    requires j == |s| || !p(s[j])
    ensures RunEnd(s, i, p) == j
  {
  }

  lemma LastInAt(p: int -> bool, lo: int, hi: int, x: int)
    requires lo <= x < hi && p(x)
    requires forall k :: x < k < hi ==> !p(k)
    ensures LastIn(p, lo, hi) == Some(x)
  {
  }

  function CodeAt(s: string): int -> bool {
    q => HasCodeAt(s, q)
  }

  function FightAt(s: string): int -> bool {
    f => HasFightAt(s, f)
  }

  datatype ParsedUrl = ParsedUrl(reportCode: string, fightId: string)

  /** `f` is the last `fight=` in `[lo, hi)` followed by a character of
      `[^&\s]`: where the greedy `.*` of the fight group stops. */
  predicate LastFightIn(s: string, lo: int, hi: int, f: int) {
    lo <= f < hi && HasFightAt(s, f) && forall k :: f < k < hi ==> !HasFightAt(s, k)
  }

  /** `id` is the fight group of a report code ending at `codeEnd` on a line
      ending at `e`: the run of `[^&\s]` after the last `fight=` on the line
      when a `?` directly follows the code and such a `fight=` exists, and
      `last` otherwise. */
  ghost predicate FightGroup(s: string, codeEnd: int, e: int, id: string) {
    if 0 <= codeEnd < |s| && s[codeEnd] == '?' && exists f :: codeEnd + 1 <= f < e && HasFightAt(s, f)
    then exists f {:trigger LastFightIn(s, codeEnd + 1, e, f)} :: LastFightIn(s, codeEnd + 1, e, f) && id == s[f + |FightKey|..RunEnd(s, f + |FightKey|, IsFightChar)]
    else id == "last"
  }

  /** The fight group: the last `fight=` before the end `e` of the line, if
      a `?` directly follows the report code ending at `codeEnd`. A missing
      group reads as `last`. */
  function FightIdAfter(s: string, codeEnd: nat, e: nat): (id: string)
    requires codeEnd <= |s| && e <= |s|
    ensures WellFormedFightId(id)
    ensures !(codeEnd < |s| && s[codeEnd] == '?') ==> id == "last"
    ensures FightGroup(s, codeEnd, e, id)
  {
    if codeEnd < |s| && s[codeEnd] == '?' then
      match LastIn(FightAt(s), codeEnd + 1, e)
      case Some(f) =>
        assert HasFightAt(s, f) by { assert FightAt(s)(f); }
        assert LastFightIn(s, codeEnd + 1, e, f) by {
          forall k | f < k < e ensures !HasFightAt(s, k) {
            assert !FightAt(s)(k);
          }
        }
        var fEnd := RunEnd(s, f + |FightKey|, IsFightChar);
        var id := s[f + |FightKey|..fEnd];
        assert forall i :: 0 <= i < |id| ==> IsFightChar(id[i]) by {
          forall i | 0 <= i < |id| ensures IsFightChar(id[i]) {
            assert id[i] == s[f + |FightKey| + i];
          }
        }
        id
      case None =>
        assert forall f :: codeEnd + 1 <= f < e ==> !HasFightAt(s, f) by {
          forall f | codeEnd + 1 <= f < e ensures !HasFightAt(s, f) {
            assert !FightAt(s)(f);
          }
        }
        "last"
    else "last"
  }

  /** The groups of the match whose report marker is at `q`, on a line
      ending at `e`. */
  function MatchAt(s: string, q: nat, e: nat): ParsedUrl
    requires HasCodeAt(s, q) && e <= |s|
  {
    var codeEnd := RunEnd(s, q + |Marker|, IsAlnum);
    ParsedUrl(s[q + |Marker|..codeEnd], FightIdAfter(s, codeEnd, e))
  }

  /** The line-by-line search of a regular expression without the `s` flag:
      on the first line from `start` on that holds a position satisfying `p`,
      the last such position and the end of that line. */
  function SearchLines(s: string, start: nat, p: int -> bool): (r: Option<(nat, nat)>)
    requires start <= |s|
    ensures r.Some? ==> start <= r.value.0 < r.value.1 <= |s| && p(r.value.0)
    decreases |s| - start
  {
    var e := RunEnd(s, start, NotLineTerminator);
    match LastIn(p, start, e)
    case Some(q) => Some((q, e))
    case None => if e == |s| then None else SearchLines(s, e + 1, p)
  }

  /** Where the match found from the line starting at `start` on lies: the
      position of its report marker and the end of its line. */
  function FindFrom(s: string, start: nat): (r: Option<(nat, nat)>)
    requires start <= |s|
    ensures r.Some? ==> start <= r.value.0 < r.value.1 <= |s| && HasCodeAt(s, r.value.0)
  {
    var r := SearchLines(s, start, CodeAt(s));
    assert r.Some? ==> CodeAt(s)(r.value.0);
    r
  }

  /** The groups of the match found from the line starting at `start` on. */
  function MatchFrom(s: string, start: nat): Option<ParsedUrl>
    requires start <= |s|
  {
    match FindFrom(s, start)
    case Some((q, e)) => Some(MatchAt(s, q, e))
    case None => None
  }

  /** `parseFFLogsUrl(url)`; `None` stands for `null`. It never throws. */
  function ParseFFLogsUrl(url: string): Option<ParsedUrl> {
    MatchFrom(Trim(url), 0)
  }

  // ---------------------------------------------------------------------------

  /** The marker cannot start on a line terminator. */
  lemma NoCodeAtTerminator(s: string, e: nat)
    requires e < |s| && IsLineTerminator(s[e])
    ensures !HasCodeAt(s, e)
  {
    CodeStartsWithF(s, e);
  }

  lemma CodeStartsWithF(s: string, q: nat)
    ensures HasCodeAt(s, q) ==> s[q] == 'f'
  {
    if HasCodeAt(s, q) {
      assert s[q..q + |Marker|][0] == 'f';
    }
  }

  /** No position on a line terminator satisfies `p`. */
  predicate OffTerminators(s: string, p: int -> bool) {
    forall k :: 0 <= k < |s| && IsLineTerminator(s[k]) ==> !p(k)
  }

  /** No position in `[lo, hi)` satisfies `p`. */
  predicate NoneIn(p: int -> bool, lo: int, hi: int) {
    forall q :: lo <= q < hi ==> !p(q)
  }

  /** The search finds nothing exactly when no position from `start` on
      satisfies `p`. */
  lemma {:induction false} SearchLinesNone(s: string, start: nat, p: int -> bool)
    requires start <= |s| && OffTerminators(s, p)
    ensures SearchLines(s, start, p).None? <==> NoneIn(p, start, |s|)
    decreases |s| - start
  {
    var e := RunEnd(s, start, NotLineTerminator);
    if LastIn(p, start, e).None? && e < |s| {
      assert !p(e);
      SearchLinesNone(s, e + 1, p);
    }
  }

  /** A match at `q` on a line from `start` to `e`: `q` is the last position
      satisfying `p` on its line, `e` is that line's end, and every earlier
      position satisfying `p` lies on the same line. */
  predicate OnFirstLineOf(s: string, p: int -> bool, start: int, q: int, e: int) {
    && 0 <= start <= q < e <= |s|
    && (forall k :: q < k < e ==> !p(k))
    && (e == |s| || IsLineTerminator(s[e]))
    && (forall k :: q <= k < e ==> !IsLineTerminator(s[k]))
    && (forall k, j :: start <= k <= j < q && p(k) ==> !IsLineTerminator(s[j]))
  }

  /** A line without a match, before the lines searched next. */
  lemma FirstLineLater(s: string, p: int -> bool, start: nat, q: int, e2: int)
    requires start <= |s| && OffTerminators(s, p)
    requires LastIn(p, start, RunEnd(s, start, NotLineTerminator)).None?
    requires RunEnd(s, start, NotLineTerminator) < |s|
    requires OnFirstLineOf(s, p, RunEnd(s, start, NotLineTerminator) + 1, q, e2)
    ensures OnFirstLineOf(s, p, start, q, e2)
  {
    var e := RunEnd(s, start, NotLineTerminator);
    assert !p(e);
  }

  /** The search stops at the first line holding a match. */
  lemma {:induction false} SearchLinesFirstLine(s: string, p: int -> bool, start: nat, q: nat, e: nat)
    requires start <= |s| && OffTerminators(s, p) && SearchLines(s, start, p) == Some((q, e))
    ensures OnFirstLineOf(s, p, start, q, e)
    decreases |s| - start
  {
    var end := RunEnd(s, start, NotLineTerminator);
    if LastIn(p, start, end).None? {
      SearchLinesFirstLine(s, p, end + 1, q, e);
      FirstLineLater(s, p, start, q, e);
    }
  }

  /** The report marker never starts on a line terminator. */
  lemma CodeOffTerminators(s: string)
    ensures OffTerminators(s, CodeAt(s))
  {
    forall k | 0 <= k < |s| && IsLineTerminator(s[k]) ensures !CodeAt(s)(k) {
      NoCodeAtTerminator(s, k);
    }
  }

  /** No report marker followed by a letter or digit in `[lo, hi)`. */
  predicate NoCodeIn(s: string, lo: int, hi: int) {
    forall q :: lo <= q < hi ==> !HasCodeAt(s, q)
  }

  /** A match is found exactly when the marker followed by a letter or digit
      occurs somewhere from `start` on. */
  lemma FindFromNone(s: string, start: nat)
    requires start <= |s|
    ensures FindFrom(s, start).None? <==> NoCodeIn(s, start, |s|)
  {
    CodeOffTerminators(s);
    SearchLinesNone(s, start, CodeAt(s));
    assert NoneIn(CodeAt(s), start, |s|) <==> NoCodeIn(s, start, |s|) by {
      forall q | start <= q < |s| ensures CodeAt(s)(q) == HasCodeAt(s, q) { }
    }
  }

  /** The facts of `FindFromFirstLine`, for a match at `q` on a line from
      `start` to `e`. */
  predicate OnFirstLine(s: string, start: int, q: int, e: int) {
    && 0 <= start <= q < e <= |s|
    && (forall k :: q < k < e ==> !HasCodeAt(s, k))
    && (e == |s| || IsLineTerminator(s[e]))
    && (forall k :: q <= k < e ==> !IsLineTerminator(s[k]))
    && (forall k, j :: start <= k <= j < q && HasCodeAt(s, k) ==> !IsLineTerminator(s[j]))
  }

  /** The match is the last marker on its line, `e` is that line's end, and
      every marker before it lies on the same line: the line is the first one
      from `start` on that holds a marker. */
  lemma FindFromFirstLine(s: string, start: nat, q: nat, e: nat)
    requires start <= |s| && FindFrom(s, start) == Some((q, e))
    ensures OnFirstLine(s, start, q, e)
  {
    CodeOffTerminators(s);
    SearchLinesFirstLine(s, CodeAt(s), start, q, e);
    forall k | q < k < e ensures !HasCodeAt(s, k) {
      assert !CodeAt(s)(k);
    }
    forall k, j | start <= k <= j < q && HasCodeAt(s, k) ensures !IsLineTerminator(s[j]) {
      assert CodeAt(s)(k);
    }
  }

  /** `null` exactly when the trimmed input holds no `fflogs.com/reports/`
      followed by a letter or digit. */
  lemma ParseNullIff(url: string)
    ensures var t := Trim(url);
      ParseFFLogsUrl(url).None? <==> forall q :: 0 <= q < |t| ==> !HasCodeAt(t, q)
  {
    FindFromNone(Trim(url), 0);
    assert NoCodeIn(Trim(url), 0, |Trim(url)|) <==> forall q :: 0 <= q < |Trim(url)| ==> !HasCodeAt(Trim(url), q);
  }

  /** `code` is the whole run of letters and digits right after an
      occurrence of the marker at `q`. */
  predicate ReportCodeAt(t: string, q: int, code: string) {
    var m := |Marker|;
    && 0 <= q && q + m + |code| <= |t|
    && t[q..q + m] == Marker
    && t[q + m..q + m + |code|] == code
    && |code| >= 1
    && (forall i :: 0 <= i < |code| ==> IsAlnum(code[i]))
    && (q + m + |code| == |t| || !IsAlnum(t[q + m + |code|]))
  }

  /** The fight id is `last` unless a `?` directly follows the code. */
  predicate FightNeedsQuery(t: string, q: int, code: string, fightId: string) {
    var end := q + |Marker| + |code|;
    !(0 <= end < |t| && t[end] == '?') ==> fightId == "last"
  }

  /** A given fight id is a non-empty run without `&` or white space. */
  predicate WellFormedFightId(fightId: string) {
    fightId == "last" || (|fightId| >= 1 && forall i :: 0 <= i < |fightId| ==> IsFightChar(fightId[i]))
  }

  /** The fight id of a match is the fight group after its report code. */
  lemma MatchAtFightGroup(t: string, q: nat, e: nat)
    requires HasCodeAt(t, q) && e <= |t|
    ensures FightGroup(t, q + |Marker| + |MatchAt(t, q, e).reportCode|, e, MatchAt(t, q, e).fightId)
  {
    var codeEnd := RunEnd(t, q + |Marker|, IsAlnum);
    assert |MatchAt(t, q, e).reportCode| == codeEnd - (q + |Marker|);
    assert MatchAt(t, q, e).fightId == FightIdAfter(t, codeEnd, e);
  }

  lemma MatchAtFields(t: string, q: nat, e: nat)
    requires HasCodeAt(t, q) && e <= |t|
    ensures var r := MatchAt(t, q, e);
      ReportCodeAt(t, q, r.reportCode) && FightNeedsQuery(t, q, r.reportCode, r.fightId)
      && WellFormedFightId(r.fightId)
      && FightGroup(t, q + |Marker| + |r.reportCode|, e, r.fightId)
  {
    var codeEnd := RunEnd(t, q + |Marker|, IsAlnum);
    assert MatchAt(t, q, e).fightId == FightIdAfter(t, codeEnd, e);
    assert q + |Marker| + |MatchAt(t, q, e).reportCode| == codeEnd;
    MatchAtCode(t, q, e);
    MatchAtFightGroup(t, q, e);
  }

  /** The report code of a match is the whole run after its marker. */
  lemma MatchAtCode(t: string, q: nat, e: nat)
    requires HasCodeAt(t, q) && e <= |t|
    ensures ReportCodeAt(t, q, MatchAt(t, q, e).reportCode)
  {
    var m := |Marker|;
    var codeEnd := RunEnd(t, q + m, IsAlnum);
    var code := t[q + m..codeEnd];
    assert MatchAt(t, q, e).reportCode == code;
    assert q + m + |code| == codeEnd;
    forall i | 0 <= i < |code| ensures IsAlnum(code[i]) {
      assert code[i] == t[q + m + i];
    }
  }

  /** The report code is the whole run of letters and digits after the
      marker that `FindFrom` picks in the trimmed input; the fight id is the
      fight group of that line (`last` unless a `?` directly follows the code),
      a non-empty run of characters other than `&` and white space. */
  lemma ParsedFields(url: string)
    requires ParseFFLogsUrl(url).Some?
    ensures var t, r := Trim(url), ParseFFLogsUrl(url).value;
      && (exists q :: ReportCodeAt(t, q, r.reportCode) && FightNeedsQuery(t, q, r.reportCode, r.fightId))
      && WellFormedFightId(r.fightId)
      && FindFrom(t, 0).Some?
      && ReportCodeAt(t, FindFrom(t, 0).value.0, r.reportCode)
      && FightGroup(t, FindFrom(t, 0).value.0 + |Marker| + |r.reportCode|, FindFrom(t, 0).value.1, r.fightId)
  {
    var t := Trim(url);
    var (q, e) := FindFrom(t, 0).value;
    assert ParseFFLogsUrl(url) == Some(MatchAt(t, q, e));
    MatchAtFields(t, q, e);
  }

  // ---------------------------------------------------------------------------
  // A report link as the site writes it.

  const UrlPrefix: string := "https://www."
  const FightQuery: string := "?fight="

  lemma PrefixChars()
    ensures forall i :: 0 <= i < |UrlPrefix| ==> UrlPrefix[i] != 'f' && !IsLineTerminator(UrlPrefix[i])
    ensures !IsJsSpace(UrlPrefix[0])
  {
  }

  lemma MarkerChars()
    ensures forall i :: 0 <= i < |Marker| ==> !IsLineTerminator(Marker[i])
    ensures forall i :: 7 <= i < |Marker| ==> Marker[i] != '.'
    ensures Marker[6] == '.'
  {
  }

  lemma QueryChars()
    ensures forall i :: 0 <= i < |FightQuery| ==> !IsLineTerminator(FightQuery[i]) && FightQuery[i] != '.'
    ensures forall i :: 0 <= i < |FightQuery| - 1 ==> FightQuery[i] != '='
    ensures FightQuery[0] == '?' && FightQuery[1..] == FightKey && FightKey[5] == '='
  {
  }

  /** The report code is alphanumeric; the fight id is a run of `[^&\s]`
      free of `.` and `=`. */
  predicate CanonicalParts(code: string, id: string) {
    && |code| >= 1 && (forall i :: 0 <= i < |code| ==> IsAlnum(code[i]))
    && |id| >= 1 && (forall i :: 0 <= i < |id| ==> IsFightChar(id[i]) && id[i] != '.' && id[i] != '=')
  }

  /** `u` is `UrlPrefix + Marker + code + FightQuery + id`, piece by piece. */
  predicate CanonicalShape(u: string, code: string, id: string) {
    var c := |UrlPrefix| + |Marker|;
    var ce := c + |code|;
    && |u| == ce + |FightQuery| + |id|
    && u[..|UrlPrefix|] == UrlPrefix
    && u[|UrlPrefix|..c] == Marker
    && u[c..ce] == code
    && u[ce..ce + |FightQuery|] == FightQuery
    && u[ce + |FightQuery|..] == id
  }

  lemma CanonicalShapeOf(code: string, id: string)
    ensures CanonicalShape(UrlPrefix + Marker + code + FightQuery + id, code, id)
  {
    var u := UrlPrefix + Marker + code + FightQuery + id;
    var c := |UrlPrefix| + |Marker|;
    var ce := c + |code|;
    assert u[..|UrlPrefix|] == UrlPrefix;
    assert u[|UrlPrefix|..c] == Marker;
    assert u[c..ce] == code;
    assert u[ce..ce + |FightQuery|] == FightQuery;
    assert u[ce + |FightQuery|..] == id;
  }

  lemma CanonicalNoTerminator(u: string, code: string, id: string)
    requires CanonicalParts(code, id) && CanonicalShape(u, code, id)
    ensures forall k :: 0 <= k < |u| ==> !IsLineTerminator(u[k])
  {
    PrefixChars();
    MarkerChars();
    QueryChars();
    var c := |UrlPrefix| + |Marker|;
    var ce := c + |code|;
    forall k | 0 <= k < |u| ensures !IsLineTerminator(u[k]) {
      if k < |UrlPrefix| {
        assert u[k] == u[..|UrlPrefix|][k];
      } else if k < c {
        assert u[k] == u[|UrlPrefix|..c][k - |UrlPrefix|];
      } else if k < ce {
        assert u[k] == u[c..ce][k - c];
      } else if k < ce + |FightQuery| {
        assert u[k] == u[ce..ce + |FightQuery|][k - ce];
      } else {
        assert u[k] == u[ce + |FightQuery|..][k - ce - |FightQuery|];
      }
    }
  }

  lemma CanonicalTrim(u: string, code: string, id: string)
    requires CanonicalParts(code, id) && CanonicalShape(u, code, id)
    ensures Trim(u) == u
  {
    PrefixChars();
    assert u[0] == u[..|UrlPrefix|][0];
    assert TrimStart(u) == u;
    var ce := |UrlPrefix| + |Marker| + |code|;
    assert u[|u| - 1] == u[ce + |FightQuery|..][|id| - 1];
    assert TrimEnd(u) == u;
  }

  /** No `.` after the one in the marker. */
  lemma CanonicalDots(u: string, code: string, id: string)
    requires CanonicalParts(code, id) && CanonicalShape(u, code, id)
    ensures forall j :: |UrlPrefix| + 6 < j < |u| ==> u[j] != '.'
  {
    MarkerChars();
    QueryChars();
    var c := |UrlPrefix| + |Marker|;
    var ce := c + |code|;
    forall j | |UrlPrefix| + 6 < j < |u| ensures u[j] != '.' {
      if j < c {
        assert u[j] == u[|UrlPrefix|..c][j - |UrlPrefix|];
      } else if j < ce {
        assert u[j] == u[c..ce][j - c];
      } else if j < ce + |FightQuery| {
        assert u[j] == u[ce..ce + |FightQuery|][j - ce];
      } else {
        assert u[j] == u[ce + |FightQuery|..][j - ce - |FightQuery|];
      }
    }
  }

  lemma CodeHasDot(s: string, k: int)
    ensures HasCodeAt(s, k) ==> s[k + 6] == '.'
  {
    MarkerChars();
    if HasCodeAt(s, k) {
      assert s[k..k + |Marker|][6] == s[k + 6];
    }
  }

  lemma FightHasEquals(s: string, f: int)
    ensures HasFightAt(s, f) ==> s[f + 5] == '='
  {
    QueryChars();
    if HasFightAt(s, f) {
      assert s[f..f + |FightKey|][5] == s[f + 5];
    }
  }

  /** The marker, followed by the code, occurs once, after the prefix. */
  lemma CanonicalOneMarker(u: string, code: string, id: string)
    requires CanonicalParts(code, id) && CanonicalShape(u, code, id)
    ensures HasCodeAt(u, |UrlPrefix|)
    ensures forall k :: 0 <= k < |u| && k != |UrlPrefix| ==> !HasCodeAt(u, k)
  {
    PrefixChars();
    MarkerChars();
    var c := |UrlPrefix| + |Marker|;
    assert u[c] == u[c..c + |code|][0];
    CanonicalDots(u, code, id);
    forall k | 0 <= k < |u| && k != |UrlPrefix| ensures !HasCodeAt(u, k) {
      if k < |UrlPrefix| {
        assert u[k] == u[..|UrlPrefix|][k];
        CodeStartsWithF(u, k);
      } else {
        CodeHasDot(u, k);
      }
    }
  }

  lemma CanonicalFind(u: string, code: string, id: string)
    requires CanonicalParts(code, id) && CanonicalShape(u, code, id)
    ensures FindFrom(u, 0) == Some((|UrlPrefix|, |u|))
  {
    CanonicalOneMarker(u, code, id);
    CanonicalNoTerminator(u, code, id);
    FindFromNone(u, 0);
    assert !NoCodeIn(u, 0, |u|);
    var (q, e) := FindFrom(u, 0).value;
    assert q == |UrlPrefix|;
  }

  /** The only `fight=` followed by a fight character is the one in the query. */
  lemma CanonicalOneFight(u: string, code: string, id: string)
    requires CanonicalParts(code, id) && CanonicalShape(u, code, id)
    ensures var ce := |UrlPrefix| + |Marker| + |code|;
      && HasFightAt(u, ce + 1)
      && forall f :: ce + 1 < f < |u| ==> !HasFightAt(u, f)
  {
    QueryChars();
    var ce := |UrlPrefix| + |Marker| + |code|;
    var fs := ce + |FightQuery|;
    assert u[ce + 1..fs] == u[ce..fs][1..];
    assert u[fs] == u[fs..][0];
    assert forall j :: ce + 6 < j < |u| ==> u[j] != '=' by {
      forall j | ce + 6 < j < |u| ensures u[j] != '=' {
        assert u[j] == u[fs..][j - fs];
      }
    }
    forall f | ce + 1 < f < |u| ensures !HasFightAt(u, f) {
      FightHasEquals(u, f);
    }
  }

  /** The report code's run ends at the `?`. */
  lemma CanonicalCodeEnd(u: string, code: string, id: string)
    requires CanonicalParts(code, id) && CanonicalShape(u, code, id)
    ensures RunEnd(u, |UrlPrefix| + |Marker|, IsAlnum) == |UrlPrefix| + |Marker| + |code|
  {
    QueryChars();
    var c := |UrlPrefix| + |Marker|;
    var ce := c + |code|;
    assert u[ce] == u[ce..ce + |FightQuery|][0];
    assert forall k :: c <= k < ce ==> IsAlnum(u[k]) by {
      forall k | c <= k < ce ensures IsAlnum(u[k]) {
        assert u[k] == u[c..ce][k - c];
      }
    }
    RunEndAt(u, c, IsAlnum, ce);
  }

  /** The fight group is the whole run after the query's `fight=`. */
  lemma CanonicalFightId(u: string, code: string, id: string)
    requires CanonicalParts(code, id) && CanonicalShape(u, code, id)
    ensures FightIdAfter(u, |UrlPrefix| + |Marker| + |code|, |u|) == id
  {
    QueryChars();
    var ce := |UrlPrefix| + |Marker| + |code|;
    var fs := ce + |FightQuery|;
    assert u[ce] == u[ce..fs][0];
    CanonicalOneFight(u, code, id);
    OnlyFight(u, ce + 1);
    FightRunToEnd(u, fs, id);
    FightIdAt(u, ce, |u|, ce + 1);
  }

  /** The fight id taken from the `fight=` at `f`. */
  lemma FightIdAt(s: string, codeEnd: nat, e: nat, f: int)
    requires codeEnd < |s| && e <= |s| && s[codeEnd] == '?'
    requires LastIn(FightAt(s), codeEnd + 1, e) == Some(f)
    ensures f + |FightKey| <= |s|
    ensures FightIdAfter(s, codeEnd, e) == s[f + |FightKey|..RunEnd(s, f + |FightKey|, IsFightChar)]
  {
    assert FightAt(s)(f);
  }

  /** The last `fight=` is the only one. */
  lemma OnlyFight(u: string, x: int)
    requires 0 <= x < |u| && HasFightAt(u, x)
    requires forall f :: x < f < |u| ==> !HasFightAt(u, f)
    ensures LastIn(FightAt(u), x, |u|) == Some(x)
  {
    assert FightAt(u)(x);
    assert forall g :: x < g < |u| ==> !FightAt(u)(g) by {
      forall g | x < g < |u| ensures !FightAt(u)(g) {
        assert !HasFightAt(u, g);
      }
    }
    LastInAt(FightAt(u), x, |u|, x);
  }

  /** A run of fight characters that reaches the end of the text. */
  lemma FightRunToEnd(u: string, fs: nat, id: string)
    requires fs <= |u| && u[fs..] == id
    requires forall i :: 0 <= i < |id| ==> IsFightChar(id[i])
    ensures RunEnd(u, fs, IsFightChar) == |u|
  {
    forall k | fs <= k < |u| ensures IsFightChar(u[k]) {
      assert u[k] == id[k - fs];
    }
    RunEndAt(u, fs, IsFightChar, |u|);
  }

  lemma CanonicalMatch(u: string, code: string, id: string)
    requires CanonicalParts(code, id) && CanonicalShape(u, code, id)
    requires HasCodeAt(u, |UrlPrefix|)
    ensures MatchAt(u, |UrlPrefix|, |u|) == ParsedUrl(code, id)
  {
    CanonicalCodeEnd(u, code, id);
    CanonicalFightId(u, code, id);
  }

  /** A report link as the site writes it, with a fight id free of `.` and
      `=`, yields its report code and fight id. */
  lemma CanonicalUrl(code: string, id: string)
    requires CanonicalParts(code, id)
    ensures ParseFFLogsUrl("https://www.fflogs.com/reports/" + code + "?fight=" + id) == Some(ParsedUrl(code, id))
  {
    var u := UrlPrefix + Marker + code + FightQuery + id;
    assert "https://www.fflogs.com/reports/" + code + "?fight=" + id == u;
    CanonicalShapeOf(code, id);
    CanonicalTrim(u, code, id);
    CanonicalFind(u, code, id);
    CanonicalOneMarker(u, code, id);
    CanonicalMatch(u, code, id);
  }

  lemma {:induction false} TrimStartSkipsSpace(a: string, x: string)
    requires AllSpace(a)
    ensures TrimStart(a + x) == TrimStart(x)
    decreases |a|
  {
    if a == [] {
      assert a + x == x;
    } else {
      assert IsJsSpace(a[0]);
      assert (a + x)[0] == a[0];
      assert TrimStart(a + x) == TrimStart((a + x)[1..]);
      assert (a + x)[1..] == a[1..] + x;
      TrimStartSkipsSpace(a[1..], x);
    }
  }

  lemma {:induction false} TrimStartAppend(s: string, b: string)
    requires AllSpace(b)
    ensures TrimStart(s + b) == if TrimStart(s) == [] then [] else TrimStart(s) + b
    decreases |s|
  {
    if s == [] {
      assert s + b == b;
      TrimStartSkipsSpace(b, []);
      assert b + [] == b;
    } else if IsJsSpace(s[0]) {
      assert (s + b)[1..] == s[1..] + b;
      TrimStartAppend(s[1..], b);
    }
  }

  lemma {:induction false} TrimEndSkipsSpace(x: string, b: string)
    requires AllSpace(b)
    ensures TrimEnd(x + b) == TrimEnd(x)
    decreases |b|
  {
    if b == [] {
      assert x + b == x;
    } else {
      assert (x + b)[..|x + b| - 1] == x + b[..|b| - 1];
      TrimEndSkipsSpace(x, b[..|b| - 1]);
    }
  }

  /** White space around the input does not change the result. */
  lemma ParseIgnoresSurroundingSpace(a: string, url: string, b: string)
    requires AllSpace(a) && AllSpace(b)
    ensures ParseFFLogsUrl(a + url + b) == ParseFFLogsUrl(url)
  {
    assert a + url + b == a + (url + b);
    TrimStartSkipsSpace(a, url + b);
    TrimStartAppend(url, b);
    if TrimStart(url) != [] {
      TrimEndSkipsSpace(TrimStart(url), b);
    }
    assert Trim(a + url + b) == Trim(url);
  }
}
