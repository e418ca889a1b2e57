/** The top-banner queue of the editor's store (src/store/index.ts): at most
    `BANNER_MAX` banners, each with an id taken from the module-level counter
    `bannerSeq`. */
module Banners {
  import opened Wrappers
  import opened Types
  import opened Seqs

  const BannerDefaultDurationMs: real := 3000.0
  const BannerMax: nat := 4

  /** `options?.tone ?? 'info'`. */
  function ToneOf(options: Option<BannerOptions>): BannerTone {
    if options.Some? && options.value.tone.Some? then options.value.tone.value else Info
  }

  /** `options?.durationMs ?? BANNER_DEFAULT_DURATION_MS`: `??` replaces both
      `undefined` and `null`, so the result is always a number. */
  function DurationOf(options: Option<BannerOptions>): (d: real)
    ensures options.Some? && options.value.durationMs.Number? ==> d == options.value.durationMs.value
    ensures options.None? || !options.value.durationMs.Number? ==> d == BannerDefaultDurationMs
  {
    if options.Some? && options.value.durationMs.Number? then options.value.durationMs.value
    else BannerDefaultDurationMs
  }

  /** `findIndex((item) => item.durationMs !== null)`. */
  function FirstTimed(bs: seq<BannerItem>): (r: int)
    ensures -1 <= r < |bs|
    ensures r >= 0 ==> bs[r].durationMs.Some? && forall j :: 0 <= j < r ==> bs[j].durationMs.None?
    ensures r == -1 <==> forall j :: 0 <= j < |bs| ==> bs[j].durationMs.None?
    decreases |bs|
  {
    if bs == [] then -1
    else if bs[0].durationMs.Some? then 0
    else
      var r := FirstTimed(bs[1..]);
      assert forall j :: 1 <= j < |bs| ==> bs[j] == bs[1..][j - 1];
      if r == -1 then -1 else r + 1
  }

  /** `filter((_, i) => i !== index)`. */
  function RemoveAt<T>(s: seq<T>, index: nat): (r: seq<T>)
    requires index < |s|
    ensures |r| == |s| - 1
    ensures forall i :: 0 <= i < index ==> r[i] == s[i]
    ensures forall i :: index <= i < |r| ==> r[i] == s[i + 1]
  {
    s[..index] + s[index + 1..]
  }

  /** The banner `pushBanner` appends. */
  function NewBanner(id: int, message: string, options: Option<BannerOptions>): BannerItem {
    BannerItem(id, message, ToneOf(options), false, Some(DurationOf(options)))
  }

  /** The queue after `pushBanner` with id `id`: the new banner is appended;
      past `BANNER_MAX` the first banner with a duration is evicted, or the
      first banner when none has one. */
  function Pushed(banners: seq<BannerItem>, id: int, message: string, options: Option<BannerOptions>): (r: seq<BannerItem>)
    ensures |r| == if |banners| >= BannerMax then |banners| else |banners| + 1
  {
    var next := banners + [NewBanner(id, message, options)];
    if |next| > BannerMax then
      var found := FirstTimed(next);
      RemoveAt(next, if found == -1 then 0 else found)
    else next
  }

  /** The queue after `closeBanner(id)`: the banner with that id is marked as
      closing; without a `window` it is removed at once (with one, a timer
      removes it later). */
  function Closed(banners: seq<BannerItem>, id: int, hasWindow: bool): (r: seq<BannerItem>)
    ensures hasWindow ==> |r| == |banners|
  {
    var marked := seq(|banners|, i requires 0 <= i < |banners| =>
      if banners[i].id == id then banners[i].(closing := true) else banners[i]);
    if hasWindow then marked else Filter(marked, (b: BannerItem) => b.id != id)
  }

  /** The ids increase along the queue. */
  predicate IdsIncreasing(bs: seq<BannerItem>) {
    forall i, j :: 0 <= i < j < |bs| ==> bs[i].id < bs[j].id
  }

  /** Every id lies in `1..hi`. */
  predicate IdsWithin(bs: seq<BannerItem>, hi: int) {
    forall i :: 0 <= i < |bs| ==> 1 <= bs[i].id <= hi
  }

  /** The queue holds at most `BANNER_MAX` banners, their ids increase along
      the queue and none is above the last id handed out. */
  predicate BannersValid(banners: seq<BannerItem>, bannerSeq: int) {
    |banners| <= BannerMax && IdsIncreasing(banners) && IdsWithin(banners, bannerSeq)
  }

  lemma RemoveAtKeepsIds(bs: seq<BannerItem>, index: nat, hi: int)
    requires index < |bs| && IdsIncreasing(bs) && IdsWithin(bs, hi)
    ensures IdsIncreasing(RemoveAt(bs, index)) && IdsWithin(RemoveAt(bs, index), hi)
  {
    var r := RemoveAt(bs, index);
    forall i, j | 0 <= i < j < |r| ensures r[i].id < r[j].id {
      var i', j' := if i < index then i else i + 1, if j < index then j else j + 1;
      assert r[i] == bs[i'] && r[j] == bs[j'];
    }
    forall i | 0 <= i < |r| ensures 1 <= r[i].id <= hi {
      assert r[i] == bs[if i < index then i else i + 1];
    }
  }

  /** The queue stays within `BANNER_MAX`, and the new id is larger than every
      id in the queue. */
  lemma PushedValid(banners: seq<BannerItem>, bannerSeq: int, message: string, options: Option<BannerOptions>)
    requires BannersValid(banners, bannerSeq)
    requires bannerSeq >= 0
    ensures BannersValid(Pushed(banners, bannerSeq + 1, message, options), bannerSeq + 1)
    ensures forall b :: b in banners ==> b.id < bannerSeq + 1
  {
    forall b | b in banners ensures b.id < bannerSeq + 1 {
      var k :| 0 <= k < |banners| && banners[k] == b;
    }
    var next := banners + [NewBanner(bannerSeq + 1, message, options)];
    SnocKeepsIds(banners, NewBanner(bannerSeq + 1, message, options), bannerSeq);
    if |next| > BannerMax {
      var found := FirstTimed(next);
      RemoveAtKeepsIds(next, if found == -1 then 0 else found, bannerSeq + 1);
    }
  }

  /** `++bannerSeq` and the `set` that appends the banner: the new id is
      above every id in the queue, and the queue stays valid. */
  method PushQueue(banners: seq<BannerItem>, bannerSeq: nat, message: string, options: Option<BannerOptions>)
    returns (next: seq<BannerItem>, id: nat)
    requires BannersValid(banners, bannerSeq)
    ensures id == bannerSeq + 1
    ensures forall b :: b in banners ==> b.id < id
    ensures next == Pushed(banners, id, message, options)
    ensures BannersValid(next, id)
  {
    id := bannerSeq + 1;
    PushedValid(banners, bannerSeq, message, options);
    next := Pushed(banners, id, message, options);
  }

  /** Appending a banner whose id is the next one keeps the ids increasing. */
  lemma SnocKeepsIds(banners: seq<BannerItem>, b: BannerItem, hi: int)
    requires IdsIncreasing(banners) && IdsWithin(banners, hi) && b.id == hi + 1 && hi >= 0
    ensures IdsIncreasing(banners + [b]) && IdsWithin(banners + [b], hi + 1)
  {
    var next := banners + [b];
    forall i, j | 0 <= i < j < |next| ensures next[i].id < next[j].id {
      assert next[i] == banners[i];
      if j < |banners| { assert next[j] == banners[j]; }
    }
    forall i | 0 <= i < |next| ensures 1 <= next[i].id <= hi + 1 {
      if i < |banners| { assert next[i] == banners[i]; }
    }
  }

  /** Every banner `pushBanner` creates has a duration, so in a queue built by
      it eviction always drops the oldest banner. */
  lemma PushedDropsOldest(banners: seq<BannerItem>, id: int, message: string, options: Option<BannerOptions>)
    requires |banners| >= BannerMax
    requires forall i :: 0 <= i < |banners| ==> banners[i].durationMs.Some?
    ensures Pushed(banners, id, message, options) == banners[1..] + [NewBanner(id, message, options)]
  {
    var next := banners + [NewBanner(id, message, options)];
    assert next[0] == banners[0];
    assert FirstTimed(next) == 0;
  }

  /** The new banner ends the queue unless the queue is full of banners
      without a duration; then the new banner itself is the one evicted. */
  lemma PushedKeepsNew(banners: seq<BannerItem>, id: int, message: string, options: Option<BannerOptions>)
    ensures var r := Pushed(banners, id, message, options);
      if |banners| >= BannerMax && forall i :: 0 <= i < |banners| ==> banners[i].durationMs.None?
      then r == banners
      else r[|r| - 1] == NewBanner(id, message, options)
  {
    var next := banners + [NewBanner(id, message, options)];
    if |next| > BannerMax {
      var found := FirstTimed(next);
      if forall i :: 0 <= i < |banners| ==> banners[i].durationMs.None? {
        assert forall j :: 0 <= j < |banners| ==> next[j].durationMs.None?;
        assert next[|banners|].durationMs.Some?;
        assert found == |banners|;
        assert RemoveAt(next, found) == banners;
      } else {
        var i :| 0 <= i < |banners| && banners[i].durationMs.Some?;
        assert next[i].durationMs.Some?;
        assert found != -1 && found <= i;
      }
    }
  }

  /** Closing marks only the banner with that id; every field but `closing`
      stays as it was. */
  lemma ClosedMarksOnlyId(banners: seq<BannerItem>, id: int)
    ensures var r := Closed(banners, id, true);
      forall i :: 0 <= i < |banners| ==>
        && r[i].(closing := banners[i].closing) == banners[i]
        && (r[i].closing <==> banners[i].closing || banners[i].id == id)
  {
  }

  /** Filtering keeps the ids increasing and in range. */
  lemma PrefixKeepsIds(bs: seq<BannerItem>, hi: int)
    requires bs != [] && IdsIncreasing(bs) && IdsWithin(bs, hi)
    ensures IdsIncreasing(bs[..|bs| - 1]) && IdsWithin(bs[..|bs| - 1], hi)
    ensures forall b :: b in bs[..|bs| - 1] ==> b.id < bs[|bs| - 1].id
  {
    var init := bs[..|bs| - 1];
    forall i, j | 0 <= i < j < |init| ensures init[i].id < init[j].id {
      assert init[i] == bs[i] && init[j] == bs[j];
    }
    forall i | 0 <= i < |init| ensures 1 <= init[i].id <= hi {
      assert init[i] == bs[i];
    }
    forall b | b in init ensures b.id < bs[|bs| - 1].id {
      var k :| 0 <= k < |init| && init[k] == b;
      assert bs[k] == b;
    }
  }

  lemma AppendKeepsIds(bs: seq<BannerItem>, last: BannerItem, hi: int)
    requires IdsIncreasing(bs) && IdsWithin(bs, hi) && 1 <= last.id <= hi
    requires forall b :: b in bs ==> b.id < last.id
    ensures IdsIncreasing(bs + [last]) && IdsWithin(bs + [last], hi)
  {
    var r := bs + [last];
    forall i, j | 0 <= i < j < |r| ensures r[i].id < r[j].id {
      assert r[i] == bs[i];
      if j < |bs| { assert r[j] == bs[j]; }
    }
    forall i | 0 <= i < |r| ensures 1 <= r[i].id <= hi {
      if i < |bs| { assert r[i] == bs[i]; }
    }
  }

  lemma {:induction false} FilterKeepsIds(bs: seq<BannerItem>, p: BannerItem -> bool, hi: int)
    requires IdsIncreasing(bs) && IdsWithin(bs, hi)
    ensures IdsIncreasing(Filter(bs, p)) && IdsWithin(Filter(bs, p), hi)
    decreases |bs|
  {
    if bs != [] {
      var init, last := bs[..|bs| - 1], bs[|bs| - 1];
      PrefixKeepsIds(bs, hi);
      FilterKeepsIds(init, p, hi);
      if p(last) {
        var r' := Filter(init, p);
        assert forall b :: b in r' ==> b in init;
        AppendKeepsIds(r', last, hi);
      }
    }
  }

  /** Closing keeps the queue valid; without a `window` the banner is gone. */
  lemma ClosedValid(banners: seq<BannerItem>, bannerSeq: int, id: int, hasWindow: bool)
    requires BannersValid(banners, bannerSeq)
    ensures BannersValid(Closed(banners, id, hasWindow), bannerSeq)
    ensures !hasWindow ==> forall b :: b in Closed(banners, id, hasWindow) ==> b.id != id
  {
    var marked := Closed(banners, id, true);
    assert forall i :: 0 <= i < |marked| ==> marked[i].id == banners[i].id;
    assert IdsIncreasing(marked) && IdsWithin(marked, bannerSeq);
    if !hasWindow {
      FilterKeepsIds(marked, (b: BannerItem) => b.id != id, bannerSeq);
    }
  }
}
