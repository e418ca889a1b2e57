/** Timeline helpers (src/components/Timeline/timelineUtils.ts): event
    colours, label truncation, and the grouping of nearby events into
    clusters by their vertical position. */
module TimelineUtils {
  import opened Seqs

  const VisibleClusterBufferMs: real := 2000.0

  /** The cast colour: blue for a cast being started, violet otherwise. */
  function GetCastColor(kind: string): (c: string)
    ensures c == "#60A5FA" <==> kind == "begincast"
    ensures c == "#A78BFA" <==> kind != "begincast"
  {
    if kind == "begincast" then "#60A5FA" else "#A78BFA"
  }

  /** The damage colour: green when mitigated, red when not. */
  function GetDamageColor(isMitigated: bool): (c: string)
    ensures c == "#34D399" <==> isMitigated
    ensures c == "#F87171" <==> !isMitigated
  {
    if isMitigated then "#34D399" else "#F87171"
  }

  /** `text.substring(0, maxLength)` is clamped to `[0, |text|]`. */
  function Clamp(n: int, len: nat): (r: nat)
    ensures r <= len
    ensures 0 <= n <= len ==> r == n
  {
    if n < 0 then 0 else if n > len then len else n
  }

  /** `truncateText`: labels longer than `maxLength` keep their first
      `maxLength` characters followed by an ellipsis. */
  function TruncateText(text: string, maxLength: int): (r: string)
    ensures text == [] ==> r == []
    ensures |text| <= maxLength ==> r == text
    ensures |text| > maxLength && text != [] ==>
      && |r| == Clamp(maxLength, |text|) + 3
      && r[..|r| - 3] == text[..Clamp(maxLength, |text|)]
      && r[|r| - 3..] == "..."
    ensures 0 <= maxLength ==> |r| <= maxLength + 3
  {
    if text == [] then ""
    else if |text| <= maxLength then text
    else
      var r := text[..Clamp(maxLength, |text|)] + "...";
      assert r[..|r| - 3] == text[..Clamp(maxLength, |text|)];
      r
  }

  /** The vertical position of an event, `(tMs / MS_PER_SEC) * zoom`: seconds
      times pixels per second. */
  function Y<T>(tMs: T -> real, zoom: real, ev: T): real {
    (tMs(ev) / 1000.0) * zoom
  }

  datatype Cluster<T> = Cluster(events: seq<T>, startY: real, endY: real)

  /** The events of the clusters, one cluster after the other. */
  function AllEvents<T>(cs: seq<Cluster<T>>): seq<T>
    decreases |cs|
  {
    if cs == [] then [] else AllEvents(cs[..|cs| - 1]) + cs[|cs| - 1].events
  }

  /** A well-formed cluster: not empty, consecutive events closer than `gap`,
      and `startY` / `endY` the first and last positions. */
  ghost predicate GoodCluster<T>(c: Cluster<T>, tMs: T -> real, zoom: real, gap: real) {
    && |c.events| > 0
    && c.startY == Y(tMs, zoom, c.events[0])
    && c.endY == Y(tMs, zoom, c.events[|c.events| - 1])
    && forall k :: 0 < k < |c.events| ==> Y(tMs, zoom, c.events[k]) - Y(tMs, zoom, c.events[k - 1]) < gap
  }

  /** Each cluster after the first starts at least `gap` below the end of
      the one before it. */
  ghost predicate Separated<T>(cs: seq<Cluster<T>>, tMs: T -> real, zoom: real, gap: real) {
    forall c :: 0 < c < |cs| ==> |cs[c].events| > 0 && Y(tMs, zoom, cs[c].events[0]) - cs[c - 1].endY >= gap
  }

  /** Closing a well-formed cluster that starts far enough below the last
      one keeps the list well formed. */
  lemma PushCluster<T>(cs: seq<Cluster<T>>, c: Cluster<T>, tMs: T -> real, zoom: real, gap: real)
    requires forall i :: 0 <= i < |cs| ==> GoodCluster(cs[i], tMs, zoom, gap)
    requires Separated(cs, tMs, zoom, gap)
    requires GoodCluster(c, tMs, zoom, gap)
    requires |cs| > 0 ==> Y(tMs, zoom, c.events[0]) - cs[|cs| - 1].endY >= gap
    ensures AllEvents(cs + [c]) == AllEvents(cs) + c.events
    ensures forall i :: 0 <= i < |cs + [c]| ==> GoodCluster((cs + [c])[i], tMs, zoom, gap)
    ensures Separated(cs + [c], tMs, zoom, gap)
  {
    assert (cs + [c])[..|cs|] == cs;
  }

  /** The state of the loop of `clusterEvents`: the closed clusters are well
      formed and separated, and the open cluster is well formed and starts
      far enough below the last closed one. */
  ghost predicate Building<T>(clusters: seq<Cluster<T>>, current: seq<T>, startY: real, endY: real,
                              tMs: T -> real, zoom: real, gap: real) {
    && (forall c :: 0 <= c < |clusters| ==> GoodCluster(clusters[c], tMs, zoom, gap))
    && Separated(clusters, tMs, zoom, gap)
    && GoodCluster(Cluster(current, startY, endY), tMs, zoom, gap)
    && (|clusters| > 0 ==> Y(tMs, zoom, current[0]) - clusters[|clusters| - 1].endY >= gap)
  }

  /** An event closer than `gap` to the end of the open cluster extends it. */
  lemma ExtendCluster<T>(clusters: seq<Cluster<T>>, current: seq<T>, startY: real, endY: real, ev: T,
                         tMs: T -> real, zoom: real, gap: real)
    requires Building(clusters, current, startY, endY, tMs, zoom, gap)
    requires Y(tMs, zoom, ev) - endY < gap
    ensures Building(clusters, current + [ev], startY, Y(tMs, zoom, ev), tMs, zoom, gap)
    ensures AllEvents(clusters) + (current + [ev]) == (AllEvents(clusters) + current) + [ev]
  {
    var e := current + [ev];
    forall k | 0 < k < |e| ensures Y(tMs, zoom, e[k]) - Y(tMs, zoom, e[k - 1]) < gap {
      if k < |current| {
        assert e[k] == current[k] && e[k - 1] == current[k - 1];
      }
    }
    assert e[0] == current[0];
  }

  /** Closing the open cluster and opening one at an event `gap` or more
      below it. */
  lemma CloseCluster<T>(clusters: seq<Cluster<T>>, current: seq<T>, startY: real, endY: real, ev: T,
                        tMs: T -> real, zoom: real, gap: real)
    requires Building(clusters, current, startY, endY, tMs, zoom, gap)
    requires Y(tMs, zoom, ev) - endY >= gap
    ensures Building(clusters + [Cluster(current, startY, endY)], [ev], Y(tMs, zoom, ev), Y(tMs, zoom, ev), tMs, zoom, gap)
    ensures AllEvents(clusters + [Cluster(current, startY, endY)]) + [ev] == (AllEvents(clusters) + current) + [ev]
  {
    PushCluster(clusters, Cluster(current, startY, endY), tMs, zoom, gap);
  }

  /** The loop of `clusterEvents` over a non-empty list: every event but the
      first either extends the open cluster or closes it and opens a new one. */
  method ScanEvents<T>(events: seq<T>, tMs: T -> real, zoom: real, gap: real)
    returns (clusters: seq<Cluster<T>>, currentCluster: seq<T>, startY: real, endY: real)
    requires |events| > 0
    ensures AllEvents(clusters) + currentCluster == events
    ensures Building(clusters, currentCluster, startY, endY, tMs, zoom, gap)
  {
    clusters := [];
    currentCluster := [events[0]];
    startY := Y(tMs, zoom, events[0]);
    endY := startY;
    for i := 1 to |events|
      invariant AllEvents(clusters) + currentCluster == events[..i]
      invariant Building(clusters, currentCluster, startY, endY, tMs, zoom, gap)
    {
      var ev := events[i];
      var y := Y(tMs, zoom, ev);
      if y - endY < gap {
        ExtendCluster(clusters, currentCluster, startY, endY, ev, tMs, zoom, gap);
        currentCluster := currentCluster + [ev];
        endY := y;
      } else {
        CloseCluster(clusters, currentCluster, startY, endY, ev, tMs, zoom, gap);
        clusters := clusters + [Cluster(currentCluster, startY, endY)];
        currentCluster := [ev];
        startY := y;
        endY := y;
      }
      assert events[..i + 1] == events[..i] + [ev];
    }
    assert events[..|events|] == events;
  }

  /** `clusterEvents(events, zoom, gap)`: the list cut wherever one event is
      `gap` or more below the previous one. */
  method ClusterEvents<T>(events: seq<T>, tMs: T -> real, zoom: real, gap: real) returns (clusters: seq<Cluster<T>>)
    ensures events == [] ==> clusters == []
    ensures AllEvents(clusters) == events
    ensures forall c :: 0 <= c < |clusters| ==> GoodCluster(clusters[c], tMs, zoom, gap)
    ensures Separated(clusters, tMs, zoom, gap)
  {
    if |events| == 0 {
      return [];
    }
    var closed, currentCluster, startY, endY := ScanEvents(events, tMs, zoom, gap);
    PushCluster(closed, Cluster(currentCluster, startY, endY), tMs, zoom, gap);
    clusters := closed + [Cluster(currentCluster, startY, endY)];
  }

  /** The buffered visible window `[start - 2000, end + 2000]`. */
  function InWindow<T>(tMs: T -> real, start: real, end: real): T -> bool {
    e => start - VisibleClusterBufferMs <= tMs(e) <= end + VisibleClusterBufferMs
  }

  /** `getVisibleClusters`: the events within the buffered window, in their
      order, clustered. */
  method GetVisibleClusters<T>(events: seq<T>, tMs: T -> real, zoom: real, start: real, end: real, gap: real)
    returns (clusters: seq<Cluster<T>>)
    ensures AllEvents(clusters) == Filter(events, InWindow(tMs, start, end))
    ensures forall c :: 0 <= c < |clusters| ==> GoodCluster(clusters[c], tMs, zoom, gap)
    ensures Separated(clusters, tMs, zoom, gap)
  {
    var visible := Filter(events, InWindow(tMs, start, end));
    clusters := ClusterEvents(visible, tMs, zoom, gap);
  }

  /** The filter keeps exactly the events inside the buffered window. */
  lemma VisibleWindow<T>(events: seq<T>, tMs: T -> real, start: real, end: real)
    ensures var v := Filter(events, InWindow(tMs, start, end));
      && (forall i :: 0 <= i < |v| ==> start - 2000.0 <= tMs(v[i]) <= end + 2000.0)
      && (forall i :: 0 <= i < |events| && start - 2000.0 <= tMs(events[i]) <= end + 2000.0 ==> events[i] in v)
  {
    var v := Filter(events, InWindow(tMs, start, end));
    assert forall i :: 0 <= i < |v| ==> InWindow(tMs, start, end)(v[i]);
  }
}
