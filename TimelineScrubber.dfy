/**
 * The timeline scrubber beside the gallery: one pass over the items builds the
 * markers (a DATE marker at each change of day, and TIME or TICK markers spaced
 * by distance), and a backward scan over the markers' on-screen positions picks
 * the active one.
 */
module TimelineScrubber {
  import opened Wrappers
  import opened Types

  datatype MarkerKind = DateMarker | TimeMarker | Tick

  /** `{ index, label, type }`: the item a marker points at, and its label. */
  datatype Marker = Marker(index: nat, text: string, kind: MarkerKind)

  /** The day label and the time label of a parsed date (`toLocaleDateString`, `toLocaleTimeString`). */
  datatype DayTime = DayTime(day: string, time: string)

  /** The smallest distance from the previous marker for a same-day marker. */
  const MinGap := 3
  /** Beyond this distance a same-day marker carries its time label. */
  const TimeGap := 20
  /** The position assumed for the previous marker when there is none. */
  const NoMarker := -100
  /** The scrubber is shown for lists of at least this many items. */
  const MinItems := 10

  /**
   * The labels of one item: none when it has no date or an empty one, and
   * otherwise what `fmt` gives, `None` standing for an unparseable date.
   */
  function LabelOf(item: MediaItem, fmt: string -> Option<DayTime>): Option<DayTime> {
    if item.date.None? || item.date.value == "" then None else fmt(item.date.value)
  }

  function Labels(items: seq<MediaItem>, fmt: string -> Option<DayTime>): (ls: seq<Option<DayTime>>)
    ensures |ls| == |items| && forall i :: 0 <= i < |items| ==> ls[i] == LabelOf(items[i], fmt)
  {
    seq(|items|, i requires 0 <= i < |items| => LabelOf(items[i], fmt))
  }

  /** The index of the last marker pushed, or `NoMarker`. */
  function LastIndex(ms: seq<Marker>): int {
    if |ms| > 0 then ms[|ms| - 1].index else NoMarker
  }

  /** The markers and the last day label after visiting item `idx` with labels `labelled`. */
  function Visit(ms: seq<Marker>, lastDate: string, idx: nat, labelled: Option<DayTime>): (seq<Marker>, string) {
    match labelled
    case None => (ms, lastDate)
    case Some(dt) =>
      if dt.day != lastDate then (ms + [Marker(idx, dt.day, DateMarker)], dt.day)
      else
        var dist := idx - LastIndex(ms);
        if dist >= MinGap then (ms + [Marker(idx, dt.time, if dist > TimeGap then TimeMarker else Tick)], lastDate)
        else (ms, lastDate)
  }

  /** The markers and the last day label after the first `k` items. */
  function Scan(labels: seq<Option<DayTime>>, k: nat): (seq<Marker>, string)
    requires k <= |labels|
  {
    if k == 0 then ([], "")
    else
      var prev := Scan(labels, k - 1);
      Visit(prev.0, prev.1, k - 1, labels[k - 1])
  }

  function Markers(items: seq<MediaItem>, fmt: string -> Option<DayTime>): seq<Marker> {
    Scan(Labels(items, fmt), |items|).0
  }

  /** The `markers` memo: one pass over the items with the last day label kept aside. */
  method BuildMarkers(items: seq<MediaItem>, fmt: string -> Option<DayTime>) returns (result: seq<Marker>)
    ensures result == Markers(items, fmt)
    ensures |items| == 0 ==> result == []
  {
    if |items| == 0 {
      return [];
    }
    ghost var labels := Labels(items, fmt);
    result := [];
    var lastDate := "";
    var idx := 0;
    while idx < |items|
      invariant idx <= |items|
      invariant (result, lastDate) == Scan(labels, idx)
    {
      var item := items[idx];
      if item.date.Some? && item.date.value != "" {
        var parsed := fmt(item.date.value);
        if parsed.Some? {
          var dateStr, timeStr := parsed.value.day, parsed.value.time;
          var lastMarkerIndex := if |result| > 0 then result[|result| - 1].index else NoMarker;
          var dist := idx - lastMarkerIndex;
          if dateStr != lastDate {
            result := result + [Marker(idx, dateStr, DateMarker)];
            lastDate := dateStr;
          } else if dist >= MinGap {
            var isTimeMarker := dist > TimeGap;
            result := result + [Marker(idx, timeStr, if isTimeMarker then TimeMarker else Tick)];
          }
        }
      }
      idx := idx + 1;
    }
  }

  /** The label of the latest DATE marker, or "" when there is none. */
  function LastDay(ms: seq<Marker>): string {
    if ms == [] then ""
    else if ms[|ms| - 1].kind == DateMarker then ms[|ms| - 1].text
    else LastDay(ms[..|ms| - 1])
  }

  /** One visit pushes at most one marker, for the item visited, labelled and spaced as the rule says. */
  lemma VisitPushes(ms: seq<Marker>, lastDate: string, idx: nat, labelled: Option<DayTime>)
    ensures var r := Visit(ms, lastDate, idx, labelled).0;
      || r == ms
      || (&& |r| == |ms| + 1 && r[..|ms|] == ms && labelled.Some? && Placed(r[|ms|], idx, labelled.value, ms))
  {
    var r := Visit(ms, lastDate, idx, labelled).0;
    if r != ms {
      assert r[..|ms|] == ms;
    }
  }

  /**
   * Marker `m` stands for item `idx` with labels `dt` after the markers `before`:
   * a DATE marker carries the day; any other carries the time, stands at least
   * `MinGap` after the previous marker, and is a TIME marker exactly when that
   * gap exceeds `TimeGap`.
   */
  predicate Placed(m: Marker, idx: nat, dt: DayTime, before: seq<Marker>) {
    && m.index == idx
    && (m.kind == DateMarker ==> m.text == dt.day)
    && (m.kind != DateMarker ==>
          && m.text == dt.time
          && idx - LastIndex(before) >= MinGap
          && (m.kind == TimeMarker <==> idx - LastIndex(before) > TimeGap))
  }

  /**
   * What the scan promises about its markers: they point at dated items among
   * the first `k`, in increasing order, each placed by the rule.
   */
  predicate WellFormed(labels: seq<Option<DayTime>>, k: nat, ms: seq<Marker>)
    requires k <= |labels|
  {
    && (forall p :: 0 <= p < |ms| ==> ms[p].index < k && labels[ms[p].index].Some?)
    && (forall p :: 0 < p < |ms| ==> ms[p - 1].index < ms[p].index)
    && (forall p :: 0 <= p < |ms| ==> labels[ms[p].index].Some? && Placed(ms[p], ms[p].index, labels[ms[p].index].value, ms[..p]))
  }

  lemma {:induction false} ScanWellFormed(labels: seq<Option<DayTime>>, k: nat)
    requires k <= |labels|
    ensures WellFormed(labels, k, Scan(labels, k).0)
  {
    if k > 0 {
      ScanWellFormed(labels, k - 1);
      var prev := Scan(labels, k - 1);
      var ms := Scan(labels, k).0;
      VisitPushes(prev.0, prev.1, k - 1, labels[k - 1]);
      if ms == prev.0 {
        WellFormedWiden(labels, k, ms);
      } else {
        assert ms == prev.0 + [ms[|prev.0|]];
        WellFormedPush(labels, k, prev.0, ms[|prev.0|]);
      }
    }
  }

  /** Looking at one more item keeps the markers well-formed. */
  lemma WellFormedWiden(labels: seq<Option<DayTime>>, k: nat, ms: seq<Marker>)
    requires 0 < k <= |labels| && WellFormed(labels, k - 1, ms)
    ensures WellFormed(labels, k, ms)
  {
  }

  /** A marker placed by the rule for item `k - 1` extends well-formed markers. */
  lemma WellFormedPush(labels: seq<Option<DayTime>>, k: nat, ms: seq<Marker>, m: Marker)
    requires 0 < k <= |labels| && WellFormed(labels, k - 1, ms)
    requires labels[k - 1].Some? && Placed(m, k - 1, labels[k - 1].value, ms)
    ensures WellFormed(labels, k, ms + [m])
  {
    PushInRange(labels, k, ms, m);
    PushIncreasing(labels, k, ms, m);
    PushPlaced(labels, k, ms, m);
  }

  lemma PushInRange(labels: seq<Option<DayTime>>, k: nat, ms: seq<Marker>, m: Marker)
    requires 0 < k <= |labels| && WellFormed(labels, k - 1, ms)
    requires labels[k - 1].Some? && m.index == k - 1
    ensures forall p :: 0 <= p < |ms + [m]| ==> (ms + [m])[p].index < k && labels[(ms + [m])[p].index].Some?
  {
    var r := ms + [m];
    forall p | 0 <= p < |r| ensures r[p].index < k && labels[r[p].index].Some? {
      if p < |ms| {
        assert r[p] == ms[p];
      }
    }
  }

  lemma PushIncreasing(labels: seq<Option<DayTime>>, k: nat, ms: seq<Marker>, m: Marker)
    requires 0 < k <= |labels| && WellFormed(labels, k - 1, ms)
    requires m.index == k - 1
    ensures forall p :: 0 < p < |ms + [m]| ==> (ms + [m])[p - 1].index < (ms + [m])[p].index
  {
    var r := ms + [m];
    forall p | 0 < p < |r| ensures r[p - 1].index < r[p].index {
      assert r[p - 1] == ms[p - 1];
      if p < |ms| {
        assert r[p] == ms[p];
      }
    }
  }

  lemma PushPlaced(labels: seq<Option<DayTime>>, k: nat, ms: seq<Marker>, m: Marker)
    requires 0 < k <= |labels| && WellFormed(labels, k - 1, ms)
    requires labels[k - 1].Some? && Placed(m, k - 1, labels[k - 1].value, ms)
    ensures forall p :: 0 <= p < |ms + [m]| ==>
      labels[(ms + [m])[p].index].Some? &&
      Placed((ms + [m])[p], (ms + [m])[p].index, labels[(ms + [m])[p].index].value, (ms + [m])[..p])
  {
    var r := ms + [m];
    assert r[..|ms|] == ms;
    forall p | 0 <= p < |r|
      ensures labels[r[p].index].Some? && Placed(r[p], r[p].index, labels[r[p].index].value, r[..p])
    {
      if p < |ms| {
        assert r[p] == ms[p];
        assert r[..p] == ms[..p];
      }
    }
  }


  /** The day label kept aside is that of the latest DATE marker, "" before the first. */
  lemma {:induction false} ScanLastDay(labels: seq<Option<DayTime>>, k: nat)
    requires k <= |labels|
    ensures Scan(labels, k).1 == LastDay(Scan(labels, k).0)
  {
    if k > 0 {
      ScanLastDay(labels, k - 1);
      var prev := Scan(labels, k - 1);
      var ms := Scan(labels, k).0;
      if |ms| > |prev.0| {
        assert ms[..|ms| - 1] == prev.0;
      }
    }
  }

  /** Every marker points at a dated item; items without a usable date get none. */
  lemma UndatedHasNoMarker(items: seq<MediaItem>, fmt: string -> Option<DayTime>, j: nat)
    requires j < |items| && LabelOf(items[j], fmt).None?
    ensures forall p :: 0 <= p < |Markers(items, fmt)| ==> Markers(items, fmt)[p].index != j
  {
    ScanWellFormed(Labels(items, fmt), |items|);
  }

  /** Marker indices strictly increase. */
  lemma MarkersIncrease(items: seq<MediaItem>, fmt: string -> Option<DayTime>)
    ensures var ms := Markers(items, fmt);
      forall p, q :: 0 <= p < q < |ms| ==> ms[p].index < ms[q].index
  {
    var labels := Labels(items, fmt);
    ScanWellFormed(labels, |items|);
    var ms := Markers(items, fmt);
    forall p, q | 0 <= p < q < |ms| ensures ms[p].index < ms[q].index {
      IncreasingStep(ms, p, q);
    }
  }

  lemma {:induction false} IncreasingStep(ms: seq<Marker>, p: nat, q: nat)
    requires p < q < |ms|
    requires forall r :: 0 < r < |ms| ==> ms[r - 1].index < ms[r].index
    ensures ms[p].index < ms[q].index
    decreases q - p
  {
    if p + 1 < q {
      IncreasingStep(ms, p + 1, q);
    }
  }

  /** Before the first dated item nothing has happened. */
  lemma {:induction false} NothingBeforeFirstDate(labels: seq<Option<DayTime>>, k: nat)
    requires k <= |labels|
    requires forall i :: 0 <= i < k ==> labels[i].None?
    ensures Scan(labels, k) == ([], "")
  {
    if k > 0 {
      NothingBeforeFirstDate(labels, k - 1);
    }
  }

  /** With a non-empty day label, the first dated item opens the timeline with a DATE marker. */
  lemma FirstDatedIsDate(items: seq<MediaItem>, fmt: string -> Option<DayTime>, j: nat)
    requires j < |items| && LabelOf(items[j], fmt).Some? && LabelOf(items[j], fmt).value.day != ""
    requires forall i :: 0 <= i < j ==> LabelOf(items[i], fmt).None?
    ensures |Markers(items, fmt)| > 0
    ensures Markers(items, fmt)[0] == Marker(j, LabelOf(items[j], fmt).value.day, DateMarker)
  {
    var labels := Labels(items, fmt);
    NothingBeforeFirstDate(labels, j);
    PrefixKept(labels, j + 1, |items|);
  }

  /** Later items only append markers. */
  lemma {:induction false} PrefixKept(labels: seq<Option<DayTime>>, j: nat, k: nat)
    requires j <= k <= |labels|
    ensures |Scan(labels, j).0| <= |Scan(labels, k).0|
    ensures Scan(labels, k).0[..|Scan(labels, j).0|] == Scan(labels, j).0
    decreases k - j
  {
    if j < k {
      PrefixKept(labels, j, k - 1);
      var a, b := Scan(labels, k - 1).0, Scan(labels, k).0;
      assert b[..|a|] == a;
    }
  }

  /** A day label that repeats the last one never becomes a DATE marker. */
  lemma SameDayIsNotDate(labels: seq<Option<DayTime>>, k: nat)
    requires k < |labels| && labels[k].Some? && labels[k].value.day == Scan(labels, k).1
    ensures |Scan(labels, k + 1).0| > |Scan(labels, k).0| ==>
      Scan(labels, k + 1).0[|Scan(labels, k).0|].kind != DateMarker
  {
  }

  // ---------------------------------------------------------------------------
  // Scroll spy

  /** A marker's element exists and its top is above the scan line. */
  predicate Above(top: Option<real>, scanLine: real) {
    top.Some? && top.value < scanLine
  }

  /**
   * Marker `k` is the active one: the last whose element is above the scan
   * line, or 0 when no element is.
   */
  predicate IsActive(tops: seq<Option<real>>, scanLine: real, k: nat) {
    && ((forall i :: 0 <= i < |tops| ==> !Above(tops[i], scanLine)) ==> k == 0)
    && ((exists i :: 0 <= i < |tops| && Above(tops[i], scanLine)) ==>
          && k < |tops| && Above(tops[k], scanLine)
          && forall j :: k < j < |tops| ==> !Above(tops[j], scanLine))
  }

  /** At most one marker is the active one. */
  lemma ActiveUnique(tops: seq<Option<real>>, scanLine: real, k1: nat, k2: nat)
    requires IsActive(tops, scanLine, k1) && IsActive(tops, scanLine, k2)
    ensures k1 == k2
  {
  }

  /**
   * handleScroll's search: the last marker whose element is above the scan
   * line, or 0 when there is none. `tops[i]` is the top of marker `i`'s
   * element, `None` when it is not rendered.
   */
  method ActiveIndex(tops: seq<Option<real>>, innerHeight: real) returns (found: nat)
    ensures IsActive(tops, innerHeight * 0.4, found)
  {
    var scanLine := innerHeight * 0.4;
    found := 0;
    var i := |tops| - 1;
    while i >= 0
      invariant -1 <= i < |tops|
      invariant forall j :: i < j < |tops| ==> !Above(tops[j], scanLine)
      invariant found == 0
      decreases i + 1
    {
      if tops[i].Some? && tops[i].value < scanLine {
        found := i;
        return;
      }
      i := i - 1;
    }
  }

  /** The scrubber's own state: its markers and the active one. */
  class Scrubber {
    const items: seq<MediaItem>
    const markers: seq<Marker>
    var activeIndex: nat

    constructor (items: seq<MediaItem>, fmt: string -> Option<DayTime>)
      ensures this.items == items && markers == Markers(items, fmt) && activeIndex == 0
    {
      this.items := items;
      var ms := BuildMarkers(items, fmt);
      markers := ms;
      activeIndex := 0;
    }

    /** The page scrolled: the active marker follows the scan line. */
    method HandleScroll(tops: seq<Option<real>>, innerHeight: real)
      requires |tops| == |markers|
      modifies this
      ensures IsActive(tops, innerHeight * 0.4, activeIndex)
      ensures activeIndex == 0 || activeIndex < |markers|
    {
      activeIndex := ActiveIndex(tops, innerHeight);
    }

    /** Nothing is rendered for fewer than ten items. */
    predicate Shown()
      reads this
    {
      |items| >= MinItems
    }
  }
}
