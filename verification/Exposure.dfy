/** Exposure of overlapping trades (src/pearlalgo/analytics/incident_analysis.py,
    `compute_exposure`): a sweep over sorted entry and exit events.

    Times are whole instants, risk is whole units of money. */
module Exposure {
  import opened Common
  import opened StableSort

  datatype TradeRecord = TradeRecord(
    entryTime: Option<int>, exitTime: int, entryPrice: int, stopLoss: Option<int>, tickValue: int, positionSize: int)

  datatype Event = Event(time: int, delta: int)

  /** A stretch of time during which `weight` is at stake: entry included, exit not. */
  datatype Span = Span(entry: int, exit: int, weight: int)

  function StopRisk(t: TradeRecord): int
    requires t.stopLoss.Some?
  {
    Abs(t.entryPrice - t.stopLoss.value) * t.tickValue * t.positionSize
  }

  /** A span of weight one for a trade whose entry time is known. */
  function PositionOf(t: TradeRecord): seq<Span> {
    if t.entryTime.Some? then [Span(t.entryTime.value, t.exitTime, 1)] else []
  }

  /** A span of its stop risk for a trade that also has a stop and a price. */
  function RiskOf(t: TradeRecord): seq<Span> {
    if t.entryTime.Some? && t.stopLoss.Some? && t.entryPrice > 0
    then [Span(t.entryTime.value, t.exitTime, StopRisk(t))] else []
  }

  function PositionSpans(trades: seq<TradeRecord>): seq<Span> {
    if trades == [] then [] else PositionSpans(trades[..|trades| - 1]) + PositionOf(trades[|trades| - 1])
  }

  function RiskSpans(trades: seq<TradeRecord>): seq<Span> {
    if trades == [] then [] else RiskSpans(trades[..|trades| - 1]) + RiskOf(trades[|trades| - 1])
  }

  function EventsOf(spans: seq<Span>): seq<Event> {
    if spans == [] then []
    else
      var n := |spans| - 1;
      EventsOf(spans[..n]) + [Event(spans[n].entry, spans[n].weight), Event(spans[n].exit, -spans[n].weight)]
  }

  /** Events are sorted by time, falls before rises at the same instant. */
  function EventKey(e: Event): int {
    2 * e.time + if e.delta < 0 then 0 else 1
  }

  function DeltaOf(e: Event): int { e.delta }

  /** The highest running total over the first `n` events, at least zero. */
  function Peak(events: seq<Event>, n: nat): int
    requires n <= |events|
  {
    if n == 0 then 0 else Max(Peak(events, n - 1), SumBy(events[..n], DeltaOf))
  }

  function SweepOf(events: seq<Event>): int {
    var sorted := SortBy(events, EventKey);
    Peak(sorted, |sorted|)
  }

  method Sweep(events: seq<Event>) returns (maxVal: int)
    ensures maxVal == SweepOf(events)
  {
    var sorted := SortBy(events, EventKey);
    var current := 0;
    maxVal := 0;
    for k := 0 to |sorted|
      invariant current == SumBy(sorted[..k], DeltaOf)
      invariant maxVal == Peak(sorted, k)
    {
      assert sorted[..k + 1] == sorted[..k] + [sorted[k]];
      SumByConcat(sorted[..k], [sorted[k]], DeltaOf);
      current := current + sorted[k].delta;
      maxVal := Max(maxVal, current);
    }
  }

  // ----- Stop distances -----

  /** How far the stop is from the entry, for a trade that has both. */
  function StopPointOf(t: TradeRecord): seq<int> {
    if t.stopLoss.Some? && t.entryPrice > 0 then [Abs(t.entryPrice - t.stopLoss.value)] else []
  }

  function StopPoints(trades: seq<TradeRecord>): seq<int> {
    if trades == [] then [] else StopPoints(trades[..|trades| - 1]) + StopPointOf(trades[|trades| - 1])
  }

  function Identity(v: int): int { v }

  function Lowest(values: seq<int>): int
    requires values != []
  {
    if |values| == 1 then values[0] else Min(Lowest(values[..|values| - 1]), values[|values| - 1])
  }

  function Highest(values: seq<int>): int
    requires values != []
  {
    if |values| == 1 then values[0] else Max(Highest(values[..|values| - 1]), values[|values| - 1])
  }

  /** The whole and the fractional part of the rank (n - 1) * pct. */
  function Rank(n: nat, pct: real): (f: nat)
    requires n > 0 && 0.0 < pct < 1.0
    ensures f < n
  {
    RankInRange(n, pct);
    ((n - 1) as real * pct).Floor
  }

  function Fraction(n: nat, pct: real): (w: real)
    requires n > 0 && 0.0 < pct < 1.0
    ensures 0.0 <= w < 1.0 && (w > 0.0 ==> Rank(n, pct) + 1 < n)
  {
    RankInRange(n, pct);
    (n - 1) as real * pct - Rank(n, pct) as real
  }

  lemma {:induction false} RankInRange(n: nat, pct: real)
    requires n > 0 && 0.0 < pct < 1.0
    ensures var k := (n - 1) as real * pct;
      0 <= k.Floor < n && (k.Floor as real != k ==> k.Floor + 1 < n)
  {
    var k := (n - 1) as real * pct;
    assert 0.0 <= k <= (n - 1) as real by {
      assert (n - 1) as real * (1.0 - pct) >= 0.0;
    }
  }

  lemma {:induction false} SortKeepsLength(values: seq<int>)
    ensures |SortBy(values, Identity)| == |values|
  {
    SortByContract(values, Identity);
  }

  function Between(a: int, b: int, w: real): real {
    a as real * (1.0 - w) + b as real * w
  }

  /** Linear interpolation between the two neighbours of the rank. */
  function Percentile(values: seq<int>, pct: real): Option<real>
    requires 0.0 < pct < 1.0
  {
    if values == [] then None
    else
      SortKeepsLength(values);
      var sorted, f, w := SortBy(values, Identity), Rank(|values|, pct), Fraction(|values|, pct);
      Some(if w == 0.0 then sorted[f] as real else Between(sorted[f], sorted[f + 1], w))
  }

  datatype StopStats = StopStats(
    count: nat, min: Option<int>, max: Option<int>, avg: Option<real>, p50: Option<real>, p90: Option<real>)

  function StatsOf(points: seq<int>): StopStats {
    if points == [] then StopStats(0, None, None, None, None, None)
    else StopStats(|points|, Some(Lowest(points)), Some(Highest(points)),
                   Some(SumBy(points, Identity) as real / |points| as real), Percentile(points, 0.5), Percentile(points, 0.9))
  }

  /** What one record adds to the three lists. */
  method RecordEvents(t: TradeRecord) returns (intervals: seq<Event>, risks: seq<Event>, points: seq<int>)
    ensures intervals == EventsOf(PositionOf(t)) && risks == EventsOf(RiskOf(t)) && points == StopPointOf(t)
  {
    intervals, risks, points := [], [], [];
    if t.entryTime.Some? {
      OneSpan(Span(t.entryTime.value, t.exitTime, 1));
      intervals := [Event(t.entryTime.value, 1), Event(t.exitTime, -1)];
    }
    if t.stopLoss.Some? && t.entryPrice > 0 {
      points := [Abs(t.entryPrice - t.stopLoss.value)];
      if t.entryTime.Some? {
        OneSpan(Span(t.entryTime.value, t.exitTime, StopRisk(t)));
        risks := [Event(t.entryTime.value, StopRisk(t)), Event(t.exitTime, -StopRisk(t))];
      }
    }
  }

  method ComputeExposure(trades: seq<TradeRecord>)
    returns (maxConcurrent: int, maxStopRisk: int, riskEventPoints: nat, stops: StopStats)
    ensures maxConcurrent == SweepOf(EventsOf(PositionSpans(trades)))
    ensures maxStopRisk == SweepOf(EventsOf(RiskSpans(trades)))
    ensures riskEventPoints == |EventsOf(RiskSpans(trades))|
    ensures stops == StatsOf(StopPoints(trades))
  {
    assert PositionSpans([]) == [] && RiskSpans([]) == [] && StopPoints([]) == [] && EventsOf([]) == [];
    hide PositionOf;
    hide RiskOf;
    hide StopPointOf;
    hide EventsOf;
    hide StatsOf;
    hide SweepOf;
    var intervals: seq<Event>, risks: seq<Event>, stopPoints: seq<int> := [], [], [];
    for k := 0 to |trades|
      invariant intervals == EventsOf(PositionSpans(trades[..k]))
      invariant risks == EventsOf(RiskSpans(trades[..k]))
      invariant stopPoints == StopPoints(trades[..k])
    {
      assert trades[..k + 1][..k] == trades[..k];
      EventsConcat(PositionSpans(trades[..k]), PositionOf(trades[k]));
      EventsConcat(RiskSpans(trades[..k]), RiskOf(trades[k]));
      var i, r, p := RecordEvents(trades[k]);
      intervals, risks, stopPoints := intervals + i, risks + r, stopPoints + p;
    }
    assert trades[..|trades|] == trades;
    maxConcurrent := Sweep(intervals);
    maxStopRisk := Sweep(risks);
    riskEventPoints := |risks|;
    stops := StatsOf(stopPoints);
  }

  lemma {:induction false} OneSpan(s: Span)
    ensures EventsOf([s]) == [Event(s.entry, s.weight), Event(s.exit, -s.weight)]
  {
    assert [s][..0] == [];
    assert EventsOf([]) == [];
  }

  lemma {:induction false} EventsConcat(a: seq<Span>, b: seq<Span>)
    ensures EventsOf(a + b) == EventsOf(a) + EventsOf(b)
  {
    if b == [] {
      assert a + b == a;
    } else {
      var n := |b| - 1;
      assert (a + b)[..|a| + n] == a + b[..n];
      EventsConcat(a, b[..n]);
    }
  }

  // ----- The brute-force measure -----

  function WeightAt(at: int): Span -> int {
    (s: Span) => if s.entry <= at < s.exit then s.weight else 0
  }

  /** The total weight at stake at an instant. */
  function Active(spans: seq<Span>, at: int): int {
    SumBy(spans, WeightAt(at))
  }

  /** `top` is the largest total over all instants. */
  ghost predicate IsMaxActive(spans: seq<Span>, top: int) {
    && (forall at :: Active(spans, at) <= top)
    && (exists at :: Active(spans, at) == top)
  }

  ghost predicate Proper(spans: seq<Span>) {
    forall s :: s in spans ==> s.entry <= s.exit && s.weight >= 0
  }

  function DeltaUpTo(at: int): Event -> int {
    (e: Event) => if e.time <= at then e.delta else 0
  }

  lemma {:induction false} PairGivesWeight(s: Span, at: int)
    requires s.entry <= s.exit
    ensures SumBy([Event(s.entry, s.weight), Event(s.exit, -s.weight)], DeltaUpTo(at)) == WeightAt(at)(s)
    ensures SumBy([s], WeightAt(at)) == WeightAt(at)(s)
  {
    var pair := [Event(s.entry, s.weight), Event(s.exit, -s.weight)];
    assert pair[1..] == [Event(s.exit, -s.weight)];
    assert SumBy(pair[1..], DeltaUpTo(at)) == DeltaUpTo(at)(pair[1]);
  }

  lemma {:induction false} EventsGiveActive(spans: seq<Span>, at: int)
    requires Proper(spans)
    ensures SumBy(EventsOf(spans), DeltaUpTo(at)) == Active(spans, at)
  {
    if spans == [] {
    } else {
      var n := |spans| - 1;
      var s := spans[n];
      EventsGiveActive(spans[..n], at);
      assert spans == spans[..n] + [s];
      SumByConcat(spans[..n], [s], WeightAt(at));
      SumByConcat(EventsOf(spans[..n]), [Event(s.entry, s.weight), Event(s.exit, -s.weight)], DeltaUpTo(at));
      assert s in spans;
      PairGivesWeight(s, at);
    }
  }

  lemma {:induction false} SumOrder(s: seq<Event>, f: Event -> int, g: Event -> int)
    requires forall e :: e in s ==> f(e) <= g(e)
    ensures SumBy(s, f) <= SumBy(s, g)
  {
    if s == [] {
    } else {
      SumOrder(s[1..], f, g);
    }
  }

  lemma {:induction false} SumZero(s: seq<Event>)
    ensures SumBy(s, (e: Event) => 0) == 0
  {
    if s == [] {
    } else {
      SumZero(s[1..]);
    }
  }

  /** The instant an event's running total is compared with: just before a
      fall, at a rise. */
  function InstantOf(e: Event): int {
    if e.delta < 0 then e.time - 1 else e.time
  }

  lemma {:induction false} HeadBelow(sorted: seq<Event>, k: nat)
    requires 0 < k <= |sorted| && SortedBy(sorted, EventKey)
    ensures SumBy(sorted[..k], DeltaOf) <= SumBy(sorted[..k], DeltaUpTo(InstantOf(sorted[k - 1])))
  {
    forall e | e in sorted[..k]
      ensures DeltaOf(e) <= DeltaUpTo(InstantOf(sorted[k - 1]))(e)
    {
      var i :| 0 <= i < k && sorted[i] == e;
      assert EventKey(sorted[i]) <= EventKey(sorted[k - 1]);
    }
    SumOrder(sorted[..k], DeltaOf, DeltaUpTo(InstantOf(sorted[k - 1])));
  }

  lemma {:induction false} TailNotNegative(sorted: seq<Event>, k: nat)
    requires 0 < k <= |sorted| && SortedBy(sorted, EventKey)
    ensures 0 <= SumBy(sorted[k..], DeltaUpTo(InstantOf(sorted[k - 1])))
  {
    var tail := sorted[k..];
    forall e | e in tail
      ensures 0 <= DeltaUpTo(InstantOf(sorted[k - 1]))(e)
    {
      var i :| 0 <= i < |tail| && tail[i] == e;
      assert EventKey(sorted[k - 1]) <= EventKey(sorted[k + i]);
    }
    SumZero(tail);
    SumOrder(tail, (e: Event) => 0, DeltaUpTo(InstantOf(sorted[k - 1])));
  }

  /** The running total after any event is at most the total at some instant. */
  lemma {:induction false} PrefixBelowActive(sorted: seq<Event>, k: nat)
    requires 0 < k <= |sorted| && SortedBy(sorted, EventKey)
    ensures SumBy(sorted[..k], DeltaOf) <= SumBy(sorted, DeltaUpTo(InstantOf(sorted[k - 1])))
  {
    HeadBelow(sorted, k);
    TailNotNegative(sorted, k);
    assert sorted == sorted[..k] + sorted[k..];
    SumByConcat(sorted[..k], sorted[k..], DeltaUpTo(InstantOf(sorted[k - 1])));
  }

  /** The total at an instant is the running total after the events up to it. */
  lemma {:induction false} ActiveIsPrefix(sorted: seq<Event>, at: int) returns (k: nat)
    requires SortedBy(sorted, EventKey)
    ensures k <= |sorted| && SumBy(sorted[..k], DeltaOf) == SumBy(sorted, DeltaUpTo(at))
  {
    if sorted == [] || sorted[0].time > at {
      k := 0;
      forall e | e in sorted
        ensures DeltaUpTo(at)(e) == 0
      {
        var i :| 0 <= i < |sorted| && sorted[i] == e;
        assert EventKey(sorted[0]) <= EventKey(sorted[i]);
      }
      SumZero(sorted);
      SumOrder(sorted, DeltaUpTo(at), (e: Event) => 0);
      SumOrder(sorted, (e: Event) => 0, DeltaUpTo(at));
    } else {
      var rest := ActiveIsPrefix(sorted[1..], at);
      k := rest + 1;
      assert sorted[..k][1..] == sorted[1..][..rest];
    }
  }

  lemma {:induction false} PeakBounds(events: seq<Event>, n: nat)
    requires n <= |events|
    ensures forall k :: 0 <= k <= n ==> SumBy(events[..k], DeltaOf) <= Peak(events, n)
    ensures exists k :: 0 <= k <= n && SumBy(events[..k], DeltaOf) == Peak(events, n)
  {
    if n == 0 {
      assert SumBy(events[..0], DeltaOf) == 0;
    } else {
      PeakBounds(events, n - 1);
      var k :| 0 <= k <= n - 1 && SumBy(events[..k], DeltaOf) == Peak(events, n - 1);
      assert SumBy(events[..if Peak(events, n) == Peak(events, n - 1) then k else n], DeltaOf) == Peak(events, n);
    }
  }

  /** Some instant lies before every span. */
  lemma {:induction false} QuietInstant(spans: seq<Span>) returns (at: int)
    ensures forall s :: s in spans ==> at < s.entry
    ensures Active(spans, at) == 0
  {
    at := 0;
    if spans == [] {
    } else {
      var rest := QuietInstant(spans[1..]);
      at := Min(rest, spans[0].entry - 1);
      NothingBefore(spans, at);
    }
  }

  lemma {:induction false} NothingBefore(spans: seq<Span>, at: int)
    requires forall s :: s in spans ==> at < s.entry
    ensures Active(spans, at) == 0
  {
    if spans == [] {
    } else {
      NothingBefore(spans[1..], at);
    }
  }

  /** The sweep returns the brute-force maximum over all instants, for any spans
      that do not end before they start and carry no negative weight. */
  lemma {:induction false} SweepIsMaxActive(spans: seq<Span>)
    requires Proper(spans)
    ensures IsMaxActive(spans, SweepOf(EventsOf(spans)))
  {
    var events := EventsOf(spans);
    var sorted := SortBy(events, EventKey);
    var top := Peak(sorted, |sorted|);
    SortByContract(events, EventKey);
    PeakBounds(sorted, |sorted|);
    forall at
      ensures SumBy(sorted, DeltaUpTo(at)) == Active(spans, at) <= top
    {
      SumOfSort(events, EventKey, DeltaUpTo(at));
      EventsGiveActive(spans, at);
      var k := ActiveIsPrefix(sorted, at);
    }
    var k :| 0 <= k <= |sorted| && SumBy(sorted[..k], DeltaOf) == top;
    if k == 0 {
      var at := QuietInstant(spans);
    } else {
      PrefixBelowActive(sorted, k);
      assert Active(spans, InstantOf(sorted[k - 1])) == top;
    }
  }

  /** A record whose times are in order and whose risk is not negative. */
  predicate InOrder(t: TradeRecord) {
    && (t.entryTime.Some? ==> t.entryTime.value <= t.exitTime)
    && t.tickValue >= 0 && t.positionSize >= 0
  }

  lemma {:induction false} RiskIsNotNegative(t: TradeRecord)
    requires InOrder(t) && t.stopLoss.Some?
    ensures StopRisk(t) >= 0
  {
    assert Abs(t.entryPrice - t.stopLoss.value) * t.tickValue >= 0;
  }

  lemma {:induction false} SpansAreProper(trades: seq<TradeRecord>)
    requires forall t :: t in trades ==> InOrder(t)
    ensures Proper(PositionSpans(trades)) && Proper(RiskSpans(trades))
  {
    if trades == [] {
    } else {
      hide StopRisk;
      var n := |trades| - 1;
      SpansAreProper(trades[..n]);
      assert trades[n] in trades;
      if trades[n].stopLoss.Some? {
        RiskIsNotNegative(trades[n]);
      }
    }
  }

  /** Both reported maxima are the true maxima over all instants. */
  lemma {:induction false} ExposureIsExact(trades: seq<TradeRecord>)
    requires forall t :: t in trades ==> InOrder(t)
    ensures IsMaxActive(PositionSpans(trades), SweepOf(EventsOf(PositionSpans(trades))))
    ensures IsMaxActive(RiskSpans(trades), SweepOf(EventsOf(RiskSpans(trades))))
  {
    SpansAreProper(trades);
    SweepIsMaxActive(PositionSpans(trades));
    SweepIsMaxActive(RiskSpans(trades));
  }

  // ----- What the stop statistics mean -----

  lemma {:induction false} ExtremesBound(values: seq<int>)
    requires values != []
    ensures Lowest(values) in values && Highest(values) in values
    ensures forall v :: v in values ==> Lowest(values) <= v <= Highest(values)
  {
    var n := |values| - 1;
    assert values == values[..n] + [values[n]];
    if n > 0 {
      ExtremesBound(values[..n]);
    }
  }

  lemma {:induction false} GapIsNotNegative(d: real, w: real)
    requires d >= 0.0 && w >= 0.0
    ensures d * w >= 0.0
  {
  }

  lemma {:induction false} BetweenNeighbours(a: int, b: int, w: real)
    requires a <= b && 0.0 <= w <= 1.0
    ensures a as real <= Between(a, b, w) <= b as real
  {
    var x, y := a as real, b as real;
    GapIsNotNegative(y - x, w);
    GapIsNotNegative(y - x, 1.0 - w);
    assert Between(a, b, w) == x + (y - x) * w == y - (y - x) * (1.0 - w);
  }

  lemma {:induction false} SortedAt(sorted: seq<int>, i: nat, j: nat)
    requires SortedBy(sorted, Identity) && i <= j < |sorted|
    ensures sorted[i] <= sorted[j]
  {
    if i < j {
      var key: int -> int := Identity;
      assert key(sorted[i]) <= key(sorted[j]);
    }
  }

  /** The percentile lies between the two values its rank falls between. */
  lemma {:induction false} PercentileIsBracketed(values: seq<int>, pct: real)
    requires values != [] && 0.0 < pct < 1.0
    ensures var sorted, f := SortBy(values, Identity), Rank(|values|, pct);
      && |sorted| == |values|
      && sorted[f] as real <= Percentile(values, pct).value <= sorted[Min(f + 1, |sorted| - 1)] as real
  {
    hide SortBy;
    hide Rank;
    hide Fraction;
    hide Between;
    hide SameByKey;
    var sorted, f, w := SortBy(values, Identity), Rank(|values|, pct), Fraction(|values|, pct);
    SortByContract(values, Identity);
    if f + 1 < |sorted| {
      SortedAt(sorted, f, f + 1);
      BetweenNeighbours(sorted[f], sorted[f + 1], w);
    }
  }

  function AtMost(p: real): int -> bool {
    (v: int) => v as real <= p
  }

  function AtLeast(p: real): int -> bool {
    (v: int) => v as real >= p
  }

  lemma {:induction false} CountIsOfSorted(values: seq<int>, keep: int -> bool)
    ensures |Filter(SortBy(values, Identity), keep)| == |Filter(values, keep)|
  {
    FilterOfSort(values, Identity, keep);
    SortByContract(Filter(values, keep), Identity);
  }

  /** A percentile splits the values at its rank: more than (n - 1) * pct of them,
      rounded down, are no larger, and all but at most one more are no smaller. */
  lemma {:induction false} PercentileSplitsValues(values: seq<int>, pct: real)
    requires values != [] && 0.0 < pct < 1.0
    ensures var f, p := Rank(|values|, pct), Percentile(values, pct).value;
      |Filter(values, AtMost(p))| >= f + 1 && |Filter(values, AtLeast(p))| >= |values| - 1 - f
  {
    hide SortBy;
    hide Rank;
    hide Filter;
    hide SameByKey;
    hide Between;
    var sorted, f := SortBy(values, Identity), Rank(|values|, pct);
    SortByContract(values, Identity);
    PercentileIsBracketed(values, pct);
    var p := Percentile(values, pct).value;
    CountIsOfSorted(values, AtMost(p));
    CountIsOfSorted(values, AtLeast(p));
    LowPart(sorted, f, p);
    HighPart(sorted, f, p);
  }

  lemma {:induction false} HeadIsLow(sorted: seq<int>, f: nat, p: real)
    requires SortedBy(sorted, Identity) && f < |sorted| && sorted[f] as real <= p
    ensures forall v :: v in sorted[..f + 1] ==> AtMost(p)(v)
  {
    forall v | v in sorted[..f + 1]
      ensures AtMost(p)(v)
    {
      var i :| 0 <= i <= f && sorted[..f + 1][i] == v;
      SortedAt(sorted, i, f);
    }
  }

  lemma {:induction false} LowPart(sorted: seq<int>, f: nat, p: real)
    requires SortedBy(sorted, Identity) && f < |sorted| && sorted[f] as real <= p
    ensures |Filter(sorted, AtMost(p))| >= f + 1
  {
    hide Filter;
    hide SortedBy;
    var head, tail := sorted[..f + 1], sorted[f + 1..];
    HeadIsLow(sorted, f, p);
    FilterAll(head, AtMost(p));
    FilterConcat(head, tail, AtMost(p));
    assert sorted == head + tail;
  }

  lemma {:induction false} TailIsHigh(sorted: seq<int>, from: nat, p: real)
    requires SortedBy(sorted, Identity) && from < |sorted| && p <= sorted[from] as real
    ensures forall v :: v in sorted[from..] ==> AtLeast(p)(v)
  {
    forall v | v in sorted[from..]
      ensures AtLeast(p)(v)
    {
      var i :| 0 <= i < |sorted| - from && sorted[from..][i] == v;
      SortedAt(sorted, from, from + i);
    }
  }

  lemma {:induction false} HighPart(sorted: seq<int>, f: nat, p: real)
    requires SortedBy(sorted, Identity) && f < |sorted| && p <= sorted[Min(f + 1, |sorted| - 1)] as real
    ensures |Filter(sorted, AtLeast(p))| >= |sorted| - 1 - f
  {
    hide Filter;
    hide SortedBy;
    if f + 1 < |sorted| {
      var head, tail := sorted[..f + 1], sorted[f + 1..];
      TailIsHigh(sorted, f + 1, p);
      FilterAll(tail, AtLeast(p));
      FilterConcat(head, tail, AtLeast(p));
      assert sorted == head + tail;
    }
  }

  // ----- What the lists hold -----

  predicate HasEntry(t: TradeRecord) { t.entryTime.Some? }

  predicate HasStop(t: TradeRecord) { t.stopLoss.Some? && t.entryPrice > 0 }

  predicate AtRisk(t: TradeRecord) { HasEntry(t) && HasStop(t) }

  /** From the lower to the higher of entry and stop. */
  function StopGap(t: TradeRecord): int {
    var stop := t.stopLoss.GetOr(t.entryPrice);
    Max(t.entryPrice, stop) - Min(t.entryPrice, stop)
  }

  function Slot(t: TradeRecord): Span {
    Span(t.entryTime.GetOr(0), t.exitTime, 1)
  }

  function RiskSlot(t: TradeRecord): Span {
    Span(t.entryTime.GetOr(0), t.exitTime, StopGap(t) * t.tickValue * t.positionSize)
  }

  lemma {:induction false} MapFilterSnoc<T, U>(s: seq<T>, x: T, keep: T -> bool, f: T -> U)
    ensures MapSeq(Filter(s + [x], keep), f) == MapSeq(Filter(s, keep), f) + if keep(x) then [f(x)] else []
  {
    FilterConcat(s, [x], keep);
    assert [x][1..] == [];
    assert Filter([x], keep) == if keep(x) then [x] else [];
  }

  /** One weight for each record with an entry time, its stop distance in money at
      risk for those that also have a stop and a price, and one distance for each
      record that has a stop and a price. */
  lemma {:induction false} ListsAreOfTheirRecords(trades: seq<TradeRecord>)
    ensures PositionSpans(trades) == MapSeq(Filter(trades, HasEntry), Slot)
    ensures RiskSpans(trades) == MapSeq(Filter(trades, AtRisk), RiskSlot)
    ensures StopPoints(trades) == MapSeq(Filter(trades, HasStop), StopGap)
  {
    hide Filter;
    hide MapSeq;
    if trades == [] {
      NoRecords();
    } else {
      var n := |trades| - 1;
      var t := trades[n];
      ListsAreOfTheirRecords(trades[..n]);
      assert trades == trades[..n] + [t];
      MapFilterSnoc(trades[..n], t, HasEntry, Slot);
      MapFilterSnoc(trades[..n], t, AtRisk, RiskSlot);
      MapFilterSnoc(trades[..n], t, HasStop, StopGap);
      OneRecord(t);
    }
  }

  lemma {:induction false} NoRecords()
    ensures Filter<TradeRecord>([], HasEntry) == Filter<TradeRecord>([], AtRisk) == Filter<TradeRecord>([], HasStop) == []
  {
  }

  lemma {:induction false} OneRecord(t: TradeRecord)
    ensures PositionOf(t) == if HasEntry(t) then [Slot(t)] else []
    ensures RiskOf(t) == if AtRisk(t) then [RiskSlot(t)] else []
    ensures StopPointOf(t) == if HasStop(t) then [StopGap(t)] else []
  {
  }

  lemma {:induction false} StatsMean(points: seq<int>)
    requires points != []
    ensures StatsOf(points).avg.Some? && StatsOf(points).avg.value * |points| as real == SumBy(points, Identity) as real
  {
    hide Percentile;
    hide SumBy;
    hide Lowest;
    hide Highest;
    MeanTimesCount(SumBy(points, Identity) as real, |points| as real);
  }

  /** The statistics are about exactly the records with a stop and a price: how many
      they are, the least and the greatest distance, and the mean. */
  lemma {:induction false} StopStatsAreExact(trades: seq<TradeRecord>)
    ensures var gaps, s := MapSeq(Filter(trades, HasStop), StopGap), StatsOf(StopPoints(trades));
      && s.count == |gaps|
      && (gaps == [] ==> s == StopStats(0, None, None, None, None, None))
      && (gaps != [] ==>
            && s.min.Some? && s.max.Some? && s.avg.Some?
            && s.min.value in gaps && s.max.value in gaps
            && (forall g :: g in gaps ==> s.min.value <= g <= s.max.value)
            && s.avg.value * |gaps| as real == SumBy(gaps, Identity) as real)
  {
    hide StopPoints;
    hide Filter;
    hide MapSeq;
    hide Percentile;
    hide SumBy;
    hide Lowest;
    hide Highest;
    ListsAreOfTheirRecords(trades);
    var gaps := StopPoints(trades);
    if gaps != [] {
      ExtremesBound(gaps);
      StatsMean(gaps);
    }
  }

  lemma {:induction false} MeanTimesCount(total: real, count: real)
    requires count != 0.0
    ensures total / count * count == total
  {
  }
}
