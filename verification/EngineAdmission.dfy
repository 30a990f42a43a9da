/** What becomes of every signal of a backtest: it is taken, or one named cause
    stops it; and every signal taken ends up as a result. */
module EngineAdmission {
  import opened Common
  import opened CircuitBreaker
  import opened Engine

  // ----- One signal -----

  /** What happens to a signal: the first cause that stops it, or `Taken`. */
  datatype Fate = RunOver | TooSoon | AlreadyOpen | TooFaint | Refused(reason: Reason) | Breaks | Taken

  /** A signal of this direction was taken less than a minute before. */
  predicate JustTaken(s: Sim, d: Direction, time: int) {
    d in s.lastSignal && time - s.lastSignal[d] < 60
  }

  ghost predicate OpenIn(open: seq<OpenTrade>, d: Direction) {
    exists k :: 0 <= k < |open| && open[k].direction == d
  }

  /** Time of day is on and scales the confidence under the minimum. */
  predicate Faint(settings: Settings, sig: Signal, bar: Bar) {
    settings.enableTod && sig.confidence * bar.todMultiplier < settings.minConfidence
  }

  /** The five-minute regime if the bar has one, else the signal's own. */
  function Asked(sig: Signal, bar: Bar): Query {
    Query(sig.direction, bar.time, bar.day, match bar.regime5m case Some(r) => Some(r) case None => sig.regime)
  }

  function AnswerTo(s: Sim, sig: Signal, bar: Bar): Reason {
    match s.breaker
    case None => Passed
    case Some(cb) => Ask(cb, Asked(sig, bar)).0
  }

  ghost function FateOf(settings: Settings, s: Sim, sig: Signal, bar: Bar): Fate {
    if s.crashed then RunOver
    else if JustTaken(s, sig.direction, bar.time) then TooSoon
    else if OpenIn(s.open, sig.direction) then AlreadyOpen
    else if Faint(settings, sig, bar) then TooFaint
    else
      match AnswerTo(s, sig, bar)
      case Passed => Taken
      case DividesByZero => Breaks
      case reason => Refused(reason)
  }

  /** The trade a signal opens: its own fields, at its own price. */
  predicate Opens(settings: Settings, sig: Signal, bar: Bar, i: nat, t: OpenTrade) {
    && t.direction == sig.direction && t.entry == sig.entry && t.target == sig.target
    && t.stop == sig.stop && t.originalStop == sig.stop
    && t.confidence == (if settings.enableTod then sig.confidence * bar.todMultiplier else sig.confidence)
    && t.entryTime == bar.time && t.entryIndex == i && t.atr == bar.atr
    && t.maxPrice == t.minPrice == t.best == sig.entry && t.phase == None
  }

  /** One signal changes the state exactly as its fate says: a trade is opened if
      and only if it is taken, and one counter at most records why it was not. */
  ghost predicate Does(settings: Settings, s: Sim, sig: Signal, bar: Bar, i: nat, r: Sim) {
    var fate := FateOf(settings, s, sig, bar);
    && (if fate == Taken then |r.open| == |s.open| + 1 && r.open[..|s.open|] == s.open && Opens(settings, sig, bar, i, r.open[|s.open|])
        else r.open == s.open)
    && r.results == s.results
    && r.lastSignal == (if fate == Taken then s.lastSignal[sig.direction := bar.time] else s.lastSignal)
    && r.generated == s.generated + (if fate == RunOver then 0 else 1)
    && r.todBlocked == s.todBlocked + (if fate == TooFaint then 1 else 0)
    && r.cbBlocked == s.cbBlocked + (if fate.Refused? then 1 else 0)
    && (r.crashed <==> fate in {RunOver, Breaks})
    && r.breaker == (if s.breaker.Some? && (fate in {Taken, Breaks} || fate.Refused?) then Some(Ask(s.breaker.value, Asked(sig, bar)).1)
                     else s.breaker)
  }

  lemma {:induction false} SignalMeetsItsFate(settings: Settings, s: Sim, sig: Signal, bar: Bar, i: nat)
    ensures Does(settings, s, sig, bar, i, AdmitOne(settings, s, sig, bar, i))
  {
    hide Ask;
    assert Asked(sig, bar) == QueryFor(sig, bar);
  }

  // ----- Every signal of a run -----

  /** The state in front of signal `j` of bar `k`. */
  function Before(settings: Settings, start: Sim, bars: seq<Bar>, windowSize: nat, k: nat, j: nat): Sim
    requires k < |bars| && j <= |SignalsOf(bars[k])|
  {
    var s := RunTo(settings, start, bars, windowSize, k);
    if s.crashed then s
    else Admit(settings, AfterExits(settings, s, bars[k], k), SignalsOf(bars[k]), bars[k], k, j)
  }

  ghost function FateAt(settings: Settings, start: Sim, bars: seq<Bar>, windowSize: nat, k: nat, j: nat): Fate
    requires k < |bars| && j < |SignalsOf(bars[k])|
  {
    FateOf(settings, Before(settings, start, bars, windowSize, k, j), SignalsOf(bars[k])[j], bars[k])
  }

  /** The fates of the first `j` signals of bar `k`. */
  ghost function BarFates(settings: Settings, start: Sim, bars: seq<Bar>, windowSize: nat, k: nat, j: nat): seq<Fate>
    requires k < |bars| && j <= |SignalsOf(bars[k])|
  {
    if j == 0 then []
    else BarFates(settings, start, bars, windowSize, k, j - 1) + [FateAt(settings, start, bars, windowSize, k, j - 1)]
  }

  /** The fates of all signals of bars `windowSize .. k`, in order. */
  ghost function Fates(settings: Settings, start: Sim, bars: seq<Bar>, windowSize: nat, k: nat): seq<Fate>
    requires k <= |bars|
  {
    if k <= windowSize then []
    else Fates(settings, start, bars, windowSize, k - 1)
         + BarFates(settings, start, bars, windowSize, k - 1, |SignalsOf(bars[k - 1])|)
  }

  function IsTaken(f: Fate): int { if f == Taken then 1 else 0 }
  function IsFaint(f: Fate): int { if f == TooFaint then 1 else 0 }
  function IsRefused(f: Fate): int { if f.Refused? then 1 else 0 }
  function IsSeen(f: Fate): int { if f == RunOver then 0 else 1 }

  /** The counters say how many signals met which fate, and the trades are as many
      as the signals taken. */
  ghost predicate AddsUp(s: Sim, fates: seq<Fate>) {
    && |s.results| + |s.open| == SumBy(fates, IsTaken)
    && s.todBlocked == SumBy(fates, IsFaint)
    && s.cbBlocked == SumBy(fates, IsRefused)
    && s.generated == SumBy(fates, IsSeen)
    && (s.crashed <==> Breaks in fates)
  }

  lemma {:induction false} SumSnoc(fates: seq<Fate>, f: Fate, count: Fate -> int)
    ensures SumBy(fates + [f], count) == SumBy(fates, count) + count(f)
  {
    SumByConcat(fates, [f], count);
    assert [f][1..] == [];
  }

  lemma {:induction false} OneMoreAddsUp(settings: Settings, s: Sim, sig: Signal, bar: Bar, i: nat, r: Sim, fates: seq<Fate>)
    requires AddsUp(s, fates) && Does(settings, s, sig, bar, i, r)
    ensures AddsUp(r, fates + [FateOf(settings, s, sig, bar)])
  {
    hide FateOf;
    hide SumBy;
    hide Opens;
    var f := FateOf(settings, s, sig, bar);
    SumSnoc(fates, f, IsTaken);
    SumSnoc(fates, f, IsFaint);
    SumSnoc(fates, f, IsRefused);
    SumSnoc(fates, f, IsSeen);
    RunOverAfterBreak(settings, s, sig, bar);
    assert forall x :: x in fates + [f] <==> x in fates || x == f;
  }

  lemma {:induction false} RunOverAfterBreak(settings: Settings, s: Sim, sig: Signal, bar: Bar)
    ensures s.crashed <==> FateOf(settings, s, sig, bar) == RunOver
  {
  }

  lemma {:induction false} ExitsConserve(settings: Settings, s: Sim, bar: Bar, i: nat, n: nat)
    requires n <= |s.open|
    ensures var c := CheckExits(settings, s, bar, i, n);
      |c.results| + |c.still| == |s.results| + n
  {
    if n == 0 {
    } else {
      ExitsConserve(settings, s, bar, i, n - 1);
    }
  }

  lemma {:induction false} ExitsAddUp(settings: Settings, s: Sim, bar: Bar, i: nat, fates: seq<Fate>)
    requires AddsUp(s, fates)
    ensures AddsUp(AfterExits(settings, s, bar, i), fates)
  {
    ExitsConserve(settings, s, bar, i, |s.open|);
    hide CheckExits;
    hide SumBy;
  }

  lemma {:induction false} CrashedFatesAddUp(settings: Settings, start: Sim, bars: seq<Bar>, windowSize: nat, k: nat, j: nat, fates: seq<Fate>)
    requires k < |bars| && j <= |SignalsOf(bars[k])|
    requires var s := RunTo(settings, start, bars, windowSize, k); s.crashed && AddsUp(s, fates)
    ensures AddsUp(Before(settings, start, bars, windowSize, k, j), fates + BarFates(settings, start, bars, windowSize, k, j))
  {
    hide AddsUp;
    hide RunTo;
    if j == 0 {
      assert fates + [] == fates;
    } else {
      CrashedFatesAddUp(settings, start, bars, windowSize, k, j - 1, fates);
      var s, all := RunTo(settings, start, bars, windowSize, k), fates + BarFates(settings, start, bars, windowSize, k, j - 1);
      SignalMeetsItsFate(settings, s, SignalsOf(bars[k])[j - 1], bars[k], k);
      OneMoreAddsUp(settings, s, SignalsOf(bars[k])[j - 1], bars[k], k, s, all);
      assert fates + BarFates(settings, start, bars, windowSize, k, j) == all + [FateAt(settings, start, bars, windowSize, k, j - 1)];
    }
  }

  lemma {:induction false} BarFatesAddUp(settings: Settings, start: Sim, bars: seq<Bar>, windowSize: nat, k: nat, j: nat, fates: seq<Fate>)
    requires k < |bars| && j <= |SignalsOf(bars[k])|
    requires var s := RunTo(settings, start, bars, windowSize, k); !s.crashed && AddsUp(s, fates)
    ensures AddsUp(Before(settings, start, bars, windowSize, k, j), fates + BarFates(settings, start, bars, windowSize, k, j))
  {
    hide AddsUp;
    hide RunTo;
    hide AdmitOne;
    hide AfterExits;
    hide FateOf;
    if j == 0 {
      ExitsAddUp(settings, RunTo(settings, start, bars, windowSize, k), bars[k], k, fates);
      assert fates + [] == fates;
    } else {
      BarFatesAddUp(settings, start, bars, windowSize, k, j - 1, fates);
      var s, sig := Before(settings, start, bars, windowSize, k, j - 1), SignalsOf(bars[k])[j - 1];
      var all := fates + BarFates(settings, start, bars, windowSize, k, j - 1);
      SignalMeetsItsFate(settings, s, sig, bars[k], k);
      OneMoreAddsUp(settings, s, sig, bars[k], k, AdmitOne(settings, s, sig, bars[k], k), all);
      assert fates + BarFates(settings, start, bars, windowSize, k, j) == all + [FateAt(settings, start, bars, windowSize, k, j - 1)];
    }
  }

  /** In every run the counters are the numbers of signals that met each fate, and
      there are exactly as many results and open trades as signals taken. */
  lemma {:induction false} FatesAddUp(settings: Settings, breaker: Option<Breaker>, bars: seq<Bar>, windowSize: nat, k: nat)
    requires k <= |bars|
    ensures AddsUp(RunTo(settings, StartOf(breaker), bars, windowSize, k), Fates(settings, StartOf(breaker), bars, windowSize, k))
  {
    hide AddsUp;
    hide Admit;
    hide AfterExits;
    hide BarFates;
    if k <= windowSize {
      NothingAddsUp(breaker);
    } else {
      FatesAddUp(settings, breaker, bars, windowSize, k - 1);
      var start, n := StartOf(breaker), |SignalsOf(bars[k - 1])|;
      var fates := Fates(settings, start, bars, windowSize, k - 1);
      if RunTo(settings, start, bars, windowSize, k - 1).crashed {
        CrashedFatesAddUp(settings, start, bars, windowSize, k - 1, n, fates);
      } else {
        BarFatesAddUp(settings, start, bars, windowSize, k - 1, n, fates);
      }
    }
  }

  lemma {:induction false} NothingAddsUp(breaker: Option<Breaker>)
    ensures AddsUp(StartOf(breaker), [])
  {
  }

  // ----- A signal taken is a trade made -----

  /** The result of the trade a signal of this bar opened. */
  predicate ResultOf(settings: Settings, sig: Signal, bar: Bar, r: Result) {
    && r.direction == sig.direction && r.entry == sig.entry && r.originalStop == sig.stop && r.target == sig.target
    && r.entryTime == bar.time
    && r.confidence == (if settings.enableTod then sig.confidence * bar.todMultiplier else sig.confidence)
  }

  predicate TradeOf(settings: Settings, sig: Signal, bar: Bar, t: OpenTrade) {
    && t.direction == sig.direction && t.entry == sig.entry && t.originalStop == sig.stop && t.target == sig.target
    && t.entryTime == bar.time
    && t.confidence == (if settings.enableTod then sig.confidence * bar.todMultiplier else sig.confidence)
  }

  ghost predicate Open(settings: Settings, sig: Signal, bar: Bar, open: seq<OpenTrade>) {
    exists t :: t in open && TradeOf(settings, sig, bar, t)
  }

  ghost predicate Closed(settings: Settings, sig: Signal, bar: Bar, results: seq<Result>) {
    exists r :: r in results && ResultOf(settings, sig, bar, r)
  }

  /** The trade of this signal is open or closed. */
  ghost predicate Traded(settings: Settings, sig: Signal, bar: Bar, s: Sim) {
    Open(settings, sig, bar, s.open) || Closed(settings, sig, bar, s.results)
  }

  lemma {:induction false} CheckKeepsTrade(settings: Settings, sig: Signal, origin: Bar, c: Checked, t: OpenTrade, bar: Bar, i: nat)
    ensures var c' := CheckOne(settings, c, t, bar, i);
      && (Closed(settings, sig, origin, c.results) ==> Closed(settings, sig, origin, c'.results))
      && (Open(settings, sig, origin, c.still) ==> Open(settings, sig, origin, c'.still))
      && (TradeOf(settings, sig, origin, t) ==> Closed(settings, sig, origin, c'.results) || Open(settings, sig, origin, c'.still))
  {
    var c', u := CheckOne(settings, c, t, bar, i), Trail(settings, t, bar);
    if TradeOf(settings, sig, origin, t) {
      match ExitOn(settings, u, bar, i) {
        case Some(r) =>
          assert r in c'.results && ResultOf(settings, sig, origin, r);
        case None =>
          assert Widen(u, bar) in c'.still && TradeOf(settings, sig, origin, Widen(u, bar));
      }
    }
  }

  lemma {:induction false} ExitsKeepTrade(settings: Settings, sig: Signal, origin: Bar, s: Sim, bar: Bar, i: nat, n: nat)
    requires n <= |s.open|
    ensures var c := CheckExits(settings, s, bar, i, n);
      Closed(settings, sig, origin, s.results) || Open(settings, sig, origin, s.open[..n]) ==>
        Closed(settings, sig, origin, c.results) || Open(settings, sig, origin, c.still)
  {
    hide CheckOne;
    hide TradeOf;
    hide ResultOf;
    if n == 0 {
    } else {
      ExitsKeepTrade(settings, sig, origin, s, bar, i, n - 1);
      CheckKeepsTrade(settings, sig, origin, CheckExits(settings, s, bar, i, n - 1), s.open[n - 1], bar, i);
      assert s.open[..n] == s.open[..n - 1] + [s.open[n - 1]];
    }
  }

  lemma {:induction false} AdmitsKeepTrade(settings: Settings, sig: Signal, origin: Bar, s: Sim, sigs: seq<Signal>, bar: Bar, i: nat, n: nat, m: nat)
    requires n <= m <= |sigs| && Traded(settings, sig, origin, Admit(settings, s, sigs, bar, i, n))
    ensures Traded(settings, sig, origin, Admit(settings, s, sigs, bar, i, m))
  {
    hide AdmitOne;
    hide TradeOf;
    hide ResultOf;
    hide FateOf;
    if n < m {
      AdmitsKeepTrade(settings, sig, origin, s, sigs, bar, i, n, m - 1);
      var before := Admit(settings, s, sigs, bar, i, m - 1);
      SignalMeetsItsFate(settings, before, sigs[m - 1], bar, i);
      assert before.open <= AdmitOne(settings, before, sigs[m - 1], bar, i).open;
    }
  }

  lemma {:induction false} BarKeepsTrade(settings: Settings, sig: Signal, origin: Bar, s: Sim, bar: Bar, i: nat)
    requires Traded(settings, sig, origin, s)
    ensures Traded(settings, sig, origin, BarStep(settings, s, bar, i))
  {
    hide Open;
    hide Closed;
    hide CheckExits;
    assert s.open[..|s.open|] == s.open;
    ExitsKeepTrade(settings, sig, origin, s, bar, i, |s.open|);
    if !s.crashed {
      AdmitsKeepTrade(settings, sig, origin, AfterExits(settings, s, bar, i), SignalsOf(bar), bar, i, 0, |SignalsOf(bar)|);
    }
  }

  lemma {:induction false} RunKeepsTrade(settings: Settings, sig: Signal, origin: Bar, start: Sim, bars: seq<Bar>, windowSize: nat, k: nat, m: nat)
    requires k <= m <= |bars| && Traded(settings, sig, origin, RunTo(settings, start, bars, windowSize, k))
    ensures Traded(settings, sig, origin, RunTo(settings, start, bars, windowSize, m))
  {
    hide Traded;
    hide BarStep;
    if k < m {
      RunKeepsTrade(settings, sig, origin, start, bars, windowSize, k, m - 1);
      if m > windowSize {
        BarKeepsTrade(settings, sig, origin, RunTo(settings, start, bars, windowSize, m - 1), bars[m - 1], m - 1);
      }
    }
  }

  lemma {:induction false} CloseOutKeepsTrade(settings: Settings, sig: Signal, origin: Bar, open: seq<OpenTrade>, last: Bar, count: nat)
    requires Open(settings, sig, origin, open)
    ensures Closed(settings, sig, origin, CloseOut(settings, open, last, count))
  {
    var n := |open| - 1;
    var r := CloseAt(settings, open[n], last.close, EndOfData, last.time, count - 1 - open[n].entryIndex);
    assert r in CloseOut(settings, open, last, count);
    if TradeOf(settings, sig, origin, open[n]) {
      assert ResultOf(settings, sig, origin, r);
    } else {
      assert open == open[..n] + [open[n]];
      CloseOutKeepsTrade(settings, sig, origin, open[..n], last, count);
    }
  }

  lemma {:induction false} CloseOutLength(settings: Settings, open: seq<OpenTrade>, last: Bar, count: nat)
    ensures |CloseOut(settings, open, last, count)| == |open|
  {
    if open == [] {
    } else {
      CloseOutLength(settings, open[..|open| - 1], last, count);
    }
  }

  lemma {:induction false} TakenIsOpen(settings: Settings, s: Sim, sig: Signal, bar: Bar, i: nat)
    requires FateOf(settings, s, sig, bar) == Taken
    ensures Traded(settings, sig, bar, AdmitOne(settings, s, sig, bar, i))
  {
    SignalMeetsItsFate(settings, s, sig, bar, i);
    hide FateOf;
    hide AdmitOne;
    var r := AdmitOne(settings, s, sig, bar, i);
    assert r.open[|s.open|] in r.open && TradeOf(settings, sig, bar, r.open[|s.open|]);
  }

  /** In a run that does not crash every signal taken is the origin of a result. */
  lemma {:induction false} TakenSignalIsTraded(settings: Settings, breaker: Option<Breaker>, bars: seq<Bar>, windowSize: nat, k: nat, j: nat)
    requires windowSize <= k < |bars| && j < |SignalsOf(bars[k])|
    requires !RunTo(settings, StartOf(breaker), bars, windowSize, |bars|).crashed
    requires FateAt(settings, StartOf(breaker), bars, windowSize, k, j) == Taken
    ensures Closed(settings, SignalsOf(bars[k])[j], bars[k],
                   AllResults(settings, RunTo(settings, StartOf(breaker), bars, windowSize, |bars|), bars))
  {
    var start, sig, sigs := StartOf(breaker), SignalsOf(bars[k])[j], SignalsOf(bars[k]);
    var s := RunTo(settings, start, bars, windowSize, k);
    assert !s.crashed;
    hide RunTo;
    hide CheckExits;
    hide Traded;
    TakenIsOpen(settings, Before(settings, start, bars, windowSize, k, j), sig, bars[k], k);
    AdmitsKeepTrade(settings, sig, bars[k], AfterExits(settings, s, bars[k], k), sigs, bars[k], k, j + 1, |sigs|);
    OneMoreBar(settings, start, bars, windowSize, k);
    RunKeepsTrade(settings, sig, bars[k], start, bars, windowSize, k + 1, |bars|);
    TradedIsInResults(settings, sig, bars[k], RunTo(settings, start, bars, windowSize, |bars|), bars);
  }

  lemma {:induction false} OneMoreBar(settings: Settings, start: Sim, bars: seq<Bar>, windowSize: nat, k: nat)
    requires windowSize <= k < |bars|
    ensures RunTo(settings, start, bars, windowSize, k + 1) == BarStep(settings, RunTo(settings, start, bars, windowSize, k), bars[k], k)
  {
  }

  lemma {:induction false} TradedIsInResults(settings: Settings, sig: Signal, origin: Bar, fin: Sim, bars: seq<Bar>)
    requires bars != [] && Traded(settings, sig, origin, fin)
    ensures Closed(settings, sig, origin, AllResults(settings, fin, bars))
  {
    hide ResultOf;
    hide TradeOf;
    if Open(settings, sig, origin, fin.open) {
      CloseOutKeepsTrade(settings, sig, origin, fin.open, bars[|bars| - 1], |bars|);
    }
  }

  /** And there are no other results: as many as signals taken. */
  lemma {:induction false} ResultsAreSignalsTaken(settings: Settings, breaker: Option<Breaker>, bars: seq<Bar>, windowSize: nat)
    ensures var fin := RunTo(settings, StartOf(breaker), bars, windowSize, |bars|);
      !fin.crashed ==> |AllResults(settings, fin, bars)| == SumBy(Fates(settings, StartOf(breaker), bars, windowSize, |bars|), IsTaken)
  {
    var fin := RunTo(settings, StartOf(breaker), bars, windowSize, |bars|);
    FatesAddUp(settings, breaker, bars, windowSize, |bars|);
    hide Fates;
    if bars == [] {
      assert fin.open == [];
    } else {
      CloseOutLength(settings, fin.open, bars[|bars| - 1], |bars|);
    }
  }

  // ----- The one-minute pause, from the trades -----

  /** The latest entry in each direction is what the pause is measured from. */
  ghost predicate LastIsLatest(s: Sim, time: int) {
    && (forall t :: t in s.open ==> t.direction in s.lastSignal && t.entryTime <= s.lastSignal[t.direction])
    && (forall r :: r in s.results ==> r.direction in s.lastSignal && r.entryTime <= s.lastSignal[r.direction])
    && (forall d :: d in s.lastSignal ==> s.lastSignal[d] <= time && EnteredAt(s, d, s.lastSignal[d]))
  }

  ghost predicate EnteredAt(s: Sim, d: Direction, time: int) {
    || (exists t :: t in s.open && t.direction == d && t.entryTime == time)
    || (exists r :: r in s.results && r.direction == d && r.entryTime == time)
  }

  ghost predicate EnteredSince(s: Sim, d: Direction, time: int) {
    || (exists t :: t in s.open && t.direction == d && t.entryTime > time)
    || (exists r :: r in s.results && r.direction == d && r.entryTime > time)
  }

  /** A signal comes too soon exactly when a trade of its direction, open or
      closed, was entered less than a minute before. */
  lemma {:induction false} SoonMeansJustEntered(s: Sim, d: Direction, time: int)
    requires LastIsLatest(s, time)
    ensures JustTaken(s, d, time) <==> EnteredSince(s, d, time - 60)
  {
    if JustTaken(s, d, time) {
      assert EnteredAt(s, d, s.lastSignal[d]);
    }
  }

  ghost predicate TimesAscend(bars: seq<Bar>) {
    forall i, j :: 0 <= i < j < |bars| ==> bars[i].time <= bars[j].time
  }

  lemma {:induction false} CheckKeepsLatest(settings: Settings, s: Sim, c: Checked, rest: seq<OpenTrade>, t: OpenTrade, bar: Bar, i: nat, time: int)
    requires LastIsLatest(s.(open := c.still + [t] + rest, results := c.results), time)
    ensures var c' := CheckOne(settings, c, t, bar, i);
      LastIsLatest(s.(open := c'.still + rest, results := c'.results), time)
  {
    var was := s.(open := c.still + [t] + rest, results := c.results);
    var c', u := CheckOne(settings, c, t, bar, i), Trail(settings, t, bar);
    var now := s.(open := c'.still + rest, results := c'.results);
    assert t in was.open;
    assert u.direction == t.direction && u.entryTime == t.entryTime;
    hide Trail;
    forall d | d in s.lastSignal
      ensures EnteredAt(now, d, s.lastSignal[d])
    {
      assert EnteredAt(was, d, s.lastSignal[d]);
      EntryStays(settings, s, c, rest, t, bar, i, d, s.lastSignal[d]);
    }
    forall x | x in now.open
      ensures x.direction in s.lastSignal && x.entryTime <= s.lastSignal[x.direction]
    {
      assert x in was.open || x == Widen(u, bar);
    }
    forall r | r in now.results
      ensures r.direction in s.lastSignal && r.entryTime <= s.lastSignal[r.direction]
    {
      assert r in was.results || (r.direction == t.direction && r.entryTime == t.entryTime);
    }
  }

  lemma {:induction false} EntryStays(
      settings: Settings, s: Sim, c: Checked, rest: seq<OpenTrade>, t: OpenTrade, bar: Bar, i: nat, d: Direction, time: int)
    requires EnteredAt(s.(open := c.still + [t] + rest, results := c.results), d, time)
    ensures var c' := CheckOne(settings, c, t, bar, i);
      EnteredAt(s.(open := c'.still + rest, results := c'.results), d, time)
  {
    var was := s.(open := c.still + [t] + rest, results := c.results);
    var c', u := CheckOne(settings, c, t, bar, i), Trail(settings, t, bar);
    var now := s.(open := c'.still + rest, results := c'.results);
    if r :| r in was.results && r.direction == d && r.entryTime == time {
      assert r in now.results;
    } else {
      var x :| x in was.open && x.direction == d && x.entryTime == time;
      if x == t {
        match ExitOn(settings, u, bar, i) {
          case Some(r) =>
            assert r in now.results && r.direction == d && r.entryTime == time;
          case None =>
            assert Widen(u, bar) in now.open && Widen(u, bar).direction == d && Widen(u, bar).entryTime == time;
        }
      } else {
        assert x in now.open;
      }
    }
  }

  lemma {:induction false} ExitsKeepLatest(settings: Settings, s: Sim, bar: Bar, i: nat, n: nat, time: int)
    requires n <= |s.open| && LastIsLatest(s, time)
    ensures var c := CheckExits(settings, s, bar, i, n);
      LastIsLatest(s.(open := c.still + s.open[n..], results := c.results), time)
  {
    hide LastIsLatest;
    hide CheckOne;
    if n == 0 {
      assert [] + s.open[0..] == s.open;
    } else {
      ExitsKeepLatest(settings, s, bar, i, n - 1, time);
      var c := CheckExits(settings, s, bar, i, n - 1);
      assert c.still + [s.open[n - 1]] + s.open[n..] == c.still + s.open[n - 1..];
      CheckKeepsLatest(settings, s, c, s.open[n..], s.open[n - 1], bar, i, time);
    }
  }

  lemma {:induction false} AfterExitsLatest(settings: Settings, s: Sim, bar: Bar, i: nat, time: int)
    requires LastIsLatest(s, time)
    ensures LastIsLatest(AfterExits(settings, s, bar, i), time)
  {
    hide LastIsLatest;
    hide CheckExits;
    ExitsKeepLatest(settings, s, bar, i, |s.open|, time);
    var c := CheckExits(settings, s, bar, i, |s.open|);
    assert c.still + s.open[|s.open|..] == c.still;
    SameLatest(s.(open := c.still, results := c.results), AfterExits(settings, s, bar, i), time);
  }

  /** Only the trades and the last entries matter. */
  lemma {:induction false} SameLatest(a: Sim, b: Sim, time: int)
    requires LastIsLatest(a, time) && a.open == b.open && a.results == b.results && a.lastSignal == b.lastSignal
    ensures LastIsLatest(b, time)
  {
    forall d | d in b.lastSignal
      ensures EnteredAt(b, d, b.lastSignal[d])
    {
      assert EnteredAt(a, d, a.lastSignal[d]);
    }
  }

  lemma {:induction false} LaterIsLatest(s: Sim, was: int, now: int)
    requires LastIsLatest(s, was) && was <= now
    ensures LastIsLatest(s, now)
  {
    hide EnteredAt;
  }

  lemma {:induction false} EntryKeepsLatest(s: Sim, r: Sim, t: OpenTrade)
    requires LastIsLatest(s, t.entryTime)
    requires r.open == s.open + [t] && r.results == s.results && r.lastSignal == s.lastSignal[t.direction := t.entryTime]
    ensures LastIsLatest(r, t.entryTime)
  {
    assert t in r.open;
    assert forall x :: x in r.open <==> x in s.open || x == t;
    forall d | d in r.lastSignal
      ensures EnteredAt(r, d, r.lastSignal[d])
    {
      if d != t.direction {
        assert EnteredAt(s, d, s.lastSignal[d]);
      }
    }
  }

  lemma {:induction false} AdmitKeepsLatest(settings: Settings, s: Sim, sig: Signal, bar: Bar, i: nat)
    requires LastIsLatest(s, bar.time)
    ensures LastIsLatest(AdmitOne(settings, s, sig, bar, i), bar.time)
  {
    hide FateOf;
    hide AdmitOne;
    hide LastIsLatest;
    SignalMeetsItsFate(settings, s, sig, bar, i);
    var r := AdmitOne(settings, s, sig, bar, i);
    if r.open == s.open {
      SameLatest(s, r, bar.time);
    } else {
      var t := r.open[|s.open|];
      assert r.open == s.open + [t];
      EntryKeepsLatest(s, r, t);
    }
  }

  lemma {:induction false} AdmitsKeepLatest(settings: Settings, s: Sim, sigs: seq<Signal>, bar: Bar, i: nat, n: nat)
    requires LastIsLatest(s, bar.time) && n <= |sigs|
    ensures LastIsLatest(Admit(settings, s, sigs, bar, i, n), bar.time)
  {
    hide LastIsLatest;
    hide AdmitOne;
    if n == 0 {
    } else {
      AdmitsKeepLatest(settings, s, sigs, bar, i, n - 1);
      AdmitKeepsLatest(settings, Admit(settings, s, sigs, bar, i, n - 1), sigs[n - 1], bar, i);
    }
  }

  lemma {:induction false} BarKeepsLatest(settings: Settings, s: Sim, bar: Bar, i: nat, was: int)
    requires LastIsLatest(s, was) && was <= bar.time
    ensures LastIsLatest(BarStep(settings, s, bar, i), bar.time)
  {
    hide LastIsLatest;
    hide AfterExits;
    hide Admit;
    LaterIsLatest(s, was, bar.time);
    AfterExitsLatest(settings, s, bar, i, bar.time);
    AdmitsKeepLatest(settings, AfterExits(settings, s, bar, i), SignalsOf(bar), bar, i, |SignalsOf(bar)|);
  }

  lemma {:induction false} RunKeepsLatest(settings: Settings, breaker: Option<Breaker>, bars: seq<Bar>, windowSize: nat, k: nat, time: int)
    requires k <= |bars| && TimesAscend(bars) && (forall j :: 0 <= j < k ==> bars[j].time <= time)
    ensures LastIsLatest(RunTo(settings, StartOf(breaker), bars, windowSize, k), time)
  {
    hide LastIsLatest;
    hide BarStep;
    if k <= windowSize {
      NothingIsLatest(breaker, time);
    } else {
      RunKeepsLatest(settings, breaker, bars, windowSize, k - 1, bars[k - 1].time);
      var s := RunTo(settings, StartOf(breaker), bars, windowSize, k - 1);
      BarKeepsLatest(settings, s, bars[k - 1], k - 1, bars[k - 1].time);
      LaterIsLatest(BarStep(settings, s, bars[k - 1], k - 1), bars[k - 1].time, time);
    }
  }

  lemma {:induction false} NothingIsLatest(breaker: Option<Breaker>, time: int)
    ensures LastIsLatest(StartOf(breaker), time)
  {
  }

  /** In a run over bars in time order, when a signal is too soon: exactly when a
      trade of its direction was entered less than a minute before its bar. */
  lemma {:induction false} PauseFollowsTrades(
      settings: Settings, breaker: Option<Breaker>, bars: seq<Bar>, windowSize: nat, k: nat, j: nat)
    requires windowSize <= k < |bars| && j < |SignalsOf(bars[k])| && TimesAscend(bars)
    ensures var s, d := Before(settings, StartOf(breaker), bars, windowSize, k, j), SignalsOf(bars[k])[j].direction;
      JustTaken(s, d, bars[k].time) <==> EnteredSince(s, d, bars[k].time - 60)
  {
    hide LastIsLatest;
    hide AfterExits;
    hide Admit;
    hide EnteredSince;
    hide JustTaken;
    var s := RunTo(settings, StartOf(breaker), bars, windowSize, k);
    RunKeepsLatest(settings, breaker, bars, windowSize, k, bars[k].time);
    AfterExitsLatest(settings, s, bars[k], k, bars[k].time);
    AdmitsKeepLatest(settings, AfterExits(settings, s, bars[k], k), SignalsOf(bars[k]), bars[k], k, j);
    SoonMeansJustEntered(Before(settings, StartOf(breaker), bars, windowSize, k, j), SignalsOf(bars[k])[j].direction, bars[k].time);
  }

  // ----- What the breaker is told -----

  /** A result as the breaker hears of it: a win is a positive dollar result. */
  function Told(r: Result): CircuitBreaker.Closed {
    CircuitBreaker.Closed(r.pnlDollars > 0.0, r.pnlDollars)
  }

  /** The breaker has heard of exactly these results, in order, among the questions. */
  ghost predicate Heard(cfg: Config, b: Option<Breaker>, results: seq<Result>, calls: seq<Call>) {
    b == Some(After(Fresh(cfg), calls)) && History(calls) == MapSeq(results, Told)
  }

  lemma {:induction false} HearsResult(cfg: Config, b: Option<Breaker>, results: seq<Result>, calls: seq<Call>, r: Result)
    requires Heard(cfg, b, results, calls)
    ensures Heard(cfg, RecordIn(b, r), results + [r], calls + [Recorded(r.pnlDollars, r.pnlDollars > 0.0)])
  {
    hide Record;
    var more := calls + [Recorded(r.pnlDollars, r.pnlDollars > 0.0)];
    assert more[..|calls|] == calls;
    assert MapSeq(results + [r], Told) == MapSeq(results, Told) + [Told(r)];
  }

  lemma {:induction false} HearsQuestion(cfg: Config, b: Option<Breaker>, results: seq<Result>, calls: seq<Call>, q: Query)
    requires Heard(cfg, b, results, calls)
    ensures Heard(cfg, Some(Ask(b.value, q).1), results, calls + [Call.Asked(q)])
  {
    hide Ask;
    assert (calls + [Call.Asked(q)])[..|calls|] == calls;
  }

  lemma {:induction false} ExitsAreHeard(cfg: Config, settings: Settings, s: Sim, bar: Bar, i: nat, n: nat, calls: seq<Call>)
    returns (more: seq<Call>)
    requires n <= |s.open| && Heard(cfg, s.breaker, s.results, calls)
    ensures var c := CheckExits(settings, s, bar, i, n); Heard(cfg, c.breaker, c.results, more)
  {
    hide Heard;
    hide RecordIn;
    if n == 0 {
      more := calls;
    } else {
      more := ExitsAreHeard(cfg, settings, s, bar, i, n - 1, calls);
      var c, u := CheckExits(settings, s, bar, i, n - 1), Trail(settings, s.open[n - 1], bar);
      match ExitOn(settings, u, bar, i) {
        case Some(r) =>
          HearsResult(cfg, c.breaker, c.results, more, r);
          more := more + [Recorded(r.pnlDollars, r.pnlDollars > 0.0)];
        case None =>
      }
    }
  }

  lemma {:induction false} SignalsAreHeard(cfg: Config, settings: Settings, s: Sim, sigs: seq<Signal>, bar: Bar, i: nat, n: nat, calls: seq<Call>)
    returns (more: seq<Call>)
    requires n <= |sigs| && Heard(cfg, s.breaker, s.results, calls)
    ensures var r := Admit(settings, s, sigs, bar, i, n); Heard(cfg, r.breaker, r.results, more)
  {
    hide Heard;
    hide AdmitOne;
    hide Ask;
    if n == 0 {
      more := calls;
    } else {
      more := SignalsAreHeard(cfg, settings, s, sigs, bar, i, n - 1, calls);
      var before, sig := Admit(settings, s, sigs, bar, i, n - 1), sigs[n - 1];
      SignalMeetsItsFate(settings, before, sig, bar, i);
      HearsQuestion(cfg, before.breaker, before.results, more, Asked(sig, bar));
      if AdmitOne(settings, before, sig, bar, i).breaker != before.breaker {
        more := more + [Call.Asked(Asked(sig, bar))];
      }
    }
  }

  /** In every run the breaker is the one that was told of exactly the results so
      far, each once, in order, with its dollars and its sign. */
  lemma {:induction false} BreakerHearsEveryResult(cfg: Config, settings: Settings, bars: seq<Bar>, windowSize: nat, k: nat)
    returns (calls: seq<Call>)
    requires k <= |bars|
    ensures var s := RunTo(settings, StartOf(Some(Fresh(cfg))), bars, windowSize, k);
      s.breaker == Some(After(Fresh(cfg), calls)) && History(calls) == MapSeq(s.results, Told)
  {
    if k <= windowSize {
      calls := [];
    } else {
      calls := BreakerHearsEveryResult(cfg, settings, bars, windowSize, k - 1);
      var s, bar := RunTo(settings, StartOf(Some(Fresh(cfg))), bars, windowSize, k - 1), bars[k - 1];
      if !s.crashed {
        calls := ExitsAreHeard(cfg, settings, s, bar, k - 1, |s.open|, calls);
        calls := SignalsAreHeard(cfg, settings, AfterExits(settings, s, bar, k - 1), SignalsOf(bar), bar, k - 1, |SignalsOf(bar)|, calls);
      }
    }
  }
}
