/** The bar-by-bar backtester (scripts/backtesting/backtest_engine.py,
    `run_backtest`).

    Signals are inputs: each bar carries whatever the signal generator returned
    for it, or `None` when it raised. A bar also carries the values the engine
    derives elsewhere: the time-of-day multiplier, the 5-minute regime and the
    ATR of the window. Prices and money are real numbers. */
module Engine {
  import opened Common
  import opened CircuitBreaker

  const SIGNAL_COOLDOWN_SECONDS := 60
  const BREAKEVEN_OFFSET: real := 0.25

  datatype Signal = Signal(
    direction: Direction, entry: real, stop: real, target: real, confidence: real, regime: Option<Regime>)

  datatype Bar = Bar(
    time: int, day: int, high: real, low: real, close: real,
    todMultiplier: real, regime5m: Option<Regime>, atr: real, signals: Option<seq<Signal>>)

  datatype Phase = Phase(name: string, activation: real, trail: real)

  /** `phases` is `None` when trailing stops are off. */
  datatype Settings = Settings(
    phases: Option<seq<Phase>>, pointValue: real, enableTod: bool, minConfidence: real)

  datatype OpenTrade = OpenTrade(
    direction: Direction, entry: real, stop: real, target: real, originalStop: real,
    confidence: real, entryTime: int, entryIndex: nat, maxPrice: real, minPrice: real,
    atr: real, best: real, phase: Option<string>)

  datatype ExitReason = StopLoss | TakeProfit | EndOfData

  datatype Result = Result(
    direction: Direction, entryTime: int, exitTime: int, entry: real, exit: real,
    originalStop: real, target: real, reason: ExitReason, pnlPoints: real, pnlDollars: real,
    mfe: real, mae: real, confidence: real, phase: Option<string>, holdBars: int)

  /** Everything the loop carries from bar to bar. `crashed` says that the breaker
      divided by zero, which ends the run. */
  datatype Sim = Sim(
    breaker: Option<Breaker>, open: seq<OpenTrade>, results: seq<Result>,
    lastSignal: map<Direction, int>, generated: nat, cbBlocked: nat, todBlocked: nat, crashed: bool)

  function Points(d: Direction, entry: real, exit: real): real {
    if d == Long then exit - entry else entry - exit
  }

  // ----- Trailing stops -----

  /** The most aggressive phase whose activation distance is reached. */
  function ActivePhase(phases: seq<Phase>, move: real, atr: real): Option<Phase> {
    if phases == [] then None
    else
      var last := phases[|phases| - 1];
      if move >= last.activation * atr then Some(last)
      else ActivePhase(phases[..|phases| - 1], move, atr)
  }

  function BestPrice(t: OpenTrade, bar: Bar): real {
    if t.direction == Long then MaxReal(t.best, bar.high) else MinReal(t.best, bar.low)
  }

  function PhaseStop(t: OpenTrade, p: Phase): real {
    if p.trail == 0.0 then
      t.entry + (if t.direction == Long then BREAKEVEN_OFFSET else -BREAKEVEN_OFFSET)
    else if t.direction == Long then t.best - p.trail * t.atr
    else t.best + p.trail * t.atr
  }

  /** Is stop `a` closer to profit than stop `b`? */
  predicate Tighter(d: Direction, a: real, b: real) {
    if d == Long then a > b else a < b
  }

  function Trail(settings: Settings, t: OpenTrade, bar: Bar): OpenTrade {
    if settings.phases == None then t
    else
      var u := t.(best := BestPrice(t, bar));
      var p := ActivePhase(settings.phases.value, Points(u.direction, u.entry, u.best), u.atr);
      if p.Some? && Tighter(u.direction, PhaseStop(u, p.value), u.stop) then
        u.(stop := PhaseStop(u, p.value), phase := Some(p.value.name))
      else u
  }

  // ----- Exits -----

  predicate HitsStop(t: OpenTrade, bar: Bar) {
    if t.direction == Long then bar.low <= t.stop else bar.high >= t.stop
  }

  predicate HitsTarget(t: OpenTrade, bar: Bar) {
    if t.direction == Long then bar.high >= t.target else bar.low <= t.target
  }

  function CloseAt(settings: Settings, t: OpenTrade, exit: real, reason: ExitReason, time: int, holdBars: int): Result {
    var points := Points(t.direction, t.entry, exit);
    Result(t.direction, t.entryTime, time, t.entry, exit, t.originalStop, t.target, reason,
           points, points * settings.pointValue,
           if t.direction == Long then t.maxPrice - t.entry else t.entry - t.minPrice,
           if t.direction == Long then t.entry - t.minPrice else t.maxPrice - t.entry,
           t.confidence, t.phase, holdBars)
  }

  /** The result of a trade on a bar, stop first, or `None` if it stays open. */
  function ExitOn(settings: Settings, t: OpenTrade, bar: Bar, i: nat): Option<Result> {
    if HitsStop(t, bar) then Some(CloseAt(settings, t, t.stop, StopLoss, bar.time, i - t.entryIndex))
    else if HitsTarget(t, bar) then Some(CloseAt(settings, t, t.target, TakeProfit, bar.time, i - t.entryIndex))
    else None
  }

  function Widen(t: OpenTrade, bar: Bar): OpenTrade {
    t.(maxPrice := MaxReal(t.maxPrice, bar.high), minPrice := MinReal(t.minPrice, bar.low))
  }

  function RecordIn(b: Option<Breaker>, r: Result): Option<Breaker> {
    match b
    case None => None
    case Some(cb) => Some(Record(cb, r.pnlDollars, r.pnlDollars > 0.0))
  }

  /** What is known after some of the open trades have been checked. */
  datatype Checked = Checked(breaker: Option<Breaker>, results: seq<Result>, still: seq<OpenTrade>)

  function CheckOne(settings: Settings, c: Checked, t: OpenTrade, bar: Bar, i: nat): Checked {
    var u := Trail(settings, t, bar);
    match ExitOn(settings, u, bar, i)
    case Some(r) => Checked(RecordIn(c.breaker, r), c.results + [r], c.still)
    case None => c.(still := c.still + [Widen(u, bar)])
  }

  /** The first `n` open trades checked for exits on bar `i`. */
  function CheckExits(settings: Settings, s: Sim, bar: Bar, i: nat, n: nat): Checked
    requires n <= |s.open|
  {
    if n == 0 then Checked(s.breaker, s.results, [])
    else CheckOne(settings, CheckExits(settings, s, bar, i, n - 1), s.open[n - 1], bar, i)
  }

  function AfterExits(settings: Settings, s: Sim, bar: Bar, i: nat): Sim {
    var c := CheckExits(settings, s, bar, i, |s.open|);
    s.(breaker := c.breaker, results := c.results, open := c.still)
  }

  // ----- Admission -----

  predicate HasOpen(open: seq<OpenTrade>, d: Direction) {
    exists k :: 0 <= k < |open| && open[k].direction == d
  }

  predicate Recent(s: Sim, d: Direction, time: int) {
    d in s.lastSignal && time - s.lastSignal[d] < SIGNAL_COOLDOWN_SECONDS
  }

  function Scaled(settings: Settings, sig: Signal, bar: Bar): real {
    if settings.enableTod then sig.confidence * bar.todMultiplier else sig.confidence
  }

  function QueryFor(sig: Signal, bar: Bar): Query {
    Query(sig.direction, bar.time, bar.day, if bar.regime5m.Some? then bar.regime5m else sig.regime)
  }

  function Entered(settings: Settings, sig: Signal, bar: Bar, i: nat): OpenTrade {
    OpenTrade(sig.direction, sig.entry, sig.stop, sig.target, sig.stop, Scaled(settings, sig, bar),
              bar.time, i, sig.entry, sig.entry, bar.atr, sig.entry, None)
  }

  function Enter(settings: Settings, s: Sim, sig: Signal, bar: Bar, i: nat): Sim {
    s.(open := s.open + [Entered(settings, sig, bar, i)], lastSignal := s.lastSignal[sig.direction := bar.time])
  }

  function AdmitOne(settings: Settings, s0: Sim, sig: Signal, bar: Bar, i: nat): Sim {
    var s := s0.(generated := s0.generated + 1);
    if s0.crashed then s0
    else if Recent(s, sig.direction, bar.time) || HasOpen(s.open, sig.direction) then s
    else if settings.enableTod && Scaled(settings, sig, bar) < settings.minConfidence then
      s.(todBlocked := s.todBlocked + 1)
    else
      match s.breaker
      case None => Enter(settings, s, sig, bar, i)
      case Some(cb) =>
        var (reason, cb') := Ask(cb, QueryFor(sig, bar));
        var asked := s.(breaker := Some(cb'));
        if reason == DividesByZero then asked.(crashed := true)
        else if reason == Passed then Enter(settings, asked, sig, bar, i)
        else asked.(cbBlocked := s.cbBlocked + 1)
  }

  /** The first `n` signals of a bar considered in turn. */
  function Admit(settings: Settings, s: Sim, sigs: seq<Signal>, bar: Bar, i: nat, n: nat): Sim
    requires n <= |sigs|
  {
    if n == 0 then s
    else AdmitOne(settings, Admit(settings, s, sigs, bar, i, n - 1), sigs[n - 1], bar, i)
  }

  function SignalsOf(bar: Bar): seq<Signal> {
    bar.signals.GetOr([])
  }

  function BarStep(settings: Settings, s: Sim, bar: Bar, i: nat): Sim {
    if s.crashed then s
    else Admit(settings, AfterExits(settings, s, bar, i), SignalsOf(bar), bar, i, |SignalsOf(bar)|)
  }

  /** The state after bars `windowSize .. k`. */
  function RunTo(settings: Settings, start: Sim, bars: seq<Bar>, windowSize: nat, k: nat): Sim
    requires k <= |bars|
  {
    if k <= windowSize then start
    else BarStep(settings, RunTo(settings, start, bars, windowSize, k - 1), bars[k - 1], k - 1)
  }

  function StartOf(breaker: Option<Breaker>): Sim {
    Sim(breaker, [], [], map[], 0, 0, 0, false)
  }

  /** Trades still open at the end are closed at the last close; the breaker is
      not told. */
  function CloseOut(settings: Settings, open: seq<OpenTrade>, last: Bar, count: nat): seq<Result> {
    if open == [] then []
    else
      var n := |open| - 1;
      CloseOut(settings, open[..n], last, count)
      + [CloseAt(settings, open[n], last.close, EndOfData, last.time, count - 1 - open[n].entryIndex)]
  }

  function AllResults(settings: Settings, end: Sim, bars: seq<Bar>): seq<Result> {
    end.results + if bars == [] then [] else CloseOut(settings, end.open, bars[|bars| - 1], |bars|)
  }

  // ----- The loop -----

  ghost function BreakerOf(cb: BacktestCircuitBreaker?): Option<Breaker>
    reads cb
  {
    if cb == null then None else Some(cb.State())
  }

  method CheckOpenTrades(settings: Settings, open: seq<OpenTrade>, bar: Bar, i: nat, cb: BacktestCircuitBreaker?, ghost s: Sim)
    returns (closed: seq<Result>, still: seq<OpenTrade>)
    requires s.breaker == BreakerOf(cb) && s.open == open
    modifies cb
    ensures var c := CheckExits(settings, s, bar, i, |open|);
      c.breaker == BreakerOf(cb) && c.results == s.results + closed && c.still == still
  {
    closed, still := [], [];
    for k := 0 to |open|
      invariant CheckExits(settings, s, bar, i, k) == Checked(BreakerOf(cb), s.results + closed, still)
    {
      var u := Trail(settings, open[k], bar);
      var exit := ExitOn(settings, u, bar, i);
      match exit {
        case Some(r) =>
          assert s.results + closed + [r] == s.results + (closed + [r]);
          closed := closed + [r];
          if cb != null {
            cb.RecordTrade(r.pnlDollars, r.pnlDollars > 0.0);
          }
        case None =>
          still := still + [Widen(u, bar)];
      }
    }
  }

  lemma {:induction false} CrashedAdmitStays(settings: Settings, s: Sim, sigs: seq<Signal>, bar: Bar, i: nat, n: nat, m: nat)
    requires n <= m <= |sigs| && Admit(settings, s, sigs, bar, i, n).crashed
    ensures Admit(settings, s, sigs, bar, i, m) == Admit(settings, s, sigs, bar, i, n)
  {
    if n < m {
      CrashedAdmitStays(settings, s, sigs, bar, i, n, m - 1);
    }
  }

  lemma {:induction false} CrashedRunStays(settings: Settings, start: Sim, bars: seq<Bar>, windowSize: nat, k: nat, m: nat)
    requires k <= m <= |bars| && RunTo(settings, start, bars, windowSize, k).crashed
    ensures RunTo(settings, start, bars, windowSize, m) == RunTo(settings, start, bars, windowSize, k)
  {
    if k < m {
      CrashedRunStays(settings, start, bars, windowSize, k, m - 1);
    }
  }

  method ConsiderSignal(settings: Settings, sig: Signal, bar: Bar, cb: BacktestCircuitBreaker?, s: Sim, i: nat)
    returns (r: Sim)
    requires s.breaker == None && !s.crashed
    modifies cb
    ensures r.breaker == None
    ensures r.(breaker := BreakerOf(cb)) == AdmitOne(settings, s.(breaker := old(BreakerOf(cb))), sig, bar, i)
  {
    r := s.(generated := s.generated + 1);
    if Recent(r, sig.direction, bar.time) || HasOpen(r.open, sig.direction) {
      return;
    }
    if settings.enableTod && Scaled(settings, sig, bar) < settings.minConfidence {
      r := r.(todBlocked := r.todBlocked + 1);
      return;
    }
    if cb != null {
      var reason := cb.ShouldAllow(QueryFor(sig, bar));
      if reason == DividesByZero {
        r := r.(crashed := true);
        return;
      }
      if reason != Passed {
        r := r.(cbBlocked := r.cbBlocked + 1);
        return;
      }
    }
    r := Enter(settings, r, sig, bar, i);
  }

  method AdmitSignals(settings: Settings, s: Sim, bar: Bar, i: nat, cb: BacktestCircuitBreaker?) returns (r: Sim)
    requires s.breaker == None && !s.crashed
    modifies cb
    ensures r.breaker == None
    ensures r.(breaker := BreakerOf(cb))
         == Admit(settings, s.(breaker := old(BreakerOf(cb))), SignalsOf(bar), bar, i, |SignalsOf(bar)|)
  {
    hide AdmitOne;
    hide SignalsOf;
    hide BacktestCircuitBreaker.State;
    var sigs := SignalsOf(bar);
    r := s;
    ghost var from := s.(breaker := BreakerOf(cb));
    for n := 0 to |sigs|
      invariant r.breaker == None && !r.crashed
      invariant r.(breaker := BreakerOf(cb)) == Admit(settings, from, sigs, bar, i, n)
    {
      r := ConsiderSignal(settings, sigs[n], bar, cb, r, i);
      if r.crashed {
        CrashedAdmitStays(settings, from, sigs, bar, i, n + 1, |sigs|);
        return;
      }
    }
  }

  /** One bar: exits first, then signals. */
  method ReplayBar(settings: Settings, s: Sim, bar: Bar, i: nat, cb: BacktestCircuitBreaker?) returns (r: Sim)
    requires s.breaker == None && !s.crashed
    modifies cb
    ensures r.breaker == None
    ensures r.(breaker := BreakerOf(cb)) == BarStep(settings, s.(breaker := old(BreakerOf(cb))), bar, i)
  {
    ghost var before := s.(breaker := BreakerOf(cb));
    var closed, still := CheckOpenTrades(settings, s.open, bar, i, cb, before);
    var checked := s.(results := s.results + closed, open := still);
    assert checked.(breaker := BreakerOf(cb)) == AfterExits(settings, before, bar, i);
    r := AdmitSignals(settings, checked, bar, i, cb);
  }

  method CloseRemaining(settings: Settings, open: seq<OpenTrade>, last: Bar, count: nat) returns (closed: seq<Result>)
    ensures closed == CloseOut(settings, open, last, count)
  {
    closed := [];
    for k := 0 to |open|
      invariant closed == CloseOut(settings, open[..k], last, count)
    {
      var t := open[k];
      assert open[..k + 1][..k] == open[..k];
      closed := closed + [CloseAt(settings, t, last.close, EndOfData, last.time, count - 1 - t.entryIndex)];
    }
    assert open[..|open|] == open;
  }

  /** The whole run; no results when the breaker divides by zero. The state value
      it carries leaves the breaker to the object. */
  method RunBacktest(settings: Settings, bars: seq<Bar>, windowSize: nat, cb: BacktestCircuitBreaker?)
    returns (results: Option<seq<Result>>, end: Sim)
    modifies cb
    ensures var fin := RunTo(settings, StartOf(old(BreakerOf(cb))), bars, windowSize, |bars|);
      && end.(breaker := BreakerOf(cb)) == fin
      && results == if fin.crashed then None else Some(AllResults(settings, fin, bars))
  {
    hide BarStep;
    hide CloseOut;
    hide BacktestCircuitBreaker.State;
    end := StartOf(None);
    ghost var start := StartOf(BreakerOf(cb));
    var i := windowSize;
    while i < |bars|
      invariant end.breaker == None && !end.crashed
      invariant end.(breaker := BreakerOf(cb)) == RunTo(settings, start, bars, windowSize, Min(i, |bars|))
    {
      end := ReplayBar(settings, end, bars[i], i, cb);
      i := i + 1;
      if end.crashed {
        CrashedRunStays(settings, start, bars, windowSize, i, |bars|);
        return None, end;
      }
    }
    if |bars| == 0 {
      assert end.results + [] == end.results;
      return Some(end.results), end;
    }
    var closed := CloseRemaining(settings, end.open, bars[|bars| - 1], |bars|);
    results := Some(end.results + closed);
  }
}
