/** Where the results of a backtest come from: every result is one signal of one
    bar, followed to the first bar that decides it. */
module EngineProvenance {
  import opened Common
  import opened CircuitBreaker
  import opened Engine

  // ----- What a result should say -----

  /** The highest price from `start` over bars `from .. to`. */
  function HighSince(start: real, bars: seq<Bar>, from: nat, to: nat): real
    requires to <= |bars|
  {
    if to <= from then start else MaxReal(HighSince(start, bars, from, to - 1), bars[to - 1].high)
  }

  function LowSince(start: real, bars: seq<Bar>, from: nat, to: nat): real
    requires to <= |bars|
  {
    if to <= from then start else MinReal(LowSince(start, bars, from, to - 1), bars[to - 1].low)
  }

  ghost predicate Offered(bar: Bar, d: Direction, entry: real, stop: real, target: real) {
    exists j :: 0 <= j < |SignalsOf(bar)| && Matches(SignalsOf(bar)[j], d, entry, stop, target)
  }

  predicate Matches(sig: Signal, d: Direction, entry: real, stop: real, target: real) {
    sig.direction == d && sig.entry == entry && sig.stop == stop && sig.target == target
  }

  /** The bar trades at or through a price below (above) a long (short) trade. */
  predicate FallsTo(d: Direction, bar: Bar, price: real) {
    if d == Long then bar.low <= price else bar.high >= price
  }

  predicate RisesTo(d: Direction, bar: Bar, price: real) {
    if d == Long then bar.high >= price else bar.low <= price
  }

  /** The excursions are those of bars `e + 1 .. to`. */
  ghost predicate Excursions(r: Result, bars: seq<Bar>, e: nat, to: nat)
    requires to <= |bars|
  {
    var high, low := HighSince(r.entry, bars, e + 1, to), LowSince(r.entry, bars, e + 1, to);
    if r.direction == Long then r.mfe == high - r.entry && r.mae == r.entry - low
    else r.mfe == r.entry - low && r.mae == high - r.entry
  }

  /** The most favourable price of bars `e + 1 .. to`. */
  function BestSince(d: Direction, entry: real, bars: seq<Bar>, e: nat, to: nat): real
    requires to <= |bars|
  {
    if d == Long then HighSince(entry, bars, e + 1, to) else LowSince(entry, bars, e + 1, to)
  }

  /** The trailing level set by bar `y`: that of the last phase whose activation
      the best price so far has reached. */
  function Level(settings: Settings, d: Direction, entry: real, bars: seq<Bar>, e: nat, y: nat): Option<real>
    requires e < y < |bars|
  {
    if settings.phases == None then None
    else
      var best, atr := BestSince(d, entry, bars, e, y + 1), bars[e].atr;
      match ActivePhase(settings.phases.value, if d == Long then best - entry else entry - best, atr)
      case None => None
      case Some(p) =>
        var gap := if p.trail == 0.0 then -BREAKEVEN_OFFSET else p.trail * atr;
        var from := if p.trail == 0.0 then entry else best;
        Some(if d == Long then from - gap else from + gap)
  }

  /** `stop` is the tightest of the original stop and the levels of bars `e + 1 .. to`. */
  ghost predicate Ratcheted(
      settings: Settings, d: Direction, entry: real, originalStop: real, stop: real, bars: seq<Bar>, e: nat, to: nat)
    requires to <= |bars|
  {
    && !Tighter(d, originalStop, stop)
    && (forall y :: e < y < to ==> NotTighter(d, Level(settings, d, entry, bars, e, y), stop))
    && (stop == originalStop || exists y :: e < y < to && Level(settings, d, entry, bars, e, y) == Some(stop))
  }

  predicate NotTighter(d: Direction, level: Option<real>, stop: real) {
    level.Some? ==> !Tighter(d, level.value, stop)
  }

  /** The stop after the levels of bars `e + 1 .. to`. */
  function StopBy(settings: Settings, d: Direction, entry: real, originalStop: real, bars: seq<Bar>, e: nat, to: nat): real
    requires to <= |bars|
  {
    if to <= e + 1 then originalStop
    else
      var stop, level := StopBy(settings, d, entry, originalStop, bars, e, to - 1), Level(settings, d, entry, bars, e, to - 1);
      if level.Some? && Tighter(d, level.value, stop) then level.value else stop
  }

  /** No bar strictly between `e` and `x` reaches the target, or the stop as it
      stands on that bar. */
  ghost predicate Undecided(
      settings: Settings, d: Direction, entry: real, originalStop: real, target: real, bars: seq<Bar>, e: nat, x: nat)
    requires x <= |bars|
  {
    forall y :: e < y < x ==>
      && !RisesTo(d, bars[y], target)
      && !FallsTo(d, bars[y], StopBy(settings, d, entry, originalStop, bars, e, y + 1))
  }

  /** The result follows a signal of bar `e` to bar `x`. */
  ghost predicate Spans(settings: Settings, r: Result, bars: seq<Bar>, e: nat, x: nat)
    requires e <= x < |bars|
  {
    && r.entryTime == bars[e].time && r.exitTime == bars[x].time && r.holdBars == x - e
    && Offered(bars[e], r.direction, r.entry, r.originalStop, r.target)
    && r.pnlPoints == (if r.direction == Long then r.exit - r.entry else r.entry - r.exit)
    && r.pnlDollars == r.pnlPoints * settings.pointValue
    && Undecided(settings, r.direction, r.entry, r.originalStop, r.target, bars, e, x)
    && match r.reason
      case StopLoss =>
        && e < x && Excursions(r, bars, e, x) && FallsTo(r.direction, bars[x], r.exit)
        && r.exit == StopBy(settings, r.direction, r.entry, r.originalStop, bars, e, x + 1)
        && Ratcheted(settings, r.direction, r.entry, r.originalStop, r.exit, bars, e, x + 1)
        && (r.phase == None ==> r.exit == r.originalStop)
      case TakeProfit =>
        && e < x && Excursions(r, bars, e, x) && RisesTo(r.direction, bars[x], r.exit) && r.exit == r.target
        && !FallsTo(r.direction, bars[x], StopBy(settings, r.direction, r.entry, r.originalStop, bars, e, x + 1))
      case EndOfData =>
        && x == |bars| - 1 && Excursions(r, bars, e, x + 1) && r.exit == bars[x].close
        && Undecided(settings, r.direction, r.entry, r.originalStop, r.target, bars, e, x + 1)
  }

  ghost predicate Explained(settings: Settings, r: Result, bars: seq<Bar>, windowSize: nat) {
    exists e: nat, x: nat :: windowSize <= e <= x < |bars| && Spans(settings, r, bars, e, x)
  }

  // ----- What an open trade carries -----

  /** What an open trade remembers of bars `.. k`. */
  ghost predicate Followed(settings: Settings, t: OpenTrade, bars: seq<Bar>, windowSize: nat, k: nat) {
    var e := t.entryIndex;
    && windowSize <= e < k <= |bars| && t.entryTime == bars[e].time
    && Offered(bars[e], t.direction, t.entry, t.originalStop, t.target)
    && t.maxPrice == HighSince(t.entry, bars, e + 1, k) && t.minPrice == LowSince(t.entry, bars, e + 1, k)
    && (t.phase == None ==> t.stop == t.originalStop)
    && Undecided(settings, t.direction, t.entry, t.originalStop, t.target, bars, e, k)
  }

  /** Its stop after the levels of bars `.. k`. */
  ghost predicate Trailing(settings: Settings, t: OpenTrade, bars: seq<Bar>, k: nat) {
    var e := t.entryIndex;
    && e < k <= |bars| && t.atr == bars[e].atr
    && (settings.phases.Some? ==> t.best == BestSince(t.direction, t.entry, bars, e, k))
    && t.stop == StopBy(settings, t.direction, t.entry, t.originalStop, bars, e, k)
  }

  /** An open trade after bars `.. k`. */
  ghost predicate Carried(settings: Settings, t: OpenTrade, bars: seq<Bar>, windowSize: nat, k: nat) {
    Followed(settings, t, bars, windowSize, k) && Trailing(settings, t, bars, k)
  }

  lemma {:induction false} TrailIsFollowed(settings: Settings, t: OpenTrade, bars: seq<Bar>, windowSize: nat, k: nat, bar: Bar)
    requires Followed(settings, t, bars, windowSize, k)
    ensures Followed(settings, Trail(settings, t, bar), bars, windowSize, k)
  {
  }

  /** Following the levels one bar further. */
  lemma {:induction false} RatchetStep(
      settings: Settings, d: Direction, entry: real, originalStop: real, stop: real, bars: seq<Bar>, e: nat, k: nat)
    requires e < k < |bars| && Ratcheted(settings, d, entry, originalStop, stop, bars, e, k)
    ensures var level := Level(settings, d, entry, bars, e, k);
      var next := if level.Some? && Tighter(d, level.value, stop) then level.value else stop;
      Ratcheted(settings, d, entry, originalStop, next, bars, e, k + 1)
  {
    hide Level;
  }

  /** The stop is the tightest of the original stop and every level reached so far. */
  lemma {:induction false} StopIsTightest(
      settings: Settings, d: Direction, entry: real, originalStop: real, bars: seq<Bar>, e: nat, to: nat)
    requires to <= |bars|
    ensures Ratcheted(settings, d, entry, originalStop, StopBy(settings, d, entry, originalStop, bars, e, to), bars, e, to)
  {
    hide Level;
    if to <= e + 1 {
    } else {
      StopIsTightest(settings, d, entry, originalStop, bars, e, to - 1);
      RatchetStep(settings, d, entry, originalStop, StopBy(settings, d, entry, originalStop, bars, e, to - 1), bars, e, to - 1);
    }
  }

  lemma {:induction false} BestStep(t: OpenTrade, bars: seq<Bar>, k: nat)
    requires t.entryIndex < k < |bars| && t.best == BestSince(t.direction, t.entry, bars, t.entryIndex, k)
    ensures BestPrice(t, bars[k]) == BestSince(t.direction, t.entry, bars, t.entryIndex, k + 1)
  {
  }

  lemma {:induction false} TrailReachesLevel(settings: Settings, t: OpenTrade, bars: seq<Bar>, k: nat)
    requires t.entryIndex < k < |bars| && t.atr == bars[t.entryIndex].atr
    requires BestPrice(t, bars[k]) == BestSince(t.direction, t.entry, bars, t.entryIndex, k + 1)
    ensures var level := Level(settings, t.direction, t.entry, bars, t.entryIndex, k);
      Trail(settings, t, bars[k]).stop == if level.Some? && Tighter(t.direction, level.value, t.stop) then level.value else t.stop
  {
    hide BestPrice;
    hide BestSince;
    hide ActivePhase;
  }

  lemma {:induction false} TrailRatchets(settings: Settings, t: OpenTrade, bars: seq<Bar>, k: nat)
    requires k < |bars| && Trailing(settings, t, bars, k)
    ensures Trailing(settings, Trail(settings, t, bars[k]), bars, k + 1)
  {
    hide Level;
    hide BestSince;
    if settings.phases.Some? {
      BestStep(t, bars, k);
      TrailReachesLevel(settings, t, bars, k);
    } else {
      NoLevel(settings, t.direction, t.entry, bars, t.entryIndex, k);
    }
  }

  lemma {:induction false} NoLevel(settings: Settings, d: Direction, entry: real, bars: seq<Bar>, e: nat, y: nat)
    requires e < y < |bars| && settings.phases == None
    ensures Level(settings, d, entry, bars, e, y) == None
  {
  }

  lemma {:induction false} ExitIsExplained(settings: Settings, t: OpenTrade, bars: seq<Bar>, windowSize: nat, k: nat)
    requires k < |bars| && Followed(settings, t, bars, windowSize, k) && Trailing(settings, t, bars, k + 1)
    ensures var exit := ExitOn(settings, t, bars[k], k);
      exit.Some? ==> Explained(settings, exit.value, bars, windowSize)
  {
    hide Ratcheted;
    hide HighSince;
    hide LowSince;
    hide BestSince;
    hide Offered;
    hide StopBy;
    StopIsTightest(settings, t.direction, t.entry, t.originalStop, bars, t.entryIndex, k + 1);
    var exit := ExitOn(settings, t, bars[k], k);
    if exit.Some? {
      assert Spans(settings, exit.value, bars, t.entryIndex, k);
    }
  }

  lemma {:induction false} StayIsCarried(settings: Settings, t: OpenTrade, bars: seq<Bar>, windowSize: nat, k: nat)
    requires k < |bars| && Followed(settings, t, bars, windowSize, k) && Trailing(settings, t, bars, k + 1)
    requires ExitOn(settings, t, bars[k], k) == None
    ensures Carried(settings, Widen(t, bars[k]), bars, windowSize, k + 1)
  {
  }

  ghost predicate AllCarried(settings: Settings, open: seq<OpenTrade>, bars: seq<Bar>, windowSize: nat, k: nat) {
    forall n :: 0 <= n < |open| ==> Carried(settings, open[n], bars, windowSize, k)
  }

  ghost predicate AllExplained(settings: Settings, results: seq<Result>, bars: seq<Bar>, windowSize: nat) {
    forall r :: r in results ==> Explained(settings, r, bars, windowSize)
  }

  lemma {:induction false} CheckOneExplains(settings: Settings, c: Checked, t: OpenTrade, bars: seq<Bar>, windowSize: nat, k: nat)
    requires k < |bars| && Carried(settings, t, bars, windowSize, k)
    requires AllCarried(settings, c.still, bars, windowSize, k + 1) && AllExplained(settings, c.results, bars, windowSize)
    ensures var c' := CheckOne(settings, c, t, bars[k], k);
      AllCarried(settings, c'.still, bars, windowSize, k + 1) && AllExplained(settings, c'.results, bars, windowSize)
  {
    var u := Trail(settings, t, bars[k]);
    TrailIsFollowed(settings, t, bars, windowSize, k, bars[k]);
    TrailRatchets(settings, t, bars, k);
    ExitIsExplained(settings, u, bars, windowSize, k);
    if ExitOn(settings, u, bars[k], k) == None {
      StayIsCarried(settings, u, bars, windowSize, k);
    }
  }

  lemma {:induction false} ExitsExplain(settings: Settings, s: Sim, bars: seq<Bar>, windowSize: nat, k: nat, n: nat)
    requires k < |bars| && n <= |s.open|
    requires AllCarried(settings, s.open, bars, windowSize, k) && AllExplained(settings, s.results, bars, windowSize)
    ensures var c := CheckExits(settings, s, bars[k], k, n);
      AllCarried(settings, c.still, bars, windowSize, k + 1) && AllExplained(settings, c.results, bars, windowSize)
  {
    hide Carried;
    hide Explained;
    hide CheckOne;
    if n == 0 {
    } else {
      ExitsExplain(settings, s, bars, windowSize, k, n - 1);
      CheckOneExplains(settings, CheckExits(settings, s, bars[k], k, n - 1), s.open[n - 1], bars, windowSize, k);
    }
  }

  lemma {:induction false} EntryIsCarried(settings: Settings, bars: seq<Bar>, windowSize: nat, k: nat, j: nat)
    requires windowSize <= k < |bars| && j < |SignalsOf(bars[k])|
    ensures Carried(settings, Entered(settings, SignalsOf(bars[k])[j], bars[k], k), bars, windowSize, k + 1)
  {
    var sig := SignalsOf(bars[k])[j];
    assert Matches(sig, sig.direction, sig.entry, sig.stop, sig.target);
  }

  /** A signal opens at most its own trade and closes none. */
  lemma {:induction false} AdmitOneOpens(settings: Settings, s: Sim, sig: Signal, bar: Bar, i: nat)
    ensures var r := AdmitOne(settings, s, sig, bar, i);
      r.results == s.results && (r.open == s.open || r.open == s.open + [Entered(settings, sig, bar, i)])
  {
  }

  lemma {:induction false} AdmitsCarry(settings: Settings, s: Sim, bars: seq<Bar>, windowSize: nat, k: nat, n: nat)
    requires windowSize <= k < |bars| && n <= |SignalsOf(bars[k])|
    requires AllCarried(settings, s.open, bars, windowSize, k + 1)
    ensures var r := Admit(settings, s, SignalsOf(bars[k]), bars[k], k, n);
      AllCarried(settings, r.open, bars, windowSize, k + 1) && r.results == s.results
  {
    hide Carried;
    hide AdmitOne;
    hide Entered;
    if n == 0 {
    } else {
      AdmitsCarry(settings, s, bars, windowSize, k, n - 1);
      var before := Admit(settings, s, SignalsOf(bars[k]), bars[k], k, n - 1);
      AdmitOneOpens(settings, before, SignalsOf(bars[k])[n - 1], bars[k], k);
      EntryIsCarried(settings, bars, windowSize, k, n - 1);
    }
  }

  ghost predicate Accounted(settings: Settings, s: Sim, bars: seq<Bar>, windowSize: nat, k: nat) {
    AllCarried(settings, s.open, bars, windowSize, k) && AllExplained(settings, s.results, bars, windowSize)
  }

  /** Accounted for, unless the run has ended early. */
  ghost predicate AccountedIfAlive(settings: Settings, s: Sim, bars: seq<Bar>, windowSize: nat, k: nat) {
    !s.crashed ==> Accounted(settings, s, bars, windowSize, k)
  }

  lemma {:induction false} BarAccounts(settings: Settings, s: Sim, bars: seq<Bar>, windowSize: nat, k: nat)
    requires windowSize <= k < |bars| && AccountedIfAlive(settings, s, bars, windowSize, k)
    ensures AccountedIfAlive(settings, BarStep(settings, s, bars[k], k), bars, windowSize, k + 1)
  {
    hide Carried;
    hide Explained;
    if !s.crashed {
      ExitsExplain(settings, s, bars, windowSize, k, |s.open|);
      AdmitsCarry(settings, AfterExits(settings, s, bars[k], k), bars, windowSize, k, |SignalsOf(bars[k])|);
    }
  }

  lemma {:induction false} NothingYet(settings: Settings, start: Sim, bars: seq<Bar>, windowSize: nat, k: nat)
    requires start.open == [] && start.results == []
    ensures AccountedIfAlive(settings, start, bars, windowSize, k)
  {
  }

  lemma {:induction false} RunAccounts(settings: Settings, start: Sim, bars: seq<Bar>, windowSize: nat, k: nat)
    requires start.open == [] && start.results == [] && k <= |bars|
    ensures AccountedIfAlive(settings, RunTo(settings, start, bars, windowSize, k), bars, windowSize, k)
  {
    hide BarStep;
    hide AccountedIfAlive;
    if k <= windowSize {
      NothingYet(settings, start, bars, windowSize, k);
    } else {
      RunAccounts(settings, start, bars, windowSize, k - 1);
      BarAccounts(settings, RunTo(settings, start, bars, windowSize, k - 1), bars, windowSize, k - 1);
    }
  }

  lemma {:induction false} LastCloseIsExplained(settings: Settings, t: OpenTrade, bars: seq<Bar>, windowSize: nat)
    requires bars != [] && Carried(settings, t, bars, windowSize, |bars|)
    ensures var last := bars[|bars| - 1];
      Explained(settings, CloseAt(settings, t, last.close, EndOfData, last.time, |bars| - 1 - t.entryIndex), bars, windowSize)
  {
    var last := bars[|bars| - 1];
    var r := CloseAt(settings, t, last.close, EndOfData, last.time, |bars| - 1 - t.entryIndex);
    assert Spans(settings, r, bars, t.entryIndex, |bars| - 1);
  }

  lemma {:induction false} CloseOutExplains(settings: Settings, open: seq<OpenTrade>, bars: seq<Bar>, windowSize: nat)
    requires bars != [] && AllCarried(settings, open, bars, windowSize, |bars|)
    ensures AllExplained(settings, CloseOut(settings, open, bars[|bars| - 1], |bars|), bars, windowSize)
  {
    hide Explained;
    hide Carried;
    hide CloseAt;
    if open == [] {
    } else {
      CloseOutExplains(settings, open[..|open| - 1], bars, windowSize);
      LastCloseIsExplained(settings, open[|open| - 1], bars, windowSize);
    }
  }

  /** Every result of a run belongs to a signal some bar offered, is closed by the
      first later bar that reaches its target or its unmoved stop (the stop if
      both), or at the last close, and reports the excursions of exactly the bars
      in between: an exit bar's own high and low are not counted. A stop exit is at
      the tightest of the original stop and every trailing level reached up to
      and including the exit bar. */
  lemma {:induction false} EveryResultIsExplained(settings: Settings, breaker: Option<Breaker>, bars: seq<Bar>, windowSize: nat)
    ensures var fin := RunTo(settings, StartOf(breaker), bars, windowSize, |bars|);
      !fin.crashed ==> AllExplained(settings, AllResults(settings, fin, bars), bars, windowSize)
  {
    var fin := RunTo(settings, StartOf(breaker), bars, windowSize, |bars|);
    RunAccounts(settings, StartOf(breaker), bars, windowSize, |bars|);
    if !fin.crashed && bars != [] {
      CloseOutExplains(settings, fin.open, bars, windowSize);
    }
  }

  // ----- Which phase is active -----

  predicate Reached(p: Phase, move: real, atr: real) {
    move >= p.activation * atr
  }

  /** The active phase is the last one of the list whose activation distance, in
      multiples of the ATR, the move has reached. */
  lemma {:induction false} ActivePhaseIsLastReached(phases: seq<Phase>, move: real, atr: real, p: Phase)
    ensures ActivePhase(phases, move, atr) == Some(p) <==>
      exists i :: 0 <= i < |phases| && phases[i] == p && Reached(p, move, atr)
        && forall j :: i < j < |phases| ==> !Reached(phases[j], move, atr)
    ensures ActivePhase(phases, move, atr) == None <==> forall j :: 0 <= j < |phases| ==> !Reached(phases[j], move, atr)
  {
    hide Reached;
    if phases != [] {
      var n := |phases| - 1;
      var before := phases[..n];
      ActivePhaseIsLastReached(before, move, atr, p);
      LastPhase(phases, move, atr);
      if !Reached(phases[n], move, atr) {
        assert forall j :: 0 <= j < n ==> phases[j] == before[j];
      }
    }
  }

  lemma {:induction false} LastPhase(phases: seq<Phase>, move: real, atr: real)
    requires phases != []
    ensures var n := |phases| - 1;
      ActivePhase(phases, move, atr)
      == if Reached(phases[n], move, atr) then Some(phases[n]) else ActivePhase(phases[..n], move, atr)
  {
  }
}
