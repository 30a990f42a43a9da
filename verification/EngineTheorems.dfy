/** What holds in every run of the backtester: how far a session can fall
    through its drawdown limit, that stops only tighten and a trailed trade
    closes in profit, and that a rolling-win-rate lockout never ends. */
module EngineTheorems {
  import opened Common
  import opened CircuitBreaker
  import opened Engine
  import opened EngineProvenance

  // ----- Risk of one trade -----

  /** The worst a bracket can return, by its stop or by its target, is `risk` dollars. */
  predicate WithinRisk(settings: Settings, sig: Signal, risk: real) {
    && Points(sig.direction, sig.entry, sig.stop) * settings.pointValue >= -risk
    && Points(sig.direction, sig.entry, sig.target) * settings.pointValue >= -risk
  }

  ghost predicate AllWithinRisk(settings: Settings, bars: seq<Bar>, risk: real) {
    forall k, j :: 0 <= k < |bars| && 0 <= j < |SignalsOf(bars[k])| ==>
      WithinRisk(settings, SignalsOf(bars[k])[j], risk)
  }

  /** The stop is no looser than at entry, and the bracket is within `risk`. */
  ghost predicate Contained(settings: Settings, t: OpenTrade, risk: real) {
    && !Tighter(t.direction, t.originalStop, t.stop)
    && Points(t.direction, t.entry, t.originalStop) * settings.pointValue >= -risk
    && Points(t.direction, t.entry, t.target) * settings.pointValue >= -risk
  }

  lemma {:induction false} ScaleOrder(a: real, b: real, k: real)
    requires a >= b && k >= 0.0
    ensures a * k >= b * k
  {
    assert (a - b) * k >= 0.0;
  }

  /** A stop never moves against the trade, and moves exactly when a phase is set. */
  lemma {:induction false} TrailOnlyTightens(settings: Settings, t: OpenTrade, bar: Bar)
    ensures var u := Trail(settings, t, bar);
      && !Tighter(t.direction, t.stop, u.stop)
      && (u.stop != t.stop ==> Tighter(t.direction, u.stop, t.stop) && u.phase.Some?)
      && (u.phase != t.phase ==> u.stop != t.stop)
      && u.(stop := t.stop, phase := t.phase, best := t.best) == t
  {
  }

  lemma {:induction false} ExitIsContained(settings: Settings, t: OpenTrade, bar: Bar, i: nat, risk: real)
    requires settings.pointValue >= 0.0 && Contained(settings, t, risk)
    ensures ExitOn(settings, t, bar, i).Some? ==> ExitOn(settings, t, bar, i).value.pnlDollars >= -risk
  {
    ScaleOrder(Points(t.direction, t.entry, t.stop), Points(t.direction, t.entry, t.originalStop), settings.pointValue);
  }

  // ----- The session floor -----

  ghost predicate OnePerDirection(open: seq<OpenTrade>) {
    forall a, b :: 0 <= a < b < |open| ==> open[a].direction != open[b].direction
  }

  ghost predicate AllContained(settings: Settings, open: seq<OpenTrade>, risk: real) {
    forall k :: 0 <= k < |open| ==> Contained(settings, open[k], risk)
  }

  /** The level the breaker admits trades above. */
  function Gate(cfg: Config): real {
    MinReal(0.0, -cfg.maxSessionDrawdown)
  }

  /** With `n` trades still at risk, the session can afford to lose all of them
      and stay within two risks of the gate. */
  ghost predicate Affords(b: Breaker, n: int, risk: real) {
    && b.dailyPnl == b.sessionPnl
    && b.sessionPnl >= Gate(b.cfg) - 2.0 * risk + (n as real) * risk
  }

  /** The trades `play` are at risk and the breaker can afford to lose them. */
  ghost predicate Covered(settings: Settings, b: Option<Breaker>, play: seq<OpenTrade>, cfg: Config, risk: real) {
    && b.Some? && b.value.cfg == cfg
    && OnePerDirection(play) && AllContained(settings, play, risk)
    && Affords(b.value, |play|, risk)
  }

  ghost predicate Sound(settings: Settings, s: Sim, cfg: Config, risk: real) {
    Covered(settings, s.breaker, s.open, cfg, risk)
  }

  lemma {:induction false} OneMore(n: int, risk: real)
    ensures ((n + 1) as real) * risk == (n as real) * risk + risk
  {
  }

  /** A trade that closes leaves the rest covered. */
  lemma {:induction false} CloseKeepsCover(
      settings: Settings, b: Breaker, a: seq<OpenTrade>, t: OpenTrade, rest: seq<OpenTrade>, r: Result, cfg: Config, risk: real)
    requires Covered(settings, Some(b), a + [t] + rest, cfg, risk) && r.pnlDollars >= -risk
    ensures Covered(settings, RecordIn(Some(b), r), a + rest, cfg, risk)
  {
    var was, now := a + [t] + rest, a + rest;
    assert forall k :: 0 <= k < |now| ==> now[k] == was[if k < |a| then k else k + 1];
    OneMore(|now|, risk);
  }

  /** A trade that stays open, with a stop no looser, stays covered. */
  lemma {:induction false} KeepKeepsCover(
      settings: Settings, b: Option<Breaker>, a: seq<OpenTrade>, t: OpenTrade, u: OpenTrade, rest: seq<OpenTrade>, cfg: Config, risk: real)
    requires Covered(settings, b, a + [t] + rest, cfg, risk)
    requires u.direction == t.direction && Contained(settings, u, risk)
    ensures Covered(settings, b, a + [u] + rest, cfg, risk)
  {
    var was, now := a + [t] + rest, a + [u] + rest;
    assert forall k :: 0 <= k < |now| && k != |a| ==> now[k] == was[k];
    assert now[|a|] == u && was[|a|] == t;
  }

  /** The trades kept so far and those not yet checked. */
  function InPlay(s: Sim, c: Checked, n: nat): seq<OpenTrade>
    requires n <= |s.open|
  {
    c.still + s.open[n..]
  }

  lemma {:induction false} CheckKeepsCover(settings: Settings, s: Sim, c: Checked, bar: Bar, i: nat, n: nat, cfg: Config, risk: real)
    requires settings.pointValue >= 0.0 && n < |s.open|
    requires Covered(settings, c.breaker, InPlay(s, c, n), cfg, risk)
    ensures var c' := CheckOne(settings, c, s.open[n], bar, i);
      Covered(settings, c'.breaker, InPlay(s, c', n + 1), cfg, risk)
  {
    var t, rest := s.open[n], s.open[n + 1..];
    var u := Trail(settings, t, bar);
    assert InPlay(s, c, n) == c.still + [t] + rest;
    assert InPlay(s, c, n)[|c.still|] == t;
    TrailOnlyTightens(settings, t, bar);
    ExitIsContained(settings, u, bar, i, risk);
    match ExitOn(settings, u, bar, i) {
      case Some(r) =>
        CloseKeepsCover(settings, c.breaker.value, c.still, t, rest, r, cfg, risk);
      case None =>
        KeepKeepsCover(settings, c.breaker, c.still, t, Widen(u, bar), rest, cfg, risk);
    }
  }

  lemma {:induction false} ExitsStaySound(settings: Settings, s: Sim, bar: Bar, i: nat, n: nat, cfg: Config, risk: real)
    requires settings.pointValue >= 0.0 && Sound(settings, s, cfg, risk) && n <= |s.open|
    ensures var c := CheckExits(settings, s, bar, i, n);
      Covered(settings, c.breaker, InPlay(s, c, n), cfg, risk)
  {
    if n == 0 {
      assert [] + s.open[0..] == s.open;
    } else {
      ExitsStaySound(settings, s, bar, i, n - 1, cfg, risk);
      CheckKeepsCover(settings, s, CheckExits(settings, s, bar, i, n - 1), bar, i, n - 1, cfg, risk);
    }
  }

  lemma {:induction false} OnlyTwoDirections(a: Direction, b: Direction, c: Direction)
    ensures a == b || a == c || b == c
  {
  }

  lemma {:induction false} AtMostTwo(open: seq<OpenTrade>)
    requires OnePerDirection(open)
    ensures |open| <= 2
  {
    if |open| > 2 {
      OnlyTwoDirections(open[0].direction, open[1].direction, open[2].direction);
    }
  }

  lemma {:induction false} NewDayStaysSound(b: Breaker, day: int, n: nat, risk: real)
    requires Affords(b, n, risk) && n <= 2 && risk >= 0.0
    ensures Affords(NewDay(b, day), n, risk)
  {
    var atRisk := (n as real) * risk;
    assert atRisk <= 2.0 * risk by {
      ScaleOrder(2.0, n as real, risk);
    }
    assert Gate(b.cfg) - 2.0 * risk + atRisk <= 0.0;
  }

  lemma {:induction false} AskOnlyStartsDay(b: Breaker, q: Query)
    ensures var (reason, b') := Ask(b, q);
      && b'.cfg == b.cfg
      && b'.dailyPnl == NewDay(b, q.day).dailyPnl && b'.sessionPnl == NewDay(b, q.day).sessionPnl
      && (reason == Passed ==> b'.sessionPnl > -b.cfg.maxSessionDrawdown)
  {
  }

  /** A question to the breaker leaves the session covered; a pass means the
      session is above the gate. */
  lemma {:induction false} AskStaysSound(b: Breaker, q: Query, n: nat, risk: real)
    requires Affords(b, n, risk) && n <= 2 && risk >= 0.0
    ensures var (reason, b') := Ask(b, q);
      && b'.cfg == b.cfg && Affords(b', n, risk)
      && (reason == Passed ==> b'.sessionPnl >= Gate(b.cfg))
  {
    NewDayStaysSound(b, q.day, n, risk);
    AskOnlyStartsDay(b, q);
    hide Ask;
    hide NewDay;
  }

  /** What one signal can do to the open trades and the breaker. */
  lemma {:induction false} AdmitOneCases(settings: Settings, s: Sim, sig: Signal, bar: Bar, i: nat)
    requires s.breaker.Some?
    ensures var r, asked := AdmitOne(settings, s, sig, bar, i), Ask(s.breaker.value, QueryFor(sig, bar));
      || (r.open == s.open && (r.breaker == s.breaker || r.breaker == Some(asked.1)))
      || (r.open == s.open + [Entered(settings, sig, bar, i)] && !HasOpen(s.open, sig.direction)
          && asked.0 == Passed && r.breaker == Some(asked.1))
  {
    hide Ask;
    hide Entered;
    hide HasOpen;
  }

  lemma {:induction false} EntryIsContained(settings: Settings, sig: Signal, bar: Bar, i: nat, risk: real)
    requires WithinRisk(settings, sig, risk)
    ensures Contained(settings, Entered(settings, sig, bar, i), risk)
    ensures Entered(settings, sig, bar, i).direction == sig.direction
  {
  }

  /** Above the gate any two trades are affordable. */
  lemma {:induction false} GateAffords(b: Breaker, n: nat, risk: real)
    requires n <= 2 && risk >= 0.0 && b.dailyPnl == b.sessionPnl && b.sessionPnl >= Gate(b.cfg)
    ensures Affords(b, n, risk)
  {
    ScaleOrder(2.0, n as real, risk);
  }

  lemma {:induction false} AdmitStaysSound(settings: Settings, s: Sim, sig: Signal, bar: Bar, i: nat, cfg: Config, risk: real)
    requires Sound(settings, s, cfg, risk) && risk >= 0.0 && WithinRisk(settings, sig, risk)
    ensures Sound(settings, AdmitOne(settings, s, sig, bar, i), cfg, risk)
  {
    hide Ask;
    hide AdmitOne;
    hide Entered;
    hide WithinRisk;
    hide Contained;
    hide Affords;
    AtMostTwo(s.open);
    var asked := Ask(s.breaker.value, QueryFor(sig, bar));
    AskStaysSound(s.breaker.value, QueryFor(sig, bar), |s.open|, risk);
    AdmitOneCases(settings, s, sig, bar, i);
    var r := AdmitOne(settings, s, sig, bar, i);
    if r.open != s.open {
      EntryIsContained(settings, sig, bar, i, risk);
      AtMostTwo(r.open);
      SessionIsDaily(asked.1, |s.open|, risk);
      GateAffords(asked.1, |r.open|, risk);
    }
  }

  lemma {:induction false} SessionIsDaily(b: Breaker, n: int, risk: real)
    requires Affords(b, n, risk)
    ensures b.dailyPnl == b.sessionPnl
  {
  }

  lemma {:induction false} AdmitsStaySound(
      settings: Settings, s: Sim, sigs: seq<Signal>, bar: Bar, i: nat, n: nat, cfg: Config, risk: real)
    requires Sound(settings, s, cfg, risk) && risk >= 0.0 && n <= |sigs|
    requires forall j :: 0 <= j < |sigs| ==> WithinRisk(settings, sigs[j], risk)
    ensures Sound(settings, Admit(settings, s, sigs, bar, i, n), cfg, risk)
  {
    if n == 0 {
    } else {
      AdmitsStaySound(settings, s, sigs, bar, i, n - 1, cfg, risk);
      AdmitStaysSound(settings, Admit(settings, s, sigs, bar, i, n - 1), sigs[n - 1], bar, i, cfg, risk);
    }
  }

  lemma {:induction false} AfterExitsSound(settings: Settings, s: Sim, bar: Bar, i: nat, cfg: Config, risk: real)
    requires settings.pointValue >= 0.0 && Sound(settings, s, cfg, risk)
    ensures Sound(settings, AfterExits(settings, s, bar, i), cfg, risk)
  {
    ExitsStaySound(settings, s, bar, i, |s.open|, cfg, risk);
    var c := CheckExits(settings, s, bar, i, |s.open|);
    assert InPlay(s, c, |s.open|) == c.still;
  }

  lemma {:induction false} BarStaysSound(settings: Settings, s: Sim, bar: Bar, i: nat, cfg: Config, risk: real)
    requires settings.pointValue >= 0.0 && risk >= 0.0 && Sound(settings, s, cfg, risk)
    requires forall j :: 0 <= j < |SignalsOf(bar)| ==> WithinRisk(settings, SignalsOf(bar)[j], risk)
    ensures Sound(settings, BarStep(settings, s, bar, i), cfg, risk)
  {
    hide Sound;
    hide AfterExits;
    hide Admit;
    hide WithinRisk;
    AfterExitsSound(settings, s, bar, i, cfg, risk);
    AdmitsStaySound(settings, AfterExits(settings, s, bar, i), SignalsOf(bar), bar, i, |SignalsOf(bar)|, cfg, risk);
  }

  lemma {:induction false} StartIsSound(settings: Settings, cfg: Config, risk: real)
    requires risk >= 0.0
    ensures Sound(settings, StartOf(Some(Fresh(cfg))), cfg, risk)
  {
  }

  lemma {:induction false} RunStaysSound(
      settings: Settings, cfg: Config, bars: seq<Bar>, windowSize: nat, k: nat, risk: real)
    requires settings.pointValue >= 0.0 && risk >= 0.0 && k <= |bars|
    requires AllWithinRisk(settings, bars, risk)
    ensures Sound(settings, RunTo(settings, StartOf(Some(Fresh(cfg))), bars, windowSize, k), cfg, risk)
  {
    hide Sound;
    hide BarStep;
    hide WithinRisk;
    if k <= windowSize {
      StartIsSound(settings, cfg, risk);
    } else {
      RunStaysSound(settings, cfg, bars, windowSize, k - 1, risk);
      BarStaysSound(settings, RunTo(settings, StartOf(Some(Fresh(cfg))), bars, windowSize, k - 1), bars[k - 1], k - 1, cfg, risk);
    }
  }

  /** Session P&L is no more than two risks through the gate, and the daily
      counter agrees with it. */
  ghost predicate AboveFloor(b: Option<Breaker>, cfg: Config, risk: real) {
    && b.Some?
    && b.value.sessionPnl >= Gate(cfg) - 2.0 * risk
    && b.value.dailyPnl == b.value.sessionPnl
  }

  lemma {:induction false} CoveredIsAboveFloor(settings: Settings, b: Option<Breaker>, play: seq<OpenTrade>, cfg: Config, risk: real)
    requires Covered(settings, b, play, cfg, risk) && risk >= 0.0
    ensures AboveFloor(b, cfg, risk)
  {
    ScaleOrder(|play| as real, 0.0, risk);
  }

  /** In every run with a breaker, after every single exit and after every single
      signal of every bar, session P&L has not fallen below
      -(maxSessionDrawdown + 2 risk) (for a limit that is not negative), where
      `risk` bounds the bracket of every signal. */
  lemma {:induction false} SessionFloorHolds(
      settings: Settings, cfg: Config, bars: seq<Bar>, windowSize: nat, k: nat, exits: nat, admits: nat, risk: real)
    requires settings.pointValue >= 0.0 && risk >= 0.0
    requires AllWithinRisk(settings, bars, risk)
    requires windowSize <= k < |bars| && admits <= |SignalsOf(bars[k])|
    requires exits <= |RunTo(settings, StartOf(Some(Fresh(cfg))), bars, windowSize, k).open|
    ensures var s := RunTo(settings, StartOf(Some(Fresh(cfg))), bars, windowSize, k);
      && AboveFloor(CheckExits(settings, s, bars[k], k, exits).breaker, cfg, risk)
      && AboveFloor(Admit(settings, AfterExits(settings, s, bars[k], k), SignalsOf(bars[k]), bars[k], k, admits).breaker, cfg, risk)
  {
    var s := RunTo(settings, StartOf(Some(Fresh(cfg))), bars, windowSize, k);
    var mid := AfterExits(settings, s, bars[k], k);
    var r := Admit(settings, mid, SignalsOf(bars[k]), bars[k], k, admits);
    RunStaysSound(settings, cfg, bars, windowSize, k, risk);
    ExitsStaySound(settings, s, bars[k], k, exits, cfg, risk);
    var c := CheckExits(settings, s, bars[k], k, exits);
    CoveredIsAboveFloor(settings, c.breaker, InPlay(s, c, exits), cfg, risk);
    AfterExitsSound(settings, s, bars[k], k, cfg, risk);
    AdmitsStaySound(settings, mid, SignalsOf(bars[k]), bars[k], k, admits, cfg, risk);
    CoveredIsAboveFloor(settings, r.breaker, r.open, cfg, risk);
  }

  // ----- Trailing stops -----

  /** Every phase either moves the stop past the entry or trails by less than it
      took to activate. */
  predicate ProfitLocking(phases: seq<Phase>) {
    forall k :: 0 <= k < |phases| ==> phases[k].trail == 0.0 || phases[k].trail < phases[k].activation
  }

  /** The command line's default phases. */
  const DEFAULT_PHASES := [
    Phase("breakeven", 1.0, 0.0), Phase("lock_profit", 2.0, 1.5), Phase("tight_trail", 3.0, 1.0)]

  lemma {:induction false} ActivePhaseReached(phases: seq<Phase>, move: real, atr: real)
    ensures var p := ActivePhase(phases, move, atr);
      p.Some? ==> p.value in phases && move >= p.value.activation * atr
  {
    if phases == [] {
    } else {
      ActivePhaseReached(phases[..|phases| - 1], move, atr);
    }
  }

  /** A trade whose bracket points the right way, and whose stop is past its
      entry as soon as any phase has moved it. */
  ghost predicate Locked(t: OpenTrade) {
    && t.atr > 0.0
    && Tighter(t.direction, t.target, t.entry)
    && !Tighter(t.direction, t.originalStop, t.stop)
    && (t.phase.Some? ==> Tighter(t.direction, t.stop, t.entry))
  }

  lemma {:induction false} PhaseStopLocks(t: OpenTrade, p: Phase)
    requires t.atr > 0.0 && (p.trail == 0.0 || p.trail < p.activation)
    requires Points(t.direction, t.entry, t.best) >= p.activation * t.atr
    ensures Tighter(t.direction, PhaseStop(t, p), t.entry)
  {
    if p.trail != 0.0 {
      assert (p.activation - p.trail) * t.atr > 0.0;
      assert p.activation * t.atr - p.trail * t.atr > 0.0;
    }
  }

  lemma {:induction false} TrailLocks(settings: Settings, t: OpenTrade, bar: Bar)
    requires Locked(t) && (settings.phases.Some? ==> ProfitLocking(settings.phases.value))
    ensures Locked(Trail(settings, t, bar))
  {
    if settings.phases.Some? {
      var u := t.(best := BestPrice(t, bar));
      var move := Points(u.direction, u.entry, u.best);
      var p := ActivePhase(settings.phases.value, move, u.atr);
      ActivePhaseReached(settings.phases.value, move, u.atr);
      if p.Some? {
        PhaseStopLocks(u, p.value);
      }
    }
  }

  /** A trailed trade closed with a profit, and no stop was looser than at entry. */
  ghost predicate Rewarded(r: Result) {
    && (r.phase.Some? ==> r.pnlPoints > 0.0)
    && (r.reason == StopLoss ==> !Tighter(r.direction, r.originalStop, r.exit))
  }

  ghost predicate AllRewarded(results: seq<Result>) {
    forall r :: r in results ==> Rewarded(r)
  }

  /** Open trades after a bar: locked, and not stopped by that bar once trailed. */
  ghost predicate Surviving(t: OpenTrade, bar: Bar) {
    Locked(t) && (t.phase.Some? ==> !HitsStop(t, bar))
  }

  ghost predicate AllLocked(open: seq<OpenTrade>) {
    forall k :: 0 <= k < |open| ==> Locked(open[k])
  }

  ghost predicate AllSurviving(open: seq<OpenTrade>, bar: Bar) {
    forall k :: 0 <= k < |open| ==> Surviving(open[k], bar)
  }

  lemma {:induction false} ExitsReward(settings: Settings, s: Sim, bar: Bar, i: nat, n: nat)
    requires settings.phases.Some? ==> ProfitLocking(settings.phases.value)
    requires AllLocked(s.open) && AllRewarded(s.results) && n <= |s.open|
    ensures var c := CheckExits(settings, s, bar, i, n);
      AllSurviving(c.still, bar) && AllRewarded(c.results)
  {
    if n == 0 {
    } else {
      ExitsReward(settings, s, bar, i, n - 1);
      TrailLocks(settings, s.open[n - 1], bar);
    }
  }

  /** Signals whose target is on the profit side, on a bar with a positive ATR. */
  ghost predicate WellPosed(bar: Bar) {
    && bar.atr > 0.0
    && (forall j :: 0 <= j < |SignalsOf(bar)| ==>
          Tighter(SignalsOf(bar)[j].direction, SignalsOf(bar)[j].target, SignalsOf(bar)[j].entry))
  }

  lemma {:induction false} EntrySurvives(settings: Settings, sig: Signal, bar: Bar, i: nat)
    requires bar.atr > 0.0 && Tighter(sig.direction, sig.target, sig.entry)
    ensures Surviving(Entered(settings, sig, bar, i), bar)
  {
  }

  lemma {:induction false} AdmitsSurvive(settings: Settings, s: Sim, bar: Bar, i: nat, n: nat)
    requires WellPosed(bar) && AllSurviving(s.open, bar) && n <= |SignalsOf(bar)|
    ensures var r := Admit(settings, s, SignalsOf(bar), bar, i, n);
      AllSurviving(r.open, bar) && r.results == s.results
  {
    hide AdmitOne;
    hide Surviving;
    hide Entered;
    if n == 0 {
    } else {
      AdmitsSurvive(settings, s, bar, i, n - 1);
      var sig := SignalsOf(bar)[n - 1];
      AdmitOneOpens(settings, Admit(settings, s, SignalsOf(bar), bar, i, n - 1), sig, bar, i);
      EntrySurvives(settings, sig, bar, i);
    }
  }

  /** Locked and rewarded after a bar, and what is open survived it. */
  ghost predicate Rewarding(s: Sim, bar: Bar) {
    AllSurviving(s.open, bar) && AllRewarded(s.results)
  }

  /** Where a run stands before bar `k`, unless it has ended early. */
  ghost predicate RewardingBefore(s: Sim, start: Sim, bars: seq<Bar>, windowSize: nat, k: nat)
    requires k <= |bars|
  {
    !s.crashed ==> if k > windowSize then Rewarding(s, bars[k - 1]) else s == start
  }

  lemma {:induction false} BarRewards(settings: Settings, s: Sim, bar: Bar, i: nat)
    requires WellPosed(bar)
    requires settings.phases.Some? ==> ProfitLocking(settings.phases.value)
    requires AllLocked(s.open) && AllRewarded(s.results)
    ensures s.crashed || Rewarding(BarStep(settings, s, bar, i), bar)
  {
    hide Locked;
    hide Surviving;
    hide Rewarded;
    hide ProfitLocking;
    hide WellPosed;
    ExitsReward(settings, s, bar, i, |s.open|);
    AdmitsSurvive(settings, AfterExits(settings, s, bar, i), bar, i, |SignalsOf(bar)|);
  }

  lemma {:induction false} SurvivorsAreLocked(s: Sim, bar: Bar)
    requires Rewarding(s, bar)
    ensures AllLocked(s.open) && AllRewarded(s.results)
  {
  }

  lemma {:induction false} RunRewards(settings: Settings, start: Sim, bars: seq<Bar>, windowSize: nat, k: nat)
    requires start.open == [] && start.results == [] && k <= |bars|
    requires settings.phases.Some? ==> ProfitLocking(settings.phases.value)
    requires forall j :: 0 <= j < |bars| ==> WellPosed(bars[j])
    ensures RewardingBefore(RunTo(settings, start, bars, windowSize, k), start, bars, windowSize, k)
  {
    hide BarStep;
    hide WellPosed;
    hide ProfitLocking;
    hide Rewarding;
    if k > windowSize {
      RunRewards(settings, start, bars, windowSize, k - 1);
      var s := RunTo(settings, start, bars, windowSize, k - 1);
      if s.crashed {
        CrashedRunStays(settings, start, bars, windowSize, k - 1, k);
      } else {
        if k - 1 > windowSize {
          SurvivorsAreLocked(s, bars[k - 2]);
        }
        BarRewards(settings, s, bars[k - 1], k - 1);
      }
    }
  }

  lemma {:induction false} CloseOutRewards(settings: Settings, open: seq<OpenTrade>, last: Bar, count: nat)
    requires last.low <= last.close <= last.high && AllSurviving(open, last)
    ensures AllRewarded(CloseOut(settings, open, last, count))
  {
    if open == [] {
    } else {
      CloseOutRewards(settings, open[..|open| - 1], last, count);
      assert Surviving(open[|open| - 1], last);
    }
  }

  /** Over any run whose phases lock profit, every trade that ever got a trailing
      phase closes with a profit, by stop, by target or at the end of the data;
      and no trade is stopped at a worse price than its original stop. */
  lemma {:induction false} TrailedTradesWin(settings: Settings, breaker: Option<Breaker>, bars: seq<Bar>, windowSize: nat)
    requires settings.phases.Some? ==> ProfitLocking(settings.phases.value)
    requires forall j :: 0 <= j < |bars| ==> WellPosed(bars[j]) && bars[j].low <= bars[j].close <= bars[j].high
    ensures var fin := RunTo(settings, StartOf(breaker), bars, windowSize, |bars|);
      !fin.crashed ==> AllRewarded(AllResults(settings, fin, bars))
  {
    var fin := RunTo(settings, StartOf(breaker), bars, windowSize, |bars|);
    RunRewards(settings, StartOf(breaker), bars, windowSize, |bars|);
    if !fin.crashed && fin.open != [] {
      CloseOutRewards(settings, fin.open, bars[|bars| - 1], |bars|);
    }
  }

  lemma {:induction false} RewardInDollars(settings: Settings, r: Result, bars: seq<Bar>, windowSize: nat)
    requires settings.pointValue > 0.0 && Rewarded(r) && Explained(settings, r, bars, windowSize)
    ensures r.phase.Some? ==> r.pnlDollars > 0.0
  {
    hide Undecided;
    hide Ratcheted;
    hide Excursions;
    var e: nat, x: nat :| windowSize <= e <= x < |bars| && Spans(settings, r, bars, e, x);
    assert r.pnlDollars == r.pnlPoints * settings.pointValue;
  }

  /** With the default phases, then, every trade that ever got one makes money. */
  lemma {:induction false} DefaultTrailedTradesWin(settings: Settings, breaker: Option<Breaker>, bars: seq<Bar>, windowSize: nat)
    requires settings.phases == Some(DEFAULT_PHASES) && settings.pointValue > 0.0
    requires forall j :: 0 <= j < |bars| ==> WellPosed(bars[j]) && bars[j].low <= bars[j].close <= bars[j].high
    ensures var fin := RunTo(settings, StartOf(breaker), bars, windowSize, |bars|);
      !fin.crashed ==> forall r :: r in AllResults(settings, fin, bars) ==> r.phase.Some? ==> r.pnlDollars > 0.0
  {
    hide AllResults;
    hide RunTo;
    hide Explained;
    hide Rewarded;
    var fin := RunTo(settings, StartOf(breaker), bars, windowSize, |bars|);
    TrailedTradesWin(settings, breaker, bars, windowSize);
    EveryResultIsExplained(settings, breaker, bars, windowSize);
    forall r | !fin.crashed && r in AllResults(settings, fin, bars) && r.phase.Some?
      ensures r.pnlDollars > 0.0
    {
      RewardInDollars(settings, r, bars, windowSize);
    }
  }

  // ----- Lockout -----

  /** Flat, with the rolling win rate under the floor and `results` on record. */
  ghost predicate LockedOut(s: Sim, results: seq<Result>) {
    && s.breaker.Some?
    && RollingUnderFloor(s.breaker.value.cfg, s.breaker.value.recent)
    && s.open == [] && s.results == results
  }

  lemma {:induction false} AdmitNothing(settings: Settings, s: Sim, sig: Signal, bar: Bar, i: nat, results: seq<Result>)
    requires LockedOut(s, results)
    ensures LockedOut(AdmitOne(settings, s, sig, bar, i), results)
  {
    UnderFloorBlocks(s.breaker.value, QueryFor(sig, bar));
    AskKeepsHistory(s.breaker.value, QueryFor(sig, bar));
  }

  lemma {:induction false} AdmitsNothing(
      settings: Settings, s: Sim, sigs: seq<Signal>, bar: Bar, i: nat, n: nat, results: seq<Result>)
    requires LockedOut(s, results) && n <= |sigs|
    ensures LockedOut(Admit(settings, s, sigs, bar, i, n), results)
  {
    hide AdmitOne;
    hide LockedOut;
    if n == 0 {
    } else {
      AdmitsNothing(settings, s, sigs, bar, i, n - 1, results);
      AdmitNothing(settings, Admit(settings, s, sigs, bar, i, n - 1), sigs[n - 1], bar, i, results);
    }
  }

  lemma {:induction false} LockedOutBar(settings: Settings, s: Sim, bar: Bar, i: nat, results: seq<Result>)
    requires LockedOut(s, results)
    ensures LockedOut(BarStep(settings, s, bar, i), results)
  {
    assert AfterExits(settings, s, bar, i) == s;
    AdmitsNothing(settings, s, SignalsOf(bar), bar, i, |SignalsOf(bar)|, results);
  }

  /** A run that is flat while the rolling win rate is under the floor never
      trades again, on that day or any later one: only a closed trade could lift
      the block, and none can open. */
  lemma {:induction false} LockoutIsPermanent(
      settings: Settings, start: Sim, bars: seq<Bar>, windowSize: nat, k: nat, later: nat, results: seq<Result>)
    requires windowSize <= k <= later <= |bars|
    requires LockedOut(RunTo(settings, start, bars, windowSize, k), results)
    ensures LockedOut(RunTo(settings, start, bars, windowSize, later), results)
    decreases later - k
  {
    hide BarStep;
    hide LockedOut;
    if k < later {
      LockedOutBar(settings, RunTo(settings, start, bars, windowSize, k), bars[k], k, results);
      LockoutIsPermanent(settings, start, bars, windowSize, k + 1, later, results);
    }
  }

  // ----- Rolling windows below two -----

  /** Never traded: no trade open, closed or on the breaker's record. */
  ghost predicate Idle(s: Sim, cfg: Config) {
    s.open == [] && s.results == [] && s.breaker.Some? && s.breaker.value.cfg == cfg && s.breaker.value.recent == []
  }

  /** A breaker that has no rate to compute, or one that always has. */
  ghost predicate IdleOrSafe(s: Sim, cfg: Config) {
    if cfg.rollingWindow < 2 then Idle(s, cfg)
    else !s.crashed && s.breaker.Some? && s.breaker.value.cfg == cfg
  }

  lemma {:induction false} AdmitIdleOrSafe(settings: Settings, s: Sim, sig: Signal, bar: Bar, i: nat, cfg: Config)
    requires IdleOrSafe(s, cfg)
    ensures IdleOrSafe(AdmitOne(settings, s, sig, bar, i), cfg)
  {
    AskKeepsHistory(s.breaker.value, QueryFor(sig, bar));
  }

  lemma {:induction false} AdmitsIdleOrSafe(
      settings: Settings, s: Sim, sigs: seq<Signal>, bar: Bar, i: nat, n: nat, cfg: Config)
    requires IdleOrSafe(s, cfg) && n <= |sigs|
    ensures IdleOrSafe(Admit(settings, s, sigs, bar, i, n), cfg)
  {
    hide AdmitOne;
    hide IdleOrSafe;
    if n == 0 {
    } else {
      AdmitsIdleOrSafe(settings, s, sigs, bar, i, n - 1, cfg);
      AdmitIdleOrSafe(settings, Admit(settings, s, sigs, bar, i, n - 1), sigs[n - 1], bar, i, cfg);
    }
  }

  lemma {:induction false} ChecksKeepConfig(settings: Settings, s: Sim, bar: Bar, i: nat, n: nat)
    requires n <= |s.open|
    ensures var b := CheckExits(settings, s, bar, i, n).breaker;
      (b.Some? <==> s.breaker.Some?) && (b.Some? ==> b.value.cfg == s.breaker.value.cfg)
  {
    if n == 0 {
    } else {
      ChecksKeepConfig(settings, s, bar, i, n - 1);
    }
  }

  lemma {:induction false} ExitsIdleOrSafe(settings: Settings, s: Sim, bar: Bar, i: nat, cfg: Config)
    requires IdleOrSafe(s, cfg)
    ensures IdleOrSafe(AfterExits(settings, s, bar, i), cfg)
  {
    ChecksKeepConfig(settings, s, bar, i, |s.open|);
  }

  /** A rolling window of two or more never ends a run. With a smaller one no trade
      is ever taken: the first signal that gets to the rolling check ends the run. */
  lemma {:induction false} SmallWindowNeverTrades(settings: Settings, cfg: Config, bars: seq<Bar>, windowSize: nat, k: nat)
    requires k <= |bars|
    ensures IdleOrSafe(RunTo(settings, StartOf(Some(Fresh(cfg))), bars, windowSize, k), cfg)
  {
    hide AfterExits;
    hide Admit;
    hide IdleOrSafe;
    if k <= windowSize {
      StartIdleOrSafe(cfg);
    } else {
      SmallWindowNeverTrades(settings, cfg, bars, windowSize, k - 1);
      var s, bar := RunTo(settings, StartOf(Some(Fresh(cfg))), bars, windowSize, k - 1), bars[k - 1];
      ExitsIdleOrSafe(settings, s, bar, k - 1, cfg);
      AdmitsIdleOrSafe(settings, AfterExits(settings, s, bar, k - 1), SignalsOf(bar), bar, k - 1, |SignalsOf(bar)|, cfg);
    }
  }

  lemma {:induction false} StartIdleOrSafe(cfg: Config)
    ensures IdleOrSafe(StartOf(Some(Fresh(cfg))), cfg)
  {
  }
}
