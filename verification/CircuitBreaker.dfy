/** The circuit breaker of the bar-by-bar backtester
    (scripts/backtesting/backtest_engine.py, `BacktestCircuitBreaker`).

    Money is real dollars, time is whole seconds. The day of the year is passed
    beside the time, so no calendar is assumed. */
module CircuitBreaker {
  import opened Common

  datatype Regime = Regime(kind: string, confidence: real)

  datatype Config = Config(
    maxConsecutiveLosses: int, cooldownMinutes: int,
    maxSessionDrawdown: real, maxDailyDrawdown: real, maxDailyProfit: real,
    rollingWindow: nat, minRollingWinRate: real,
    enableDirectionGating: bool, directionGatingMinConfidence: real,
    enableRegimeAvoidance: bool, blockedRegimes: seq<string>, regimeAvoidanceMinConfidence: real)

  datatype Closed = Closed(isWin: bool, pnl: real)

  datatype Reason =
    | Passed | Cooldown | ConsecutiveLosses | SessionDrawdown | DailyDrawdown | DailyProfitCap
    | RollingWinRate | DirectionGating | RegimeAvoidance
    | DividesByZero

  /** Python's `s[-n:]`: the last `n` elements, and for zero the whole list. */
  function Tail<T>(s: seq<T>, n: nat): seq<T> {
    if n == 0 then s else LastN(s, n)
  }

  datatype Breaker = Breaker(
    cfg: Config, losses: int, dailyPnl: real, sessionPnl: real,
    recent: seq<Closed>, cooldownUntil: Option<int>, currentDay: Option<int>)

  datatype Query = Query(direction: Direction, time: int, day: int, regime: Option<Regime>)

  function Fresh(cfg: Config): Breaker {
    Breaker(cfg, 0, 0.0, 0.0, [], None, None)
  }

  function Wins(s: seq<Closed>): nat {
    if s == [] then 0 else Wins(s[..|s| - 1]) + if s[|s| - 1].isWin then 1 else 0
  }

  /** Windows below two ask for a rate of no trades at all. */
  predicate RateUndefined(cfg: Config, history: seq<Closed>) {
    cfg.rollingWindow / 2 == 0 && history == []
  }

  /** The rolling win rate over `history` is under the floor. */
  predicate RollingUnderFloor(cfg: Config, history: seq<Closed>) {
    |history| >= cfg.rollingWindow / 2
    && var last := Tail(history, cfg.rollingWindow);
      last != [] && Wins(last) as real / |last| as real < cfg.minRollingWinRate
  }

  /** Daily counters restart when the day changes. */
  function NewDay(b: Breaker, day: int): Breaker {
    if b.currentDay.Some? && day != b.currentDay.value then
      b.(dailyPnl := 0.0, sessionPnl := 0.0, losses := 0, cooldownUntil := None, currentDay := Some(day))
    else
      b.(currentDay := Some(day))
  }

  predicate CoolingDown(b: Breaker, time: int) {
    b.cooldownUntil.Some? && time < b.cooldownUntil.value
  }

  predicate GatedOut(cfg: Config, q: Query) {
    cfg.enableDirectionGating && q.regime.Some?
    && q.direction != (if q.regime.value.confidence >= cfg.directionGatingMinConfidence
                          && q.regime.value.kind == "trending_down" then Short else Long)
  }

  predicate Avoided(cfg: Config, q: Query) {
    cfg.enableRegimeAvoidance && q.regime.Some?
    && q.regime.value.confidence >= cfg.regimeAvoidanceMinConfidence
    && q.regime.value.kind in cfg.blockedRegimes
  }

  function MarketVerdict(b: Breaker, q: Query): Reason {
    if RollingUnderFloor(b.cfg, b.recent) then RollingWinRate
    else if GatedOut(b.cfg, q) then DirectionGating
    else if Avoided(b.cfg, q) then RegimeAvoidance
    else Passed
  }

  /** The first check that fires, on a breaker whose day is current. */
  function Verdict(b: Breaker, q: Query): Reason {
    if CoolingDown(b, q.time) then Cooldown
    else if b.losses >= b.cfg.maxConsecutiveLosses then ConsecutiveLosses
    else if b.sessionPnl <= -b.cfg.maxSessionDrawdown then SessionDrawdown
    else if b.dailyPnl <= -b.cfg.maxDailyDrawdown then DailyDrawdown
    else if b.cfg.maxDailyProfit > 0.0 && b.dailyPnl >= b.cfg.maxDailyProfit then DailyProfitCap
    else if RateUndefined(b.cfg, b.recent) then DividesByZero
    else MarketVerdict(b, q)
  }

  /** The pause each blocking reason starts, in seconds. */
  function Pause(cfg: Config, r: Reason): Option<int> {
    match r
    case ConsecutiveLosses => Some(cfg.cooldownMinutes * 60)
    case RollingWinRate => Some(cfg.cooldownMinutes * 60)
    case SessionDrawdown => Some(60 * 60)
    case DailyDrawdown => Some(12 * 60 * 60)
    case DailyProfitCap => Some(12 * 60 * 60)
    case _ => None
  }

  function Ask(b: Breaker, q: Query): (Reason, Breaker) {
    var today := NewDay(b, q.day);
    var r := Verdict(today, q);
    var pause := Pause(b.cfg, r);
    (r, if pause.Some? then today.(cooldownUntil := Some(q.time + pause.value))
        else if r == Cooldown then today
        else today.(cooldownUntil := None))
  }

  function Record(b: Breaker, pnl: real, isWin: bool): Breaker {
    var all := b.recent + [Closed(isWin, pnl)];
    b.(losses := if isWin then 0 else b.losses + 1,
       dailyPnl := b.dailyPnl + pnl,
       sessionPnl := b.sessionPnl + pnl,
       recent := Tail(all, 2 * b.cfg.rollingWindow))
  }

  // ----- The object -----

  class BacktestCircuitBreaker {
    const cfg: Config
    var consecutiveLosses: int
    var dailyPnl: real
    var sessionPnl: real
    var recentTrades: seq<Closed>
    var cooldownUntil: Option<int>
    var currentDay: Option<int>
    var blocks: map<Reason, nat>
    var totalBlocks: nat

    constructor (cfg: Config)
      ensures this.cfg == cfg && State() == Fresh(cfg)
      ensures blocks == map[] && totalBlocks == 0
    {
      this.cfg := cfg;
      consecutiveLosses, dailyPnl, sessionPnl := 0, 0.0, 0.0;
      recentTrades, cooldownUntil, currentDay := [], None, None;
      blocks, totalBlocks := map[], 0;
    }

    ghost function State(): Breaker
      reads this
    {
      Breaker(cfg, consecutiveLosses, dailyPnl, sessionPnl, recentTrades, cooldownUntil, currentDay)
    }

    ghost function Count(reason: Reason): nat
      reads this`blocks
    {
      if reason in blocks then blocks[reason] else 0
    }

    method RecordBlock(reason: Reason)
      modifies this`blocks, this`totalBlocks
      ensures totalBlocks == old(totalBlocks) + 1
      ensures blocks == old(blocks)[reason := old(Count(reason)) + 1]
    {
      totalBlocks := totalBlocks + 1;
      blocks := blocks[reason := (if reason in blocks then blocks[reason] else 0) + 1];
    }

    /** Blocks a signal and pauses for `seconds` from `time`. */
    method BlockFor(reason: Reason, time: int, seconds: int)
      modifies this`blocks, this`totalBlocks, this`cooldownUntil
      ensures cooldownUntil == Some(time + seconds)
      ensures totalBlocks == old(totalBlocks) + 1
      ensures blocks == old(blocks)[reason := old(Count(reason)) + 1]
    {
      cooldownUntil := Some(time + seconds);
      RecordBlock(reason);
    }

    method StartDay(day: int)
      modifies this`dailyPnl, this`sessionPnl, this`consecutiveLosses, this`cooldownUntil, this`currentDay
      ensures State() == NewDay(old(State()), day)
    {
      if currentDay.Some? && day != currentDay.value {
        dailyPnl, sessionPnl, consecutiveLosses, cooldownUntil := 0.0, 0.0, 0, None;
      }
      currentDay := Some(day);
    }

    method RollingBlocked() returns (blocked: bool)
      requires !RateUndefined(cfg, recentTrades)
      ensures blocked == RollingUnderFloor(cfg, recentTrades)
    {
      if |recentTrades| < cfg.rollingWindow / 2 {
        return false;
      }
      var recent := Tail(recentTrades, cfg.rollingWindow);
      var wins := 0;
      for k := 0 to |recent|
        invariant wins == Wins(recent[..k])
      {
        assert recent[..k + 1][..k] == recent[..k];
        if recent[k].isWin {
          wins := wins + 1;
        }
      }
      assert recent[..|recent|] == recent;
      blocked := wins as real / |recent| as real < cfg.minRollingWinRate;
    }

    /** The checks from the loss streak to the regime, in order. A division by
        zero leaves the method before anything is recorded. */
    method CheckLimits(q: Query) returns (reason: Reason)
      requires cooldownUntil == None
      modifies this`blocks, this`totalBlocks, this`cooldownUntil
      ensures reason == Verdict(old(State()), q)
      ensures cooldownUntil == (match Pause(cfg, reason) case Some(p) => Some(q.time + p) case None => None)
      ensures reason in {Passed, DividesByZero} ==> totalBlocks == old(totalBlocks) && blocks == old(blocks)
      ensures reason !in {Passed, DividesByZero} ==>
        totalBlocks == old(totalBlocks) + 1 && blocks == old(blocks)[reason := old(Count(reason)) + 1]
    {
      if consecutiveLosses >= cfg.maxConsecutiveLosses {
        reason := ConsecutiveLosses;
        BlockFor(reason, q.time, cfg.cooldownMinutes * 60);
      } else if sessionPnl <= -cfg.maxSessionDrawdown {
        reason := SessionDrawdown;
        BlockFor(reason, q.time, 60 * 60);
      } else if dailyPnl <= -cfg.maxDailyDrawdown {
        reason := DailyDrawdown;
        BlockFor(reason, q.time, 12 * 60 * 60);
      } else if cfg.maxDailyProfit > 0.0 && dailyPnl >= cfg.maxDailyProfit {
        reason := DailyProfitCap;
        BlockFor(reason, q.time, 12 * 60 * 60);
      } else if RateUndefined(cfg, recentTrades) {
        reason := DividesByZero;
      } else {
        reason := CheckMarket(q);
      }
    }

    /** The rolling win rate, then direction and regime. */
    method CheckMarket(q: Query) returns (reason: Reason)
      requires cooldownUntil == None && !RateUndefined(cfg, recentTrades)
      modifies this`blocks, this`totalBlocks, this`cooldownUntil
      ensures reason == MarketVerdict(old(State()), q)
      ensures cooldownUntil == (match Pause(cfg, reason) case Some(p) => Some(q.time + p) case None => None)
      ensures reason == Passed ==> totalBlocks == old(totalBlocks) && blocks == old(blocks)
      ensures reason != Passed ==>
        totalBlocks == old(totalBlocks) + 1 && blocks == old(blocks)[reason := old(Count(reason)) + 1]
    {
      var rolling := RollingBlocked();
      if rolling {
        reason := RollingWinRate;
        BlockFor(reason, q.time, cfg.cooldownMinutes * 60);
      } else if GatedOut(cfg, q) {
        reason := DirectionGating;
        RecordBlock(reason);
      } else if Avoided(cfg, q) {
        reason := RegimeAvoidance;
        RecordBlock(reason);
      } else {
        reason := Passed;
      }
    }

    method ShouldAllow(q: Query) returns (reason: Reason)
      modifies this
      ensures (reason, State()) == Ask(old(State()), q)
      ensures reason in {Passed, DividesByZero} ==> totalBlocks == old(totalBlocks) && blocks == old(blocks)
      ensures reason !in {Passed, DividesByZero} ==>
        totalBlocks == old(totalBlocks) + 1 && blocks == old(blocks)[reason := old(Count(reason)) + 1]
    {
      StartDay(q.day);
      if cooldownUntil.Some? && q.time < cooldownUntil.value {
        RecordBlock(Cooldown);
        return Cooldown;
      }
      cooldownUntil := None;
      reason := CheckLimits(q);
    }

    method RecordTrade(pnl: real, isWin: bool)
      modifies this`consecutiveLosses, this`dailyPnl, this`sessionPnl, this`recentTrades
      ensures State() == Record(old(State()), pnl, isWin)
    {
      if isWin {
        consecutiveLosses := 0;
      } else {
        consecutiveLosses := consecutiveLosses + 1;
      }
      dailyPnl := dailyPnl + pnl;
      sessionPnl := sessionPnl + pnl;
      recentTrades := recentTrades + [Closed(isWin, pnl)];
      if |recentTrades| > cfg.rollingWindow * 2 {
        recentTrades := Tail(recentTrades, cfg.rollingWindow * 2);
      }
    }
  }

  // ----- Any sequence of calls -----

  datatype Call = Asked(q: Query) | Recorded(pnl: real, isWin: bool)

  function After(b: Breaker, calls: seq<Call>): (r: Breaker)
    ensures r.cfg == b.cfg
  {
    if calls == [] then b
    else
      var before := After(b, calls[..|calls| - 1]);
      match calls[|calls| - 1]
      case Asked(q) => Ask(before, q).1
      case Recorded(pnl, isWin) => Record(before, pnl, isWin)
  }

  /** Every trade ever recorded, untrimmed. */
  function History(calls: seq<Call>): seq<Closed> {
    if calls == [] then []
    else
      History(calls[..|calls| - 1])
      + match calls[|calls| - 1]
        case Asked(_) => []
        case Recorded(pnl, isWin) => [Closed(isWin, pnl)]
  }

  lemma {:induction false} TrimmedAppend(h: seq<Closed>, x: Closed, n: nat)
    ensures Tail(Tail(h, n) + [x], n) == Tail(h + [x], n)
  {
  }

  lemma {:induction false} AskKeepsHistory(b: Breaker, q: Query)
    ensures Ask(b, q).1.cfg == b.cfg && Ask(b, q).1.recent == b.recent
    ensures b.dailyPnl == b.sessionPnl ==> Ask(b, q).1.dailyPnl == Ask(b, q).1.sessionPnl
  {
  }

  /** The buffer is the end of `history` and the two P&L counters agree. */
  ghost predicate Remembers(b: Breaker, history: seq<Closed>) {
    b.recent == Tail(history, 2 * b.cfg.rollingWindow) && b.dailyPnl == b.sessionPnl
  }

  lemma {:induction false} RecordRemembers(b: Breaker, history: seq<Closed>, pnl: real, isWin: bool)
    requires Remembers(b, history)
    ensures Remembers(Record(b, pnl, isWin), history + [Closed(isWin, pnl)])
  {
    TrimmedAppend(history, Closed(isWin, pnl), 2 * b.cfg.rollingWindow);
  }

  /** The trimmed buffer is the end of the full history, and the two P&L
      counters agree, after any sequence of calls. */
  lemma {:induction false} BufferIsHistorySuffix(cfg: Config, calls: seq<Call>)
    ensures Remembers(After(Fresh(cfg), calls), History(calls))
  {
    if calls == [] {
    } else {
      var n := |calls| - 1;
      var before := After(Fresh(cfg), calls[..n]);
      BufferIsHistorySuffix(cfg, calls[..n]);
      match calls[n] {
        case Asked(q) =>
          AskKeepsHistory(before, q);
          assert History(calls) == History(calls[..n]) + [];
        case Recorded(pnl, isWin) =>
          RecordRemembers(before, History(calls[..n]), pnl, isWin);
      }
    }
  }

  /** So the rolling win-rate check decides as if nothing was ever trimmed. */
  lemma {:induction false} TrimmingChangesNoDecision(cfg: Config, calls: seq<Call>)
    ensures var recent := After(Fresh(cfg), calls).recent;
      && RollingUnderFloor(cfg, recent) == RollingUnderFloor(cfg, History(calls))
      && RateUndefined(cfg, recent) == RateUndefined(cfg, History(calls))
  {
    BufferIsHistorySuffix(cfg, calls);
    var h := History(calls);
    assert Tail(Tail(h, 2 * cfg.rollingWindow), cfg.rollingWindow) == Tail(h, cfg.rollingWindow);
  }

  lemma {:induction false} UnderFloorBlocks(b: Breaker, q: Query)
    requires RollingUnderFloor(b.cfg, b.recent)
    ensures Ask(b, q).0 != Passed
  {
    assert NewDay(b, q.day).recent == b.recent;
  }

  /** Once the rate is under the floor nothing is allowed, whatever is asked and
      however many days pass, until another trade is recorded. */
  lemma {:induction false} LockedUntilNextTrade(b: Breaker, calls: seq<Call>, q: Query)
    requires RollingUnderFloor(b.cfg, b.recent)
    requires forall i :: 0 <= i < |calls| ==> calls[i].Asked?
    ensures After(b, calls).recent == b.recent
    ensures Ask(After(b, calls), q).0 != Passed
  {
    if calls == [] {
    } else {
      var n := |calls| - 1;
      LockedUntilNextTrade(b, calls[..n], q);
      AskKeepsHistory(After(b, calls[..n]), calls[n].q);
    }
    UnderFloorBlocks(After(b, calls), q);
  }

  /** Did a check before the rolling win rate fire? */
  predicate StoppedEarlier(b: Breaker, time: int) {
    || CoolingDown(b, time)
    || b.losses >= b.cfg.maxConsecutiveLosses
    || b.sessionPnl <= -b.cfg.maxSessionDrawdown
    || b.dailyPnl <= -b.cfg.maxDailyDrawdown
    || (b.cfg.maxDailyProfit > 0.0 && b.dailyPnl >= b.cfg.maxDailyProfit)
  }

  /** A question raises exactly when the window is below two, no trade was ever
      recorded, and none of the earlier checks answers first. */
  lemma {:induction false} RaisesExactlyWhen(cfg: Config, calls: seq<Call>, q: Query)
    ensures var b := After(Fresh(cfg), calls);
      Ask(b, q).0 == DividesByZero <==>
        cfg.rollingWindow < 2 && History(calls) == [] && !StoppedEarlier(NewDay(b, q.day), q.time)
  {
    BufferIsHistorySuffix(cfg, calls);
    assert Tail(History(calls), 2 * cfg.rollingWindow) == [] <==> History(calls) == [];
  }
}
