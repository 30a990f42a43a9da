/** What the circuit breaker answers after any sequence of calls, as a function of
    the calls: its counters, its answers in full, and how long a pause lasts. */
module BreakerTheorems {
  import opened Common
  import opened CircuitBreaker

  // ----- The counters, from the calls -----

  /** The day of the latest question. */
  function LastDay(calls: seq<Call>): Option<int> {
    if calls == [] then None
    else
      match calls[|calls| - 1]
      case Asked(q) => Some(q.day)
      case Recorded(_, _) => LastDay(calls[..|calls| - 1])
  }

  /** A question on another day than the latest question's before it. */
  predicate TurnsDay(calls: seq<Call>, q: Query) {
    LastDay(calls).Some? && LastDay(calls).value != q.day
  }

  /** The trades recorded since the last question that turned the day. */
  function Today(calls: seq<Call>): seq<Closed> {
    if calls == [] then []
    else
      var before := calls[..|calls| - 1];
      match calls[|calls| - 1]
      case Asked(q) => if TurnsDay(before, q) then [] else Today(before)
      case Recorded(pnl, isWin) => Today(before) + [Closed(isWin, pnl)]
  }

  /** The losses since the last win. */
  function Streak(trades: seq<Closed>): nat {
    if trades == [] || trades[|trades| - 1].isWin then 0 else Streak(trades[..|trades| - 1]) + 1
  }

  function Profit(trades: seq<Closed>): real {
    if trades == [] then 0.0 else Profit(trades[..|trades| - 1]) + trades[|trades| - 1].pnl
  }

  /** The streak is the run of losses at the end: all of them losses, and no loss
      in front of them. */
  lemma {:induction false} StreakIsTrailingLosses(trades: seq<Closed>)
    ensures var n := |trades| - Streak(trades);
      && 0 <= n
      && (forall i :: n <= i < |trades| ==> !trades[i].isWin)
      && (n > 0 ==> trades[n - 1].isWin)
  {
    if trades == [] || trades[|trades| - 1].isWin {
    } else {
      StreakIsTrailingLosses(trades[..|trades| - 1]);
    }
  }

  /** The counters are those of the trades recorded since the day last turned. */
  ghost predicate Counts(b: Breaker, calls: seq<Call>) {
    && b.losses == Streak(Today(calls))
    && b.sessionPnl == b.dailyPnl == Profit(Today(calls))
    && b.currentDay == LastDay(calls)
  }

  lemma {:induction false} StreakSnoc(trades: seq<Closed>, t: Closed)
    ensures Streak(trades + [t]) == if t.isWin then 0 else Streak(trades) + 1
    ensures Profit(trades + [t]) == Profit(trades) + t.pnl
  {
    assert (trades + [t])[..|trades|] == trades;
  }

  lemma {:induction false} AskCounts(b: Breaker, calls: seq<Call>, q: Query)
    requires Counts(b, calls)
    ensures Counts(NewDay(b, q.day), calls + [Asked(q)])
    ensures Counts(Ask(b, q).1, calls + [Asked(q)])
  {
    assert (calls + [Asked(q)])[..|calls|] == calls;
  }

  lemma {:induction false} RecordCounts(b: Breaker, calls: seq<Call>, pnl: real, isWin: bool)
    requires Counts(b, calls)
    ensures Counts(Record(b, pnl, isWin), calls + [Recorded(pnl, isWin)])
  {
    assert (calls + [Recorded(pnl, isWin)])[..|calls|] == calls;
    StreakSnoc(Today(calls), Closed(isWin, pnl));
  }

  lemma {:induction false} CountersFollowCalls(cfg: Config, calls: seq<Call>)
    ensures Counts(After(Fresh(cfg), calls), calls)
  {
    hide Counts;
    hide Ask;
    hide Record;
    if calls == [] {
      NoCalls(cfg);
    } else {
      var n := |calls| - 1;
      CountersFollowCalls(cfg, calls[..n]);
      assert calls == calls[..n] + [calls[n]];
      match calls[n] {
        case Asked(q) =>
          AskCounts(After(Fresh(cfg), calls[..n]), calls[..n], q);
        case Recorded(pnl, isWin) =>
          RecordCounts(After(Fresh(cfg), calls[..n]), calls[..n], pnl, isWin);
      }
    }
  }

  lemma {:induction false} NoCalls(cfg: Config)
    ensures Counts(Fresh(cfg), [])
  {
  }

  // ----- How long a pause lasts -----

  /** The seconds a block keeps the breaker closed. */
  function Seconds(cfg: Config, r: Reason): Option<int> {
    match r
    case ConsecutiveLosses | RollingWinRate => Some(60 * cfg.cooldownMinutes)
    case SessionDrawdown => Some(3600)
    case DailyDrawdown | DailyProfitCap => Some(43200)
    case Passed | Cooldown | DirectionGating | RegimeAvoidance | DividesByZero => None
  }

  /** When the pause in force after the calls ends: what the latest question that
      was not itself answered by a pause, on the same day, started. */
  function PausedUntil(cfg: Config, calls: seq<Call>): Option<int> {
    if calls == [] then None
    else
      var before := calls[..|calls| - 1];
      match calls[|calls| - 1]
      case Recorded(_, _) => PausedUntil(cfg, before)
      case Asked(q) =>
        var answer := Answer(cfg, before, q);
        if answer == Cooldown then PausedUntil(cfg, before)
        else match Seconds(cfg, answer) case Some(s) => Some(q.time + s) case None => None
  }

  /** The answer to a question after the calls. */
  function Answer(cfg: Config, calls: seq<Call>, q: Query): Reason {
    Ask(After(Fresh(cfg), calls), q).0
  }

  /** A pause of the same day is still in force. */
  predicate Pausing(cfg: Config, calls: seq<Call>, q: Query) {
    !TurnsDay(calls, q) && PausedUntil(cfg, calls).Some? && q.time < PausedUntil(cfg, calls).value
  }

  lemma {:induction false} AskPauses(b: Breaker, q: Query)
    ensures var (r, b') := Ask(b, q);
      && (r == Cooldown ==> b'.cooldownUntil == b.cooldownUntil && b.cooldownUntil.Some? && q.time < b.cooldownUntil.value
                            && (b.currentDay == None || b.currentDay.value == q.day))
      && (r != Cooldown ==> b'.cooldownUntil == match Seconds(b.cfg, r) case Some(s) => Some(q.time + s) case None => None)
      && b'.cfg == b.cfg
  {
  }

  lemma {:induction false} CooldownFollowsCalls(cfg: Config, calls: seq<Call>)
    ensures After(Fresh(cfg), calls).cooldownUntil == PausedUntil(cfg, calls)
  {
    hide Ask;
    if calls == [] {
    } else {
      var n := |calls| - 1;
      CooldownFollowsCalls(cfg, calls[..n]);
      if calls[n].Asked? {
        AskPauses(After(Fresh(cfg), calls[..n]), calls[n].q);
      }
    }
  }

  // ----- Every answer -----

  /** The side the regime allows: short in a confident downtrend, else long. */
  function AllowedSide(cfg: Config, r: Regime): Direction {
    if r.kind == "trending_down" && r.confidence >= cfg.directionGatingMinConfidence then Short else Long
  }

  predicate WrongSide(cfg: Config, q: Query) {
    cfg.enableDirectionGating && q.regime.Some? && q.direction != AllowedSide(cfg, q.regime.value)
  }

  predicate BadRegime(cfg: Config, q: Query) {
    && cfg.enableRegimeAvoidance && q.regime.Some?
    && q.regime.value.confidence >= cfg.regimeAvoidanceMinConfidence && q.regime.value.kind in cfg.blockedRegimes
  }

  predicate IsWin(t: Closed) { t.isWin }

  /** Enough trades recorded, and among the latest ones fewer winners than the floor
      asks for. */
  predicate WinsTooFew(cfg: Config, ever: seq<Closed>) {
    var n := if cfg.rollingWindow == 0 then |ever| else Min(|ever|, cfg.rollingWindow);
    && |ever| > 0 && 2 * |ever| + 1 >= cfg.rollingWindow
    && |Filter(ever[|ever| - n..], IsWin)| as real < cfg.minRollingWinRate * n as real
  }

  lemma {:induction false} WinsAreWinners(s: seq<Closed>)
    ensures Wins(s) == |Filter(s, IsWin)|
  {
    if s == [] {
    } else {
      var n := |s| - 1;
      WinsAreWinners(s[..n]);
      assert s == s[..n] + [s[n]];
      FilterConcat(s[..n], [s[n]], IsWin);
    }
  }

  lemma {:induction false} RateIsProduct(wins: real, n: real, floor: real)
    requires n > 0.0
    ensures wins / n < floor <==> wins < floor * n
  {
    var rate := wins / n;
    assert rate * n == wins;
    if rate < floor {
      assert (floor - rate) * n > 0.0;
    } else {
      assert (rate - floor) * n >= 0.0;
    }
  }

  lemma {:induction false} WindowIsTail(cfg: Config, ever: seq<Closed>)
    ensures var n := if cfg.rollingWindow == 0 then |ever| else Min(|ever|, cfg.rollingWindow);
      |Tail(ever, cfg.rollingWindow)| == n && Tail(ever, cfg.rollingWindow) == ever[|ever| - n..]
    ensures |ever| >= cfg.rollingWindow / 2 <==> 2 * |ever| + 1 >= cfg.rollingWindow
  {
  }

  lemma {:induction false} RollingIsExact(cfg: Config, ever: seq<Closed>)
    ensures RollingUnderFloor(cfg, ever) <==> WinsTooFew(cfg, ever)
  {
    hide Filter;
    hide Wins;
    hide Tail;
    var last := Tail(ever, cfg.rollingWindow);
    WindowIsTail(cfg, ever);
    WinsAreWinners(last);
    if last != [] {
      RateIsProduct(Wins(last) as real, |last| as real, cfg.minRollingWinRate);
    }
  }

  /** What a question on `q.day` finds recorded for that day. */
  function TodayFor(calls: seq<Call>, q: Query): seq<Closed> {
    Today(calls + [Asked(q)])
  }

  /** The first of the named conditions that holds decides the answer. */
  ghost predicate AnswersInOrder(cfg: Config, calls: seq<Call>, q: Query, answer: Reason) {
    var day, ever := TodayFor(calls, q), History(calls);
    var paused := Pausing(cfg, calls, q);
    var losing := Streak(day) >= cfg.maxConsecutiveLosses;
    var session := Profit(day) <= -cfg.maxSessionDrawdown;
    var daily := Profit(day) <= -cfg.maxDailyDrawdown;
    var rich := cfg.maxDailyProfit > 0.0 && Profit(day) >= cfg.maxDailyProfit;
    var undefined := cfg.rollingWindow < 2 && ever == [];
    var rolling := WinsTooFew(cfg, ever);
    && (answer == Cooldown <==> paused)
    && (answer == ConsecutiveLosses <==> !paused && losing)
    && (answer == SessionDrawdown <==> !paused && !losing && session)
    && (answer == DailyDrawdown <==> !paused && !losing && !session && daily)
    && (answer == DailyProfitCap <==> !paused && !losing && !session && !daily && rich)
    && (answer == DividesByZero <==> !paused && !losing && !session && !daily && !rich && undefined)
    && (answer == RollingWinRate <==> !paused && !losing && !session && !daily && !rich && !undefined && rolling)
    && (answer == DirectionGating <==>
          !paused && !losing && !session && !daily && !rich && !undefined && !rolling && WrongSide(cfg, q))
    && (answer == RegimeAvoidance <==>
          !paused && !losing && !session && !daily && !rich && !undefined && !rolling && !WrongSide(cfg, q) && BadRegime(cfg, q))
    && (answer == Passed <==>
          !paused && !losing && !session && !daily && !rich && !undefined && !rolling && !WrongSide(cfg, q) && !BadRegime(cfg, q))
  }

  /** What the checks of a question look at. */
  ghost predicate Sees(cfg: Config, calls: seq<Call>, q: Query, today: Breaker) {
    && today.cfg == cfg && Counts(today, calls + [Asked(q)])
    && (CoolingDown(today, q.time) <==> Pausing(cfg, calls, q))
    && (RollingUnderFloor(cfg, today.recent) <==> WinsTooFew(cfg, History(calls)))
    && (RateUndefined(cfg, today.recent) <==> cfg.rollingWindow < 2 && History(calls) == [])
  }

  lemma {:induction false} QuestionSees(cfg: Config, calls: seq<Call>, q: Query)
    ensures Sees(cfg, calls, q, NewDay(After(Fresh(cfg), calls), q.day))
  {
    hide Counts;
    hide RollingUnderFloor;
    hide WinsTooFew;
    hide PausedUntil;
    var b := After(Fresh(cfg), calls);
    CountersFollowCalls(cfg, calls);
    AskCounts(b, calls, q);
    CooldownFollowsCalls(cfg, calls);
    TrimmingChangesNoDecision(cfg, calls);
    RollingIsExact(cfg, History(calls));
    DayFollowsCalls(b, calls);
  }

  lemma {:induction false} DayFollowsCalls(b: Breaker, calls: seq<Call>)
    requires Counts(b, calls)
    ensures b.currentDay == LastDay(calls)
  {
  }

  lemma {:induction false} VerdictInOrder(cfg: Config, calls: seq<Call>, q: Query, today: Breaker)
    requires Sees(cfg, calls, q, today)
    ensures AnswersInOrder(cfg, calls, q, Verdict(today, q))
  {
    hide RollingUnderFloor;
    hide WinsTooFew;
    hide RateUndefined;
    hide Pausing;
    hide CoolingDown;
    hide Streak;
    hide Profit;
    hide Today;
  }

  /** The answer to any question after any calls, in full. */
  lemma {:induction false} AnswerIsExact(cfg: Config, calls: seq<Call>, q: Query)
    ensures AnswersInOrder(cfg, calls, q, Answer(cfg, calls, q))
  {
    hide AnswersInOrder;
    hide Sees;
    hide Verdict;
    QuestionSees(cfg, calls, q);
    VerdictInOrder(cfg, calls, q, NewDay(After(Fresh(cfg), calls), q.day));
  }

  // ----- A pause in force -----

  /** Only questions of this day, all before `until`, and any trades recorded. */
  ghost predicate Meanwhile(calls: seq<Call>, day: int, until: int) {
    forall i :: 0 <= i < |calls| && calls[i].Asked? ==> calls[i].q.day == day && calls[i].q.time < until
  }

  lemma {:induction false} PauseHolds(b: Breaker, calls: seq<Call>, day: int, until: int)
    requires b.currentDay == Some(day) && b.cooldownUntil == Some(until) && Meanwhile(calls, day, until)
    ensures After(b, calls).currentDay == Some(day) && After(b, calls).cooldownUntil == Some(until)
  {
    if calls == [] {
    } else {
      var n := |calls| - 1;
      PauseHolds(b, calls[..n], day, until);
      hide Verdict;
      if calls[n].Asked? {
        PausedAnswer(After(b, calls[..n]), calls[n].q, day, until);
      }
    }
  }

  lemma {:induction false} PausedAnswer(b: Breaker, q: Query, day: int, until: int)
    requires b.currentDay == Some(day) && b.cooldownUntil == Some(until) && q.day == day && q.time < until
    ensures Ask(b, q).0 == Cooldown && Ask(b, q).1 == b
  {
  }

  /** A block that pauses for some seconds answers every question of the same day
      within them with `Cooldown`, whatever was asked or recorded since; the first
      question after them, or on another day, gets another answer. */
  lemma {:induction false} PauseLastsExactly(cfg: Config, calls: seq<Call>, q: Query, since: seq<Call>, next: Query)
    requires Seconds(cfg, Answer(cfg, calls, q)).Some?
    requires Meanwhile(since, q.day, q.time + Seconds(cfg, Answer(cfg, calls, q)).value)
    ensures Ask(After(Ask(After(Fresh(cfg), calls), q).1, since), next).0 == Cooldown
       <==> next.day == q.day && next.time < q.time + Seconds(cfg, Answer(cfg, calls, q)).value
  {
    hide After;
    hide Ask;
    var b := After(Fresh(cfg), calls);
    var until := q.time + Seconds(cfg, Answer(cfg, calls, q)).value;
    AskPauses(b, q);
    AskSetsDay(b, q);
    PauseHolds(Ask(b, q).1, since, q.day, until);
    CooldownExactlyWhen(After(Ask(b, q).1, since), next);
  }

  lemma {:induction false} AskSetsDay(b: Breaker, q: Query)
    ensures Ask(b, q).1.currentDay == Some(q.day)
  {
  }

  lemma {:induction false} CooldownExactlyWhen(b: Breaker, q: Query)
    requires b.currentDay.Some?
    ensures Ask(b, q).0 == Cooldown <==>
      b.currentDay.value == q.day && b.cooldownUntil.Some? && q.time < b.cooldownUntil.value
  {
  }
}
