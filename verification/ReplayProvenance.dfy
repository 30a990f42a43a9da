/** The trades of a replay, from the candles and signals alone: which signals are
    taken, at what price, and how each trade leaves. */
module ReplayProvenance {
  import opened Common
  import opened Scoring
  import opened Replay
  import opened ReplayTheorems

  // ----- How a trade leaves -----

  predicate ReachesStop(t: SimTrade, c: Candle) {
    match t.direction
    case Long => c.low <= t.stop
    case Short => c.high >= t.stop
  }

  predicate ReachesTarget(t: SimTrade, c: Candle) {
    match t.direction
    case Long => c.high >= t.target
    case Short => c.low <= t.target
  }

  /** The candle is after the entry and ends the trade one way or another. */
  predicate Ends(t: SimTrade, c: Candle, maxHoldMinutes: int) {
    && c.time > t.entryTime
    && (ReachesStop(t, c) || ReachesTarget(t, c) || c.time >= t.entryTime + maxHoldMinutes * 60)
  }

  /** The stop if it is reached, else the target if it is reached, each with
      slippage against the trade, else the close. */
  predicate LeavesOn(t: SimTrade, c: Candle, slippage: real, e: Exit) {
    && e.time == c.time
    && (if ReachesStop(t, c) then
          e.reason == StopLoss && e.price == (match t.direction case Long => t.stop - slippage case Short => t.stop + slippage)
        else if ReachesTarget(t, c) then
          e.reason == TakeProfit && e.price == (match t.direction case Long => t.target - slippage case Short => t.target + slippage)
        else
          e.reason == Timeout && e.price == c.close)
  }

  ghost predicate FirstToEnd(t: SimTrade, cs: seq<Candle>, maxHoldMinutes: int, k: nat) {
    && k < |cs| && Ends(t, cs[k], maxHoldMinutes)
    && forall j :: 0 <= j < k ==> !Ends(t, cs[j], maxHoldMinutes)
  }

  ghost predicate NoneEnds(t: SimTrade, cs: seq<Candle>, maxHoldMinutes: int) {
    forall k :: 0 <= k < |cs| ==> !Ends(t, cs[k], maxHoldMinutes)
  }

  /** The exit on the first candle that ends the trade; with none, a timeout at
      the last close; and no exit without candles. */
  ghost predicate LeavesAtFirstTouch(t: SimTrade, cs: seq<Candle>, maxHoldMinutes: int, slippage: real, e: Option<Exit>) {
    && (e == None <==> cs == [])
    && (forall k: nat :: FirstToEnd(t, cs, maxHoldMinutes, k) ==> e.Some? && LeavesOn(t, cs[k], slippage, e.value))
    && (cs != [] && NoneEnds(t, cs, maxHoldMinutes) ==> e == Some(Exit(cs[|cs| - 1].time, cs[|cs| - 1].close, Timeout)))
  }

  lemma {:induction false} DecideEnds(t: SimTrade, c: Candle, maxHoldMinutes: int, slippage: real)
    ensures var d := Decide(t, c, Deadline(t, maxHoldMinutes), slippage);
      (d.Some? <==> Ends(t, c, maxHoldMinutes)) && (d.Some? ==> LeavesOn(t, c, slippage, d.value))
  {
  }

  /** One of the two cases always applies. */
  lemma {:induction false} SomeFirst(t: SimTrade, cs: seq<Candle>, maxHoldMinutes: int)
    ensures NoneEnds(t, cs, maxHoldMinutes) || exists k: nat :: FirstToEnd(t, cs, maxHoldMinutes, k)
  {
    if cs == [] {
    } else {
      var n := |cs| - 1;
      SomeFirst(t, cs[..n], maxHoldMinutes);
      if k: nat :| FirstToEnd(t, cs[..n], maxHoldMinutes, k) {
        assert FirstToEnd(t, cs, maxHoldMinutes, k);
      } else if Ends(t, cs[n], maxHoldMinutes) {
        assert forall j :: 0 <= j < n ==> cs[..n][j] == cs[j];
        assert FirstToEnd(t, cs, maxHoldMinutes, n);
      } else {
        assert forall j :: 0 <= j < n ==> cs[..n][j] == cs[j];
      }
    }
  }

  lemma {:induction false} NoDecision(t: SimTrade, cs: seq<Candle>, maxHoldMinutes: int, slippage: real)
    requires NoneEnds(t, cs, maxHoldMinutes)
    ensures FirstDecided(t, cs, Deadline(t, maxHoldMinutes), slippage) == None
  {
    hide Decide;
    hide Ends;
    if cs == [] {
    } else {
      DecideEnds(t, cs[0], maxHoldMinutes, slippage);
      NoDecision(t, cs[1..], maxHoldMinutes, slippage);
    }
  }

  lemma {:induction false} DecisionOf(t: SimTrade, cs: seq<Candle>, maxHoldMinutes: int, slippage: real, k: nat)
    requires FirstToEnd(t, cs, maxHoldMinutes, k)
    ensures FirstDecided(t, cs, Deadline(t, maxHoldMinutes), slippage)
         == Decide(t, cs[k], Deadline(t, maxHoldMinutes), slippage)
  {
    hide Decide;
    hide Ends;
    DecideEnds(t, cs[0], maxHoldMinutes, slippage);
    if k == 0 {
    } else {
      assert FirstToEnd(t, cs[1..], maxHoldMinutes, k - 1);
      DecisionOf(t, cs[1..], maxHoldMinutes, slippage, k - 1);
    }
  }

  /** The simulated exit, from the candles' own fields. */
  lemma {:induction false} ExitIsFirstTouch(t: SimTrade, cs: seq<Candle>, maxHoldMinutes: int, slippage: real)
    ensures LeavesAtFirstTouch(t, cs, maxHoldMinutes, slippage, ExitIn(t, cs, maxHoldMinutes, slippage))
  {
    hide FirstDecided;
    hide Decide;
    hide Ends;
    hide LeavesOn;
    SomeFirst(t, cs, maxHoldMinutes);
    if NoneEnds(t, cs, maxHoldMinutes) {
      NoDecision(t, cs, maxHoldMinutes, slippage);
    }
    forall k: nat | FirstToEnd(t, cs, maxHoldMinutes, k)
      ensures var e := ExitIn(t, cs, maxHoldMinutes, slippage); e.Some? && LeavesOn(t, cs[k], slippage, e.value)
    {
      DecisionOf(t, cs, maxHoldMinutes, slippage, k);
      DecideEnds(t, cs[k], maxHoldMinutes, slippage);
    }
  }

  // ----- Which signals are taken -----

  /** The trade of a signal taken on `row`: its own fields, entered with slippage
      against it at the signal's price or else the close, and left at first touch. */
  ghost predicate Follows(p: Params, row: Candle, ahead: seq<Candle>, sig: Signal, t: SimTrade) {
    && sig.stop.Some? && sig.target.Some?
    && t.trigger == sig.trigger && t.direction == sig.direction && t.confidence == sig.confidence
    && t.stop == sig.stop.value && t.target == sig.target.value && t.entryTime == row.time
    && var price := if sig.entry.Some? then sig.entry.value else row.close;
      && t.entryPrice == (match sig.direction case Long => price + p.slippage case Short => price - p.slippage)
      && t.exit.Some?
      && LeavesAtFirstTouch(t.(exit := None), ahead, p.maxHoldMinutes, p.slippage, t.exit)
  }

  ghost predicate StillHeld(t: SimTrade, time: int) {
    t.exit.Some? && t.exit.value.time > time
  }

  /** How many of the trades taken so far leave after `time`. */
  ghost function HeldBeyond(trades: seq<SimTrade>, time: int): nat {
    |Filter(trades, (t: SimTrade) => StillHeld(t, time))|
  }

  /** The state in front of signal `j` of row `i`. */
  function Before(p: Params, forward: int, rows: seq<Candle>, signals: seq<seq<Signal>>, i: nat, j: nat): Slots
    requires i < |rows| == |signals| && j <= |signals[i]|
  {
    Admit(p, forward, rows, i, Free(ReplayTo(p, forward, rows, signals, i), rows[i].time), signals[i], j)
  }

  lemma {:induction false} OpenIsHeld(trades: seq<SimTrade>, time: int)
    requires forall t :: t in trades ==> t.exit.Some?
    ensures |Filter(trades, Occupies(time))| == HeldBeyond(trades, time)
  {
    var held := (t: SimTrade) => StillHeld(t, time);
    FilterMonotone(trades, Occupies(time), held);
    FilterMonotone(trades, held, Occupies(time));
  }

  lemma {:induction false} BeforeWithinCap(p: Params, forward: int, rows: seq<Candle>, signals: seq<seq<Signal>>, i: nat, j: nat)
    requires p.warmupBars <= i < |rows| == |signals| && j <= |signals[i]| && Increasing(rows)
    ensures WithinCap(p, Before(p, forward, rows, signals, i, j), rows[i].time)
  {
    hide WithinCap;
    hide Admit;
    hide Free;
    RowWithinCap(p, forward, rows, signals, i);
    AdmitsKeepCap(p, forward, rows, i, Free(ReplayTo(p, forward, rows, signals, i), rows[i].time), signals[i], j);
  }

  lemma {:induction false} RowWithinCap(p: Params, forward: int, rows: seq<Candle>, signals: seq<seq<Signal>>, i: nat)
    requires p.warmupBars <= i < |rows| == |signals| && Increasing(rows)
    ensures WithinCap(p, Free(ReplayTo(p, forward, rows, signals, i), rows[i].time), rows[i].time)
  {
    ReplayStaysWithinCap(p, forward, rows, signals, i);
    if i > p.warmupBars {
      FreeKeepsCap(p, ReplayTo(p, forward, rows, signals, i), rows[i - 1].time, rows[i].time);
    }
  }

  lemma {:induction false} AdmitFollows(p: Params, forward: int, rows: seq<Candle>, i: nat, s: Slots, sig: Signal)
    requires i < |rows|
    ensures var s', ahead := AdmitOne(p, forward, rows, i, s, sig), Window(rows, i + 1, forward);
      if |s.open| < p.maxConcurrent && sig.stop.Some? && sig.target.Some? && ahead != [] then
        && s'.closed == s.closed + [s'.closed[|s'.closed| - 1]]
        && Follows(p, rows[i], ahead, sig, s'.closed[|s'.closed| - 1])
      else s'.closed == s.closed
  {
    if sig.stop.Some? && sig.target.Some? {
      hide ExitIn;
      hide LeavesAtFirstTouch;
      var t, ahead := TradeFor(p, rows[i], sig), Window(rows, i + 1, forward);
      ExitIsFirstTouch(t, ahead, p.maxHoldMinutes, p.slippage);
      ExitExists(t, ahead, p.maxHoldMinutes, p.slippage);
      assert t.(exit := None) == t;
    }
  }

  lemma {:induction false} ExitExists(t: SimTrade, cs: seq<Candle>, maxHoldMinutes: int, slippage: real)
    ensures ExitIn(t, cs, maxHoldMinutes, slippage) == None <==> cs == []
  {
  }

  /** Signal `j` of row `i` is taken exactly when it has a stop and a target, fewer
      than the cap of the trades taken so far leave after this row, and a candle
      lies in its forward window. It then becomes the next trade, entered and left
      as its own fields and the candles say; otherwise no trade is added. */
  lemma {:induction false} SignalTakenExactlyWhen(
      p: Params, forward: int, rows: seq<Candle>, signals: seq<seq<Signal>>, i: nat, j: nat)
    requires p.warmupBars <= i < |rows| == |signals| && j < |signals[i]| && Increasing(rows)
    ensures var was, now := Before(p, forward, rows, signals, i, j).closed, Before(p, forward, rows, signals, i, j + 1).closed;
      var sig, ahead := signals[i][j], Window(rows, i + 1, forward);
      if HeldBeyond(was, rows[i].time) < p.maxConcurrent && sig.stop.Some? && sig.target.Some? && ahead != [] then
        && |now| == |was| + 1 && now[..|was|] == was
        && Follows(p, rows[i], ahead, sig, now[|was|])
      else now == was
  {
    var s := Before(p, forward, rows, signals, i, j);
    BeforeWithinCap(p, forward, rows, signals, i, j);
    OpenIsHeld(s.closed, rows[i].time);
    AdmitFollows(p, forward, rows, i, s, signals[i][j]);
    hide AdmitOne;
    hide Follows;
    hide HeldBeyond;
    hide Window;
  }

  /** The signals of one row follow those of the row before. */
  lemma {:induction false} RowsConnect(p: Params, forward: int, rows: seq<Candle>, signals: seq<seq<Signal>>, i: nat)
    requires p.warmupBars <= i < |rows| == |signals|
    ensures Before(p, forward, rows, signals, i, 0).closed == ReplayTo(p, forward, rows, signals, i).closed
    ensures Before(p, forward, rows, signals, i, |signals[i]|) == ReplayTo(p, forward, rows, signals, i + 1)
  {
  }

  // ----- Every trade of a replay -----

  /** Some signal of a row from `warmupBars` on became this trade. */
  ghost predicate Explained(p: Params, forward: int, rows: seq<Candle>, signals: seq<seq<Signal>>, t: SimTrade)
    requires |rows| == |signals|
  {
    exists i: nat, j: nat :: p.warmupBars <= i < |rows| && j < |signals[i]|
      && Follows(p, rows[i], Window(rows, i + 1, forward), signals[i][j], t)
  }

  ghost predicate AllExplained(p: Params, forward: int, rows: seq<Candle>, signals: seq<seq<Signal>>, trades: seq<SimTrade>)
    requires |rows| == |signals|
  {
    forall t :: t in trades ==> Explained(p, forward, rows, signals, t)
  }

  lemma {:induction false} AdmitsExplain(p: Params, forward: int, rows: seq<Candle>, signals: seq<seq<Signal>>, i: nat, s: Slots, n: nat)
    requires p.warmupBars <= i < |rows| == |signals| && n <= |signals[i]|
    requires AllExplained(p, forward, rows, signals, s.closed)
    ensures AllExplained(p, forward, rows, signals, Admit(p, forward, rows, i, s, signals[i], n).closed)
  {
    hide AdmitOne;
    hide Follows;
    hide Window;
    if n == 0 {
    } else {
      AdmitsExplain(p, forward, rows, signals, i, s, n - 1);
      AdmitFollows(p, forward, rows, i, Admit(p, forward, rows, i, s, signals[i], n - 1), signals[i][n - 1]);
    }
  }

  lemma {:induction false} ReplayExplains(p: Params, forward: int, rows: seq<Candle>, signals: seq<seq<Signal>>, k: nat)
    requires k <= |rows| == |signals|
    ensures AllExplained(p, forward, rows, signals, ReplayTo(p, forward, rows, signals, k).closed)
  {
    hide Explained;
    hide Admit;
    if k > p.warmupBars {
      ReplayExplains(p, forward, rows, signals, k - 1);
      AdmitsExplain(p, forward, rows, signals, k - 1,
                    Free(ReplayTo(p, forward, rows, signals, k - 1), rows[k - 1].time), |signals[k - 1]|);
    }
  }

  /** With candles at least one timeframe apart, every trade of the bounded replay
      is some signal's, left on the first of all later candles that ends it. */
  lemma {:induction false} EveryTradeIsExplained(p: Params, rows: seq<Candle>, signals: seq<seq<Signal>>)
    requires p.tfMinutes > 0 && p.maxHoldMinutes >= -p.tfMinutes
    requires |rows| == |signals| && SpacedBy(rows, p.tfMinutes * 60)
    ensures forall t :: t in ReplayTo(p, MaxForward(p), rows, signals, |rows|).closed ==>
      exists i: nat, j: nat :: p.warmupBars <= i < |rows| && j < |signals[i]| && Follows(p, rows[i], rows[i + 1..], signals[i][j], t)
  {
    hide MaxForward;
    hide ReplayTo;
    hide Follows;
    BoundedReplayIsFullReplay(p, rows, signals, |rows|);
    ReplayExplains(p, |rows|, rows, signals, |rows|);
    var trades := ReplayTo(p, MaxForward(p), rows, signals, |rows|).closed;
    forall t | t in trades
      ensures exists i: nat, j: nat :: p.warmupBars <= i < |rows| && j < |signals[i]| && Follows(p, rows[i], rows[i + 1..], signals[i][j], t)
    {
      assert Explained(p, |rows|, rows, signals, t);
      var i: nat, j: nat :| p.warmupBars <= i < |rows| && j < |signals[i]|
        && Follows(p, rows[i], Window(rows, i + 1, |rows|), signals[i][j], t);
      WholeWindow(rows, i);
    }
  }

  lemma {:induction false} WholeWindow(rows: seq<Candle>, i: nat)
    requires i < |rows|
    ensures Window(rows, i + 1, |rows|) == rows[i + 1..]
  {
    assert Min(i + 1 + |rows|, |rows|) == |rows|;
    assert rows[i + 1..|rows|] == rows[i + 1..];
  }
}
