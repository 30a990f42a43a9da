/** The replay gate's exit simulation and admission loop
    (scripts/ops/backtest_config.py, `simulate_exit` and `run_backtest`).

    Rows are candles in archive order. The signals of each row are inputs:
    `None` when the signal source raised. */
module Replay {
  import opened Common
  import opened Scoring

  datatype Candle = Candle(time: int, high: real, low: real, close: real)

  datatype Signal = Signal(
    trigger: string, direction: Direction, entry: Option<real>, stop: Option<real>, target: Option<real>, confidence: real)

  datatype Params = Params(
    tfMinutes: int, warmupBars: nat, maxHoldMinutes: int, maxConcurrent: int, slippage: real, commission: real)

  datatype Result =
    | NotEnoughCandles(have: nat)
    | SignalError(processed: nat)
    | Replayed(trades: seq<SimTrade>, netPoints: seq<real>, signals: nat)

  // ----- Exits -----

  /** Slippage is always against the trade. */
  function Slipped(d: Direction, price: real, slippage: real): real {
    if d == Long then price - slippage else price + slippage
  }

  function Deadline(t: SimTrade, maxHoldMinutes: int): int {
    t.entryTime + maxHoldMinutes * 60
  }

  /** What one bar decides: stop before target before deadline. */
  function Decide(t: SimTrade, c: Candle, deadline: int, slippage: real): Option<Exit> {
    if c.time <= t.entryTime then None
    else if (if t.direction == Long then c.low <= t.stop else c.high >= t.stop) then
      Some(Exit(c.time, Slipped(t.direction, t.stop, slippage), StopLoss))
    else if (if t.direction == Long then c.high >= t.target else c.low <= t.target) then
      Some(Exit(c.time, Slipped(t.direction, t.target, slippage), TakeProfit))
    else if c.time >= deadline then Some(Exit(c.time, c.close, Timeout))
    else None
  }

  function FirstDecided(t: SimTrade, cs: seq<Candle>, deadline: int, slippage: real): Option<Exit> {
    if cs == [] then None
    else
      var d := Decide(t, cs[0], deadline, slippage);
      if d.Some? then d else FirstDecided(t, cs[1..], deadline, slippage)
  }

  /** Off the end of the candles a trade times out at the last close. */
  function ExitIn(t: SimTrade, cs: seq<Candle>, maxHoldMinutes: int, slippage: real): Option<Exit> {
    var d := FirstDecided(t, cs, Deadline(t, maxHoldMinutes), slippage);
    if d.Some? || cs == [] then d
    else Some(Exit(cs[|cs| - 1].time, cs[|cs| - 1].close, Timeout))
  }

  method SimulateExit(t: SimTrade, future: seq<Candle>, maxHoldMinutes: int, slippage: real) returns (exit: Option<Exit>)
    ensures exit == ExitIn(t, future, maxHoldMinutes, slippage)
  {
    var deadline := t.entryTime + maxHoldMinutes * 60;
    for k := 0 to |future|
      invariant FirstDecided(t, future, deadline, slippage) == FirstDecided(t, future[k..], deadline, slippage)
    {
      var bar := future[k];
      if bar.time <= t.entryTime {
        continue;
      }
      if t.direction == Long {
        if bar.low <= t.stop {
          return Some(Exit(bar.time, t.stop - slippage, StopLoss));
        }
        if bar.high >= t.target {
          return Some(Exit(bar.time, t.target - slippage, TakeProfit));
        }
      } else {
        if bar.high >= t.stop {
          return Some(Exit(bar.time, t.stop + slippage, StopLoss));
        }
        if bar.low <= t.target {
          return Some(Exit(bar.time, t.target + slippage, TakeProfit));
        }
      }
      if bar.time >= deadline {
        return Some(Exit(bar.time, bar.close, Timeout));
      }
    }
    if |future| > 0 {
      var last := future[|future| - 1];
      return Some(Exit(last.time, last.close, Timeout));
    }
    return None;
  }

  // ----- Admission -----

  /** Trades that occupy a slot, and all trades taken, in order. */
  datatype Slots = Slots(open: seq<SimTrade>, closed: seq<SimTrade>)

  /** Python's `rows[lo:lo + n]` for lo within the list; an end below zero
      counts from the back. */
  function Window(rows: seq<Candle>, lo: nat, n: int): seq<Candle>
    requires lo <= |rows|
  {
    var end := if lo + n < 0 then |rows| + lo + n else Min(lo + n, |rows|);
    if end <= lo then [] else rows[lo..end]
  }

  function MaxForward(p: Params): int
    requires p.tfMinutes > 0
  {
    p.maxHoldMinutes / p.tfMinutes + 2
  }

  function TradeFor(p: Params, row: Candle, sig: Signal): SimTrade
    requires sig.stop.Some? && sig.target.Some?
  {
    var price := sig.entry.GetOr(row.close);
    SimTrade(sig.trigger, sig.direction, row.time,
             if sig.direction == Long then price + p.slippage else price - p.slippage,
             sig.stop.value, sig.target.value, sig.confidence, None)
  }

  /** One signal at row i, resolved against the next `forward` candles. */
  function AdmitOne(p: Params, forward: int, rows: seq<Candle>, i: nat, s: Slots, sig: Signal): Slots
    requires i < |rows|
  {
    if |s.open| >= p.maxConcurrent || sig.stop == None || sig.target == None then s
    else
      var t := TradeFor(p, rows[i], sig);
      var exit := ExitIn(t, Window(rows, i + 1, forward), p.maxHoldMinutes, p.slippage);
      if exit == None then s
      else Slots(s.open + [t.(exit := exit)], s.closed + [t.(exit := exit)])
  }

  function Admit(p: Params, forward: int, rows: seq<Candle>, i: nat, s: Slots, sigs: seq<Signal>, n: nat): Slots
    requires i < |rows| && n <= |sigs|
  {
    if n == 0 then s else AdmitOne(p, forward, rows, i, Admit(p, forward, rows, i, s, sigs, n - 1), sigs[n - 1])
  }

  /** Is the slot still taken after a bar stamped `time`? A trade with no exit
      time counts as time zero. */
  function Occupies(time: int): SimTrade -> bool {
    (t: SimTrade) => (if t.exit == None then 0 else t.exit.value.time) > time
  }

  function Free(s: Slots, time: int): Slots {
    s.(open := Filter(s.open, Occupies(time)))
  }

  function RowStep(p: Params, forward: int, rows: seq<Candle>, i: nat, s: Slots, sigs: seq<Signal>): Slots
    requires i < |rows|
  {
    Admit(p, forward, rows, i, Free(s, rows[i].time), sigs, |sigs|)
  }

  /** The slots after rows `warmupBars .. k`. */
  function ReplayTo(p: Params, forward: int, rows: seq<Candle>, signals: seq<seq<Signal>>, k: nat): Slots
    requires k <= |rows| == |signals|
  {
    if k <= p.warmupBars then Slots([], [])
    else RowStep(p, forward, rows, k - 1, ReplayTo(p, forward, rows, signals, k - 1), signals[k - 1])
  }

  function Given(source: seq<Option<seq<Signal>>>): (r: seq<seq<Signal>>)
    ensures |r| == |source|
  {
    MapSeq(source, (o: Option<seq<Signal>>) => o.GetOr([]))
  }

  function NetPoints(trades: seq<SimTrade>, commission: real): seq<real> {
    MapSeq(trades, (t: SimTrade) => Net(t, commission))
  }

  function CountSignals(signals: seq<seq<Signal>>, lo: nat, k: nat): nat
    requires k <= |signals|
  {
    if k <= lo then 0 else CountSignals(signals, lo, k - 1) + |signals[k - 1]|
  }

  /** The first row from `k` on whose signal source raised. */
  function FirstError(source: seq<Option<seq<Signal>>>, k: nat): Option<nat>
    requires k <= |source|
    decreases |source| - k
  {
    if k == |source| then None
    else if source[k] == None then Some(k)
    else FirstError(source, k + 1)
  }

  lemma {:induction false} GivenAt(source: seq<Option<seq<Signal>>>, i: nat)
    requires i < |source| && source[i].Some?
    ensures Given(source)[i] == source[i].value
  {
  }

  lemma {:induction false} NetSnoc(trades: seq<SimTrade>, t: SimTrade, commission: real)
    ensures NetPoints(trades + [t], commission) == NetPoints(trades, commission) + [Net(t, commission)]
  {
    var l, r := NetPoints(trades + [t], commission), NetPoints(trades, commission) + [Net(t, commission)];
    assert forall k :: 0 <= k < |l| ==> l[k] == r[k];
  }

  lemma {:induction false} ScoreSnoc(trades: seq<SimTrade>, t: SimTrade, commission: real)
    ensures ScoreOf(trades + [t], commission) == Enter(ScoreOf(trades, commission), t, commission)
  {
    assert (trades + [t])[..|trades|] == trades;
  }

  /** Once the slots are full the rest of a row's signals change nothing. */
  lemma {:induction false} FullStaysFull(p: Params, forward: int, rows: seq<Candle>, i: nat, s: Slots, sigs: seq<Signal>, n: nat, m: nat)
    requires i < |rows| && n <= m <= |sigs|
    requires |Admit(p, forward, rows, i, s, sigs, n).open| >= p.maxConcurrent
    ensures Admit(p, forward, rows, i, s, sigs, m) == Admit(p, forward, rows, i, s, sigs, n)
  {
    if n < m {
      FullStaysFull(p, forward, rows, i, s, sigs, n, m - 1);
    }
  }

  method AdmitSignals(p: Params, rows: seq<Candle>, i: nat, s: Slots, sigs: seq<Signal>, card: Scorecard)
    returns (r: Slots, nets: seq<real>)
    requires p.tfMinutes > 0 && i < |rows|
    requires card.State() == ScoreOf(s.closed, p.commission)
    modifies card
    ensures r == Admit(p, MaxForward(p), rows, i, s, sigs, |sigs|)
    ensures card.State() == ScoreOf(r.closed, p.commission)
    ensures NetPoints(r.closed, p.commission) == NetPoints(s.closed, p.commission) + nets
  {
    hide ScoreOf;
    hide NetPoints;
    hide MaxForward;
    hide ExitIn;
    hide Window;
    hide Scorecard.State;
    r, nets := s, [];
    for n := 0 to |sigs|
      invariant r == Admit(p, MaxForward(p), rows, i, s, sigs, n)
      invariant card.State() == ScoreOf(r.closed, p.commission)
      invariant NetPoints(r.closed, p.commission) == NetPoints(s.closed, p.commission) + nets
    {
      if |r.open| >= p.maxConcurrent {
        FullStaysFull(p, MaxForward(p), rows, i, s, sigs, n, |sigs|);
        return;
      }
      var sig := sigs[n];
      if sig.stop == None || sig.target == None {
        continue;
      }
      var t := TradeFor(p, rows[i], sig);
      var exit := SimulateExit(t, Window(rows, i + 1, MaxForward(p)), p.maxHoldMinutes, p.slippage);
      if exit == None {
        continue;
      }
      t := t.(exit := exit);
      var net := card.RecordTrade(t, p.commission);
      NetSnoc(r.closed, t, p.commission);
      ScoreSnoc(r.closed, t, p.commission);
      nets := nets + [net];
      r := Slots(r.open + [t], r.closed + [t]);
    }
  }

  function ResultOf(p: Params, rows: seq<Candle>, source: seq<Option<seq<Signal>>>): Result
    requires p.tfMinutes > 0 && |source| == |rows|
  {
    if |rows| <= p.warmupBars then NotEnoughCandles(|rows|)
    else
      match FirstError(source, p.warmupBars)
      case Some(k) => SignalError(k)
      case None =>
        var trades := ReplayTo(p, MaxForward(p), rows, Given(source), |rows|).closed;
        Replayed(trades, NetPoints(trades, p.commission), CountSignals(Given(source), p.warmupBars, |rows|))
  }

  /** One row: free the slots whose trades are over, then admit its signals. */
  method ReplayRow(p: Params, rows: seq<Candle>, i: nat, s: Slots, sigs: seq<Signal>, card: Scorecard)
    returns (r: Slots, nets: seq<real>)
    requires p.tfMinutes > 0 && i < |rows|
    requires card.State() == ScoreOf(s.closed, p.commission)
    modifies card
    ensures r == RowStep(p, MaxForward(p), rows, i, s, sigs)
    ensures card.State() == ScoreOf(r.closed, p.commission)
    ensures NetPoints(r.closed, p.commission) == NetPoints(s.closed, p.commission) + nets
  {
    var freed := s.(open := Filter(s.open, Occupies(rows[i].time)));
    r, nets := AdmitSignals(p, rows, i, freed, sigs, card);
  }

  /** The replay over all rows, with its scorecard. */
  method RunReplay(p: Params, rows: seq<Candle>, source: seq<Option<seq<Signal>>>, card: Scorecard)
    returns (result: Result)
    requires p.tfMinutes > 0 && |source| == |rows|
    requires card.State() == EMPTY_CARD
    modifies card
    ensures result == ResultOf(p, rows, source)
    ensures result.Replayed? ==> card.State() == ScoreOf(result.trades, p.commission)
  {
    assert ScoreOf([], p.commission) == EMPTY_CARD && NetPoints([], p.commission) == [];
    hide ScoreOf;
    hide RowStep;
    hide MaxForward;
    hide Given;
    hide NetPoints;
    hide Scorecard.State;
    if |rows| <= p.warmupBars {
      return NotEnoughCandles(|rows|);
    }
    var s, nets, total := Slots([], []), [], 0;
    for i := p.warmupBars to |rows|
      invariant s == ReplayTo(p, MaxForward(p), rows, Given(source), i)
      invariant total == CountSignals(Given(source), p.warmupBars, i)
      invariant nets == NetPoints(s.closed, p.commission)
      invariant card.State() == ScoreOf(s.closed, p.commission)
      invariant FirstError(source, p.warmupBars) == FirstError(source, i)
    {
      if source[i] == None {
        assert FirstError(source, i) == Some(i);
        return SignalError(i);
      }
      assert FirstError(source, i) == FirstError(source, i + 1);
      GivenAt(source, i);
      var sigs := source[i].value;
      total := total + |sigs|;
      var more;
      s, more := ReplayRow(p, rows, i, s, sigs, card);
      nets := nets + more;
    }
    return Replayed(s.closed, nets, total);
  }
}
