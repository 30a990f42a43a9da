/** The BTC trend-defender backtest (scripts/ops/backtest_btc_trend_defender.py,
    `backtest`): pending orders, one position, fees and equity.

    Each row carries its indicators; `None` stands for an indicator that is not
    a number yet. Prices, sizes and money are real numbers. */
module BtcTrend {
  import opened Common

  const START_EQUITY: real := 10000.0

  datatype Params = Params(
    adxMin: real, trailAtr: real, minAtrPct: real, maxAtrPct: real,
    feeBpsSide: real, slippage: real, allowShorts: bool, maxBarsTrade: int)

  datatype Trend = Trend(h4Close: real, h4Fast: real, h4Slow: real, h4Adx: real, dailyEma: real)

  datatype Row = Row(
    open: real, high: real, low: real, close: real,
    atr: Option<real>, atrPct: real, trend: Option<Trend>, upper: Option<real>, lower: Option<real>)

  /** Pending orders and positions share the sign of the source's `pos`. */
  datatype Position =
    | Flat
    | Held(side: Direction, qty: real, entry: real, entryIndex: nat, highWater: real, lowWater: real, entryFee: real)

  datatype Trade = Trade(side: Direction, entryIndex: nat, exitIndex: nat, entry: real, exit: real, pnl: real)

  datatype Book = Book(equity: real, pos: Position, pending: Option<Direction>, trades: seq<Trade>)

  function Fee(p: Params): real { p.feeBpsSide / 10000.0 }

  function EntryPrice(p: Params, side: Direction, open: real): real {
    if side == Long then open + p.slippage else open - p.slippage
  }

  /** Sizing divides by the entry price. */
  predicate Priced(p: Params, rows: seq<Row>) {
    forall k :: 0 <= k < |rows| ==> EntryPrice(p, Long, rows[k].open) != 0.0 && EntryPrice(p, Short, rows[k].open) != 0.0
  }

  // ----- One bar -----

  /** The stop after this bar, if the ATR is known. */
  function StopOf(p: Params, pos: Position, r: Row): Option<real>
    requires pos.Held?
  {
    match r.atr
    case None => None
    case Some(atr) =>
      Some(if pos.side == Long then pos.highWater - p.trailAtr * atr else pos.lowWater + p.trailAtr * atr)
  }

  function Water(pos: Position, r: Row): Position
    requires pos.Held?
  {
    if pos.side == Long then pos.(highWater := MaxReal(pos.highWater, r.high))
    else pos.(lowWater := MinReal(pos.lowWater, r.low))
  }

  predicate Stopped(p: Params, pos: Position, r: Row)
    requires pos.Held?
  {
    var stop := StopOf(p, pos, r);
    stop.Some? && if pos.side == Long then r.low <= stop.value else r.high >= stop.value
  }

  predicate TimedOut(p: Params, pos: Position, i: nat)
    requires pos.Held?
  {
    p.maxBarsTrade > 0 && i - pos.entryIndex >= p.maxBarsTrade
  }

  function ExitPrice(p: Params, pos: Position, r: Row): real
    requires pos.Held?
  {
    var base := if Stopped(p, pos, r) then StopOf(p, pos, r).value else r.close;
    if pos.side == Long then base - p.slippage else base + p.slippage
  }

  function PnlAt(p: Params, pos: Position, exit: real): real
    requires pos.Held?
  {
    (if pos.side == Long then pos.qty * (exit - pos.entry) else pos.qty * (pos.entry - exit))
    - pos.entryFee - AbsReal(pos.qty * exit) * Fee(p)
  }

  function ExitStep(p: Params, b: Book, r: Row, i: nat): Book {
    if b.pos == Flat then b
    else
      var pos := Water(b.pos, r);
      if Stopped(p, pos, r) || TimedOut(p, pos, i) then
        var exit := ExitPrice(p, pos, r);
        var pnl := PnlAt(p, pos, exit);
        b.(equity := b.equity + pnl, pos := Flat,
           trades := b.trades + [Trade(pos.side, pos.entryIndex, i, pos.entry, exit, pnl)])
      else b.(pos := pos)
  }

  function Opened(p: Params, equity: real, side: Direction, r: Row, i: nat): Position
    requires EntryPrice(p, side, r.open) != 0.0
  {
    var entry := EntryPrice(p, side, r.open);
    var qty := equity / entry;
    Held(side, qty, entry, i, r.high, r.low, AbsReal(qty * entry) * Fee(p))
  }

  function EntryStep(p: Params, b: Book, r: Row, i: nat): Book
    requires EntryPrice(p, Long, r.open) != 0.0 && EntryPrice(p, Short, r.open) != 0.0
  {
    if b.pending.Some? && b.pos == Flat && r.atr.Some? && r.trend.Some? then
      b.(pos := Opened(p, b.equity, b.pending.value, r, i), pending := None)
    else b
  }

  predicate AtrInBand(p: Params, r: Row) {
    r.atr.Some? && p.minAtrPct <= r.atrPct <= p.maxAtrPct
  }

  predicate TrendLong(p: Params, r: Row) {
    AtrInBand(p, r) && r.trend.Some?
    && var t := r.trend.value; t.h4Close > t.h4Fast > t.h4Slow && t.h4Adx >= p.adxMin && r.close > t.dailyEma
  }

  predicate TrendShort(p: Params, r: Row) {
    AtrInBand(p, r) && r.trend.Some?
    && var t := r.trend.value; t.h4Close < t.h4Fast < t.h4Slow && t.h4Adx >= p.adxMin && r.close < t.dailyEma
  }

  function SignalStep(p: Params, b: Book, r: Row, isLast: bool): Book {
    if b.pos != Flat || isLast then b
    else if TrendLong(p, r) && r.upper.Some? && r.close > r.upper.value then b.(pending := Some(Long))
    else if p.allowShorts && TrendShort(p, r) && r.lower.Some? && r.close < r.lower.value then b.(pending := Some(Short))
    else b
  }

  function BarStep(p: Params, b: Book, rows: seq<Row>, i: nat): Book
    requires i < |rows| && Priced(p, rows)
  {
    SignalStep(p, EntryStep(p, ExitStep(p, b, rows[i], i), rows[i], i), rows[i], i + 1 == |rows|)
  }

  const START := Book(START_EQUITY, Flat, None, [])

  function RunTo(p: Params, rows: seq<Row>, k: nat): Book
    requires k <= |rows| && Priced(p, rows)
  {
    if k == 0 then START else BarStep(p, RunTo(p, rows, k - 1), rows, k - 1)
  }

  /** The loop, with its variables. */
  method Backtest(p: Params, rows: seq<Row>) returns (equity: real, trades: seq<Trade>, pos: Position)
    requires Priced(p, rows)
    ensures var b := RunTo(p, rows, |rows|);
      equity == b.equity && trades == b.trades && pos == b.pos
  {
    equity, trades, pos := START_EQUITY, [], Flat;
    var pending: Option<Direction> := None;
    for i := 0 to |rows|
      invariant Book(equity, pos, pending, trades) == RunTo(p, rows, i)
    {
      var r := rows[i];
      if pos != Flat {
        pos := Water(pos, r);
        if Stopped(p, pos, r) || TimedOut(p, pos, i) {
          var exit := ExitPrice(p, pos, r);
          var pnl := PnlAt(p, pos, exit);
          equity := equity + pnl;
          trades := trades + [Trade(pos.side, pos.entryIndex, i, pos.entry, exit, pnl)];
          pos := Flat;
        }
      }
      if pending.Some? && pos == Flat && r.atr.Some? && r.trend.Some? {
        pos := Opened(p, equity, pending.value, r, i);
        pending := None;
      }
      if pos == Flat && i + 1 < |rows| {
        if TrendLong(p, r) && r.upper.Some? && r.close > r.upper.value {
          pending := Some(Long);
        } else if p.allowShorts && TrendShort(p, r) && r.lower.Some? && r.close < r.lower.value {
          pending := Some(Short);
        }
      }
    }
  }

  // ----- The order of events -----

  ghost predicate InSequence(trades: seq<Trade>) {
    && (forall k :: 0 <= k < |trades| ==> trades[k].entryIndex < trades[k].exitIndex)
    && (forall k :: 0 < k < |trades| ==> trades[k - 1].exitIndex < trades[k].entryIndex)
  }

  /** The bar of the last exit, or -1. */
  function LastExit(b: Book): int {
    if b.trades == [] then -1 else b.trades[|b.trades| - 1].exitIndex
  }

  ghost predicate Orderly(b: Book, next: nat) {
    && (b.pos.Held? ==> b.pending == None && LastExit(b) < b.pos.entryIndex < next)
    && LastExit(b) < next
    && InSequence(b.trades)
  }

  lemma {:induction false} ExitIsOrderly(p: Params, b: Book, r: Row, i: nat)
    requires Orderly(b, i)
    ensures var b' := ExitStep(p, b, r, i);
      Orderly(b', i + 1) && b'.pending == b.pending
      && (b'.pos.Held? ==> b'.pos.entryIndex < i && b'.trades == b.trades)
      && (b'.pending.Some? ==> LastExit(b') < i)
  {
    var b' := ExitStep(p, b, r, i);
    if b'.trades != b.trades {
      assert forall k :: 0 <= k < |b.trades| ==> b'.trades[k] == b.trades[k];
      var t := b'.trades[|b.trades|];
      assert LastExit(b) < t.entryIndex < t.exitIndex == i;
    }
  }

  lemma {:induction false} EntryIsOrderly(p: Params, b: Book, r: Row, i: nat)
    requires EntryPrice(p, Long, r.open) != 0.0 && EntryPrice(p, Short, r.open) != 0.0
    requires Orderly(b, i + 1) && (b.pending.Some? ==> LastExit(b) < i)
    ensures Orderly(EntryStep(p, b, r, i), i + 1)
  {
  }

  lemma {:induction false} BarIsOrderly(p: Params, b: Book, rows: seq<Row>, i: nat)
    requires i < |rows| && Priced(p, rows) && Orderly(b, i)
    ensures Orderly(BarStep(p, b, rows, i), i + 1)
  {
    ExitIsOrderly(p, b, rows[i], i);
    var b1 := ExitStep(p, b, rows[i], i);
    EntryIsOrderly(p, b1, rows[i], i);
  }

  /** A held position excludes a pending order; no trade exits on the bar it was
      entered; none opens on a bar that closed one. */
  lemma {:induction false} RunIsOrderly(p: Params, rows: seq<Row>, k: nat)
    requires k <= |rows| && Priced(p, rows)
    ensures Orderly(RunTo(p, rows, k), k)
  {
    hide BarStep;
    hide Orderly;
    if k == 0 {
      StartIsOrderly();
    } else {
      RunIsOrderly(p, rows, k - 1);
      BarIsOrderly(p, RunTo(p, rows, k - 1), rows, k - 1);
    }
  }

  lemma {:induction false} StartIsOrderly()
    ensures Orderly(START, 0)
  {
  }

  // ----- Equity -----

  function PnlSum(trades: seq<Trade>): real {
    if trades == [] then 0.0 else PnlSum(trades[..|trades| - 1]) + trades[|trades| - 1].pnl
  }

  lemma {:induction false} BarTradesAreExits(p: Params, b: Book, rows: seq<Row>, i: nat)
    requires i < |rows| && Priced(p, rows)
    ensures BarStep(p, b, rows, i).trades == ExitStep(p, b, rows[i], i).trades
    ensures BarStep(p, b, rows, i).equity == ExitStep(p, b, rows[i], i).equity
    ensures b.trades <= ExitStep(p, b, rows[i], i).trades
  {
  }

  lemma {:induction false} ExitAddsPnl(p: Params, b: Book, r: Row, i: nat)
    ensures ExitStep(p, b, r, i).equity - PnlSum(ExitStep(p, b, r, i).trades) == b.equity - PnlSum(b.trades)
  {
    var b' := ExitStep(p, b, r, i);
    if b'.trades != b.trades {
      assert b'.trades[..|b'.trades| - 1] == b.trades;
    }
  }

  /** Equity is the start plus the profit of the closed trades. */
  lemma {:induction false} EquityIsStartPlusPnl(p: Params, rows: seq<Row>, k: nat)
    requires k <= |rows| && Priced(p, rows)
    ensures RunTo(p, rows, k).equity == START_EQUITY + PnlSum(RunTo(p, rows, k).trades)
  {
    if k == 0 {
    } else {
      EquityIsStartPlusPnl(p, rows, k - 1);
      BarTradesAreExits(p, RunTo(p, rows, k - 1), rows, k - 1);
      ExitAddsPnl(p, RunTo(p, rows, k - 1), rows[k - 1], k - 1);
    }
  }

  /** What a long trade multiplies equity by. */
  function Factor(t: Trade, fee: real): real
    requires t.entry != 0.0
  {
    t.exit / t.entry * (1.0 - fee) - fee
  }

  /** A long trade at sensible prices that does not lose more than everything. */
  ghost predicate Solvent(t: Trade, fee: real) {
    t.side == Long && t.entry > 0.0 && t.exit >= 0.0 && Factor(t, fee) >= 0.0
  }

  ghost predicate AllSolvent(trades: seq<Trade>, fee: real) {
    forall k :: 0 <= k < |trades| ==> Solvent(trades[k], fee)
  }

  ghost function Growth(trades: seq<Trade>, fee: real): real
    requires AllSolvent(trades, fee)
  {
    if trades == [] then 1.0
    else
      var n := |trades| - 1;
      assert Solvent(trades[n], fee);
      Growth(trades[..n], fee) * Factor(trades[n], fee)
  }

  lemma {:induction false} DivNonNegative(a: real, b: real)
    requires a >= 0.0 && b > 0.0
    ensures a / b >= 0.0 && a / b * b == a
  {
  }

  lemma {:induction false} MulNonNegative(a: real, b: real)
    requires a >= 0.0 && b >= 0.0
    ensures a * b >= 0.0
  {
  }

  /** Fully invested, one long trade turns equity e into e times its factor. */
  lemma {:induction false} LongTradeScales(p: Params, pos: Position, equity: real, exit: real)
    requires pos.Held? && pos.side == Long && pos.entry > 0.0 && exit >= 0.0 && equity >= 0.0
    requires pos.qty == equity / pos.entry
    requires pos.entryFee == AbsReal(pos.qty * pos.entry) * Fee(p)
    ensures equity + PnlAt(p, pos, exit) == equity * (exit / pos.entry * (1.0 - Fee(p)) - Fee(p))
  {
    var q, f := pos.qty, Fee(p);
    DivNonNegative(equity, pos.entry);
    MulNonNegative(q, exit);
    assert q * exit == equity * (exit / pos.entry) by {
      assert equity / pos.entry * exit == equity * (exit / pos.entry);
    }
    var x := exit / pos.entry;
    assert PnlAt(p, pos, exit) == q * exit - equity - equity * f - q * exit * f;
    assert equity * (x * (1.0 - f) - f) == equity * x - equity * x * f - equity * f;
  }

  /** An open position was sized with the equity still on the books. */
  ghost predicate FullyInvested(p: Params, b: Book) {
    b.pos.Held? ==>
      && b.pos.entry != 0.0
      && b.pos.qty == b.equity / b.pos.entry
      && b.pos.entryFee == AbsReal(b.pos.qty * b.pos.entry) * Fee(p)
  }

  lemma {:induction false} ExitStaysInvested(p: Params, b: Book, r: Row, i: nat)
    requires FullyInvested(p, b)
    ensures FullyInvested(p, ExitStep(p, b, r, i))
  {
  }

  lemma {:induction false} EntryStaysInvested(p: Params, b: Book, r: Row, i: nat)
    requires EntryPrice(p, Long, r.open) != 0.0 && EntryPrice(p, Short, r.open) != 0.0
    requires FullyInvested(p, b)
    ensures FullyInvested(p, EntryStep(p, b, r, i))
  {
  }

  lemma {:induction false} BarStaysFullyInvested(p: Params, b: Book, rows: seq<Row>, i: nat)
    requires i < |rows| && Priced(p, rows) && FullyInvested(p, b)
    ensures FullyInvested(p, BarStep(p, b, rows, i))
  {
    hide ExitStep;
    hide EntryStep;
    ExitStaysInvested(p, b, rows[i], i);
    EntryStaysInvested(p, ExitStep(p, b, rows[i], i), rows[i], i);
  }

  lemma {:induction false} RunIsFullyInvested(p: Params, rows: seq<Row>, k: nat)
    requires k <= |rows| && Priced(p, rows)
    ensures FullyInvested(p, RunTo(p, rows, k))
  {
    if k == 0 {
    } else {
      hide BarStep;
      hide FullyInvested;
      RunIsFullyInvested(p, rows, k - 1);
      BarStaysFullyInvested(p, RunTo(p, rows, k - 1), rows, k - 1);
    }
  }

  lemma {:induction false} GrowthNotNegative(trades: seq<Trade>, fee: real)
    requires AllSolvent(trades, fee)
    ensures Growth(trades, fee) >= 0.0
  {
    if trades == [] {
    } else {
      var n := |trades| - 1;
      GrowthNotNegative(trades[..n], fee);
      assert Solvent(trades[n], fee);
      MulNonNegative(Growth(trades[..n], fee), Factor(trades[n], fee));
    }
  }

  lemma {:induction false} SolventPrefix(few: seq<Trade>, many: seq<Trade>, fee: real)
    requires few <= many && AllSolvent(many, fee)
    ensures AllSolvent(few, fee)
  {
    forall j | 0 <= j < |few|
      ensures Solvent(few[j], fee)
    {
      assert few[j] == many[j];
    }
  }

  /** What an exit adds to the book. */
  lemma {:induction false} ExitAddsTrade(p: Params, b: Book, r: Row, i: nat)
    requires FullyInvested(p, b)
    ensures var b' := ExitStep(p, b, r, i);
      || (b'.trades == b.trades && b'.equity == b.equity)
      || (b.pos.Held? && |b'.trades| == |b.trades| + 1 && b'.trades[..|b.trades|] == b.trades
          && var t, pos := b'.trades[|b.trades|], Water(b.pos, r);
            && t.side == pos.side && t.entry == pos.entry
            && pos.qty == b.equity / pos.entry && pos.entryFee == AbsReal(pos.qty * pos.entry) * Fee(p)
            && b'.equity == b.equity + PnlAt(p, pos, t.exit))
  {
  }

  lemma {:induction false} GrowthSnoc(trades: seq<Trade>, fee: real)
    requires trades != [] && AllSolvent(trades, fee) && AllSolvent(trades[..|trades| - 1], fee)
    ensures trades[|trades| - 1].entry != 0.0
    ensures Growth(trades, fee) == Growth(trades[..|trades| - 1], fee) * Factor(trades[|trades| - 1], fee)
  {
    assert Solvent(trades[|trades| - 1], fee);
  }

  lemma {:induction false} ExitCompounds(p: Params, b: Book, r: Row, i: nat)
    requires FullyInvested(p, b)
    requires AllSolvent(b.trades, Fee(p)) && b.equity == START_EQUITY * Growth(b.trades, Fee(p))
    requires AllSolvent(ExitStep(p, b, r, i).trades, Fee(p))
    ensures ExitStep(p, b, r, i).equity == START_EQUITY * Growth(ExitStep(p, b, r, i).trades, Fee(p))
  {
    hide ExitStep;
    hide Growth;
    hide PnlAt;
    hide FullyInvested;
    var b', fee := ExitStep(p, b, r, i), Fee(p);
    hide Fee;
    ExitAddsTrade(p, b, r, i);
    if b'.trades != b.trades {
      var t := b'.trades[|b.trades|];
      assert Solvent(t, fee);
      GrowthNotNegative(b.trades, fee);
      MulNonNegative(START_EQUITY, Growth(b.trades, fee));
      LongTradeScales(p, Water(b.pos, r), b.equity, t.exit);
      hide Water;
      GrowthSnoc(b'.trades, fee);
      Associates(START_EQUITY, Growth(b.trades, fee), Factor(t, fee));
    }
  }

  lemma {:induction false} Associates(a: real, b: real, c: real)
    ensures a * b * c == a * (b * c)
  {
  }

  /** If its trades are solvent, the book's equity is their compounded growth. */
  ghost predicate Compounds(p: Params, b: Book) {
    AllSolvent(b.trades, Fee(p)) ==> b.equity == START_EQUITY * Growth(b.trades, Fee(p))
  }

  lemma {:induction false} BarCompounds(p: Params, b: Book, rows: seq<Row>, i: nat)
    requires i < |rows| && Priced(p, rows) && FullyInvested(p, b) && Compounds(p, b)
    ensures Compounds(p, BarStep(p, b, rows, i))
  {
    var after := ExitStep(p, b, rows[i], i);
    BarTradesAreExits(p, b, rows, i);
    hide BarStep;
    hide ExitStep;
    hide Growth;
    hide AllSolvent;
    hide FullyInvested;
    if AllSolvent(after.trades, Fee(p)) {
      SolventPrefix(b.trades, after.trades, Fee(p));
      ExitCompounds(p, b, rows[i], i);
    }
  }

  lemma {:induction false} StartCompounds(p: Params)
    ensures Compounds(p, START)
  {
  }

  lemma {:induction false} RunCompounds(p: Params, rows: seq<Row>, k: nat)
    requires k <= |rows| && Priced(p, rows)
    ensures Compounds(p, RunTo(p, rows, k))
  {
    hide BarStep;
    hide Compounds;
    hide FullyInvested;
    if k == 0 {
      StartCompounds(p);
    } else {
      RunCompounds(p, rows, k - 1);
      RunIsFullyInvested(p, rows, k - 1);
      BarCompounds(p, RunTo(p, rows, k - 1), rows, k - 1);
    }
  }

  /** With long trades only, equity compounds: the start times the product of
      (exit / entry)(1 - f) - f over the trades, f being the fee per side. */
  lemma {:induction false} LongEquityCompounds(p: Params, rows: seq<Row>, k: nat)
    requires k <= |rows| && Priced(p, rows)
    requires AllSolvent(RunTo(p, rows, k).trades, Fee(p))
    ensures RunTo(p, rows, k).equity == START_EQUITY * Growth(RunTo(p, rows, k).trades, Fee(p))
  {
    RunCompounds(p, rows, k);
  }
}
