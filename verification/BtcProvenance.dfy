/** Where the trades of the BTC backtest come from: a breakout, the first bar
    ready to trade after it, and the first bar that stops or times the trade out. */
module BtcProvenance {
  import opened Common
  import opened BtcTrend

  /** The highest price of bars `e` to `y`, both included. */
  function HighOf(rows: seq<Row>, e: nat, y: nat): real
    requires e <= y < |rows|
    decreases y
  {
    if y == e then rows[e].high else MaxReal(HighOf(rows, e, y - 1), rows[y].high)
  }

  function LowOf(rows: seq<Row>, e: nat, y: nat): real
    requires e <= y < |rows|
    decreases y
  {
    if y == e then rows[e].low else MinReal(LowOf(rows, e, y - 1), rows[y].low)
  }

  /** The trailing level on bar `y` of a trade entered on bar `e`. */
  function Level(p: Params, side: Direction, rows: seq<Row>, e: nat, y: nat): Option<real>
    requires e <= y < |rows|
  {
    match rows[y].atr
    case None => None
    case Some(atr) =>
      Some(if side == Long then HighOf(rows, e, y) - p.trailAtr * atr else LowOf(rows, e, y) + p.trailAtr * atr)
  }

  predicate Touches(p: Params, side: Direction, rows: seq<Row>, e: nat, y: nat)
    requires e <= y < |rows|
  {
    var level := Level(p, side, rows, e, y);
    level.Some? && if side == Long then rows[y].low <= level.value else rows[y].high >= level.value
  }

  predicate Expires(p: Params, e: nat, y: nat) {
    p.maxBarsTrade > 0 && y - e >= p.maxBarsTrade
  }

  /** Volatility in its band, the four-hour trend and the daily average on one
      side, and a close beyond the channel. */
  predicate BreaksOut(p: Params, r: Row, side: Direction) {
    && r.atr.Some? && p.minAtrPct <= r.atrPct && r.atrPct <= p.maxAtrPct
    && r.trend.Some? && r.trend.value.h4Adx >= p.adxMin
    && var t := r.trend.value;
      if side == Long then
        t.h4Close > t.h4Fast && t.h4Fast > t.h4Slow && r.close > t.dailyEma && r.upper.Some? && r.close > r.upper.value
      else
        && p.allowShorts
        && t.h4Close < t.h4Fast && t.h4Fast < t.h4Slow && r.close < t.dailyEma && r.lower.Some? && r.close < r.lower.value
  }

  predicate Ready(r: Row) { r.atr.Some? && r.trend.Some? }

  /** A breakout before bar `k` that no bar in between was ready to trade. */
  ghost predicate Signalled(p: Params, side: Direction, rows: seq<Row>, k: nat)
    requires k <= |rows|
  {
    exists g :: 0 <= g < k && BreaksOut(p, rows[g], side) && NoneReady(rows, g, k)
  }

  ghost predicate NoneReady(rows: seq<Row>, g: int, k: nat)
    requires -1 <= g && k <= |rows|
  {
    forall y :: g < y < k ==> !Ready(rows[y])
  }

  /** No bar strictly between `e` and `x` ends the trade. */
  ghost predicate Undisturbed(p: Params, side: Direction, rows: seq<Row>, e: nat, x: nat)
    requires x <= |rows|
  {
    forall y :: e < y < x ==> !Touches(p, side, rows, e, y) && !Expires(p, e, y)
  }

  ghost predicate Entered(p: Params, side: Direction, entry: real, rows: seq<Row>, e: nat)
    requires e < |rows|
  {
    && Signalled(p, side, rows, e) && Ready(rows[e])
    && entry == (if side == Long then rows[e].open + p.slippage else rows[e].open - p.slippage)
  }

  /** The trade follows a breakout, and leaves on the first bar that touches the
      trailing level (at that level) or runs out of time (at the close), with
      slippage against it. */
  ghost predicate Explained(p: Params, t: Trade, rows: seq<Row>) {
    var e, x := t.entryIndex, t.exitIndex;
    && e < x < |rows|
    && Entered(p, t.side, t.entry, rows, e)
    && Undisturbed(p, t.side, rows, e, x)
    && (Touches(p, t.side, rows, e, x) || Expires(p, e, x))
    && var base := if Touches(p, t.side, rows, e, x) then Level(p, t.side, rows, e, x).value else rows[x].close;
      t.exit == (if t.side == Long then base - p.slippage else base + p.slippage)
  }

  /** A held position after bars `.. k`. */
  ghost predicate Carried(p: Params, pos: Position, rows: seq<Row>, k: nat) {
    pos.Held? ==>
      var e := pos.entryIndex;
      && e < k <= |rows|
      && Entered(p, pos.side, pos.entry, rows, e)
      && Undisturbed(p, pos.side, rows, e, k)
      && (if pos.side == Long then pos.highWater == HighOf(rows, e, k - 1) else pos.lowWater == LowOf(rows, e, k - 1))
  }

  ghost predicate AllExplained(p: Params, trades: seq<Trade>, rows: seq<Row>) {
    forall t :: t in trades ==> Explained(p, t, rows)
  }

  ghost predicate Waiting(p: Params, pending: Option<Direction>, rows: seq<Row>, k: nat)
    requires k <= |rows|
  {
    pending.Some? ==> Signalled(p, pending.value, rows, k)
  }

  lemma {:induction false} WaterIsExtreme(p: Params, pos: Position, rows: seq<Row>, k: nat)
    requires k < |rows| && pos.Held? && Carried(p, pos, rows, k)
    ensures var w := Water(pos, rows[k]);
      if pos.side == Long then w.highWater == HighOf(rows, pos.entryIndex, k) else w.lowWater == LowOf(rows, pos.entryIndex, k)
  {
    hide Entered;
    hide Undisturbed;
  }

  /** Stopping is touching the trailing level. */
  lemma {:induction false} StopIsLevel(p: Params, pos: Position, rows: seq<Row>, k: nat)
    requires k < |rows| && pos.Held? && Carried(p, pos, rows, k)
    ensures StopOf(p, Water(pos, rows[k]), rows[k]) == Level(p, pos.side, rows, pos.entryIndex, k)
  {
    WaterIsExtreme(p, pos, rows, k);
    hide Entered;
    hide Undisturbed;
    hide HighOf;
    hide LowOf;
  }

  lemma {:induction false} ExitExplains(p: Params, b: Book, rows: seq<Row>, k: nat)
    requires k < |rows| && Carried(p, b.pos, rows, k) && AllExplained(p, b.trades, rows)
    ensures var b' := ExitStep(p, b, rows[k], k);
      && Carried(p, b'.pos, rows, k + 1) && AllExplained(p, b'.trades, rows) && b'.pending == b.pending
  {
    if b.pos.Held? {
      StopIsLevel(p, b.pos, rows, k);
      WaterIsExtreme(p, b.pos, rows, k);
      hide HighOf;
      hide LowOf;
      hide Entered;
      var b', pos := ExitStep(p, b, rows[k], k), Water(b.pos, rows[k]);
      assert Stopped(p, pos, rows[k]) == Touches(p, pos.side, rows, pos.entryIndex, k);
      if b'.trades != b.trades {
        assert Explained(p, b'.trades[|b.trades|], rows);
      }
    }
  }

  lemma {:induction false} SignalledGrows(p: Params, side: Direction, rows: seq<Row>, k: nat)
    requires k < |rows| && Signalled(p, side, rows, k) && !Ready(rows[k])
    ensures Signalled(p, side, rows, k + 1)
  {
    var g :| 0 <= g < k && BreaksOut(p, rows[g], side) && NoneReady(rows, g, k);
    assert NoneReady(rows, g, k + 1);
  }

  /** A flat book with an order fills it on a ready bar and keeps it otherwise. */
  lemma {:induction false} EntryExplains(p: Params, b: Book, rows: seq<Row>, k: nat)
    requires k < |rows| && Priced(p, rows)
    requires Carried(p, b.pos, rows, k + 1) && Waiting(p, b.pending, rows, k)
    requires b.pos.Held? ==> b.pending == None
    ensures var b' := EntryStep(p, b, rows[k], k);
      Carried(p, b'.pos, rows, k + 1) && Waiting(p, b'.pending, rows, k + 1)
  {
    if b.pending.Some? && !Ready(rows[k]) {
      SignalledGrows(p, b.pending.value, rows, k);
    }
  }

  lemma {:induction false} SignalExplains(p: Params, b: Book, rows: seq<Row>, k: nat)
    requires k < |rows| && Waiting(p, b.pending, rows, k + 1)
    ensures Waiting(p, SignalStep(p, b, rows[k], k + 1 == |rows|).pending, rows, k + 1)
  {
    var side := SignalStep(p, b, rows[k], k + 1 == |rows|).pending;
    if side != b.pending {
      assert BreaksOut(p, rows[k], side.value) && NoneReady(rows, k, k + 1);
    }
  }

  ghost predicate Accounted(p: Params, b: Book, rows: seq<Row>, k: nat)
    requires k <= |rows|
  {
    Carried(p, b.pos, rows, k) && Waiting(p, b.pending, rows, k) && AllExplained(p, b.trades, rows)
  }

  lemma {:induction false} BarAccounts(p: Params, b: Book, rows: seq<Row>, k: nat)
    requires k < |rows| && Priced(p, rows) && Orderly(b, k) && Accounted(p, b, rows, k)
    ensures Accounted(p, BarStep(p, b, rows, k), rows, k + 1)
  {
    ExitIsOrderly(p, b, rows[k], k);
    ExitExplains(p, b, rows, k);
    hide Carried;
    hide Waiting;
    hide AllExplained;
    var b1 := ExitStep(p, b, rows[k], k);
    EntryExplains(p, b1, rows, k);
    SignalExplains(p, EntryStep(p, b1, rows[k], k), rows, k);
  }

  lemma {:induction false} RunAccounts(p: Params, rows: seq<Row>, k: nat)
    requires k <= |rows| && Priced(p, rows)
    ensures Accounted(p, RunTo(p, rows, k), rows, k)
  {
    if k == 0 {
    } else {
      RunAccounts(p, rows, k - 1);
      RunIsOrderly(p, rows, k - 1);
      BarAccounts(p, RunTo(p, rows, k - 1), rows, k - 1);
    }
  }

  /** Every trade follows a breakout, enters on the first bar ready to trade after
      it, and leaves on the first later bar that touches its trailing level or
      runs out of time. A position still held was entered alike, and no bar so far
      ends it. */
  lemma {:induction false} EveryTradeIsExplained(p: Params, rows: seq<Row>)
    requires Priced(p, rows)
    ensures AllExplained(p, RunTo(p, rows, |rows|).trades, rows)
    ensures Carried(p, RunTo(p, rows, |rows|).pos, rows, |rows|)
  {
    RunAccounts(p, rows, |rows|);
  }

  // ----- Every breakout is traded -----

  /** Does a trade, or the position at the end, span the end of bar `g`? */
  predicate HeldAfter(b: Book, g: nat) {
    || (exists t :: t in b.trades && t.entryIndex <= g < t.exitIndex)
    || (b.pos.Held? && b.pos.entryIndex <= g)
  }

  /** Was a trade, or the position at the end, entered on bar `e`? */
  predicate EnteredOn(b: Book, e: nat, side: Direction) {
    || (exists t :: t in b.trades && t.entryIndex == e && t.side == side)
    || (b.pos.Held? && b.pos.entryIndex == e && b.pos.side == side)
  }

  lemma {:induction false} ExitsAreBefore(trades: seq<Trade>, next: nat, t: Trade)
    requires InSequence(trades) && t in trades
    requires trades[|trades| - 1].exitIndex < next
    ensures t.entryIndex < t.exitIndex < next
  {
    var n := |trades| - 1;
    if t != trades[n] {
      assert trades[..n] + [trades[n]] == trades;
      assert trades[n - 1].exitIndex < trades[n].entryIndex < trades[n].exitIndex;
      ExitsAreBefore(trades[..n], next, t);
    }
  }

  /** One more bar changes neither what was held after `g` nor what was entered. */
  lemma {:induction false} BarKeepsPast(p: Params, b: Book, rows: seq<Row>, i: nat, g: nat, side: Direction)
    requires g < i < |rows| && Priced(p, rows)
    ensures var b' := BarStep(p, b, rows, i);
      (HeldAfter(b', g) <==> HeldAfter(b, g)) && (EnteredOn(b', g, side) <==> EnteredOn(b, g, side))
  {
    var b1 := ExitStep(p, b, rows[i], i);
    assert (HeldAfter(b1, g) <==> HeldAfter(b, g)) && (EnteredOn(b1, g, side) <==> EnteredOn(b, g, side)) by {
      if b1.trades != b.trades {
        var t := b1.trades[|b.trades|];
        assert b1.trades == b.trades + [t] && t.entryIndex == b.pos.entryIndex && t.exitIndex == i && t.side == b.pos.side;
      }
    }
    var b2 := EntryStep(p, b1, rows[i], i);
    assert b2.trades == b1.trades && (b2.pos == b1.pos || (b1.pos == Flat && b2.pos.entryIndex == i));
  }

  /** What a later book shows of bar `g` is what the book after it held. */
  lemma {:induction false} PastStands(p: Params, rows: seq<Row>, g: nat, side: Direction, m: nat)
    requires g < m <= |rows| && Priced(p, rows)
    ensures var b, after := RunTo(p, rows, m), RunTo(p, rows, g + 1);
      && (HeldAfter(b, g) <==> after.pos.Held?)
      && (EnteredOn(b, g, side) <==> after.pos.Held? && after.pos.entryIndex == g && after.pos.side == side)
  {
    hide BarStep;
    if m == g + 1 {
      var b := RunTo(p, rows, m);
      RunIsOrderly(p, rows, m);
      forall t | t in b.trades
        ensures t.entryIndex < t.exitIndex <= g
      {
        ExitsAreBefore(b.trades, m, t);
      }
    } else {
      hide HeldAfter;
      hide EnteredOn;
      PastStands(p, rows, g, side, m - 1);
      BarKeepsPast(p, RunTo(p, rows, m - 1), rows, m - 1, g, side);
    }
  }

  /** While no bar is ready, nothing is entered and no order is placed. */
  lemma {:induction false} UnreadyBarIsIdle(p: Params, b: Book, rows: seq<Row>, i: nat)
    requires i < |rows| && Priced(p, rows) && !Ready(rows[i])
    ensures var b' := BarStep(p, b, rows, i);
      b'.pending == b.pending && (b.pos == Flat ==> b'.pos == Flat)
  {
  }

  lemma {:induction false} OrderWaits(p: Params, rows: seq<Row>, g: nat, k: nat)
    requires g < k <= |rows| && Priced(p, rows) && NoneReady(rows, g, k)
    ensures var b, after := RunTo(p, rows, k), RunTo(p, rows, g + 1);
      b.pending == after.pending && (after.pos == Flat ==> b.pos == Flat)
  {
    if k > g + 1 {
      hide BarStep;
      OrderWaits(p, rows, g, k - 1);
      UnreadyBarIsIdle(p, RunTo(p, rows, k - 1), rows, k - 1);
    }
  }

  /** A flat book enters what is ordered, on a ready bar. */
  lemma {:induction false} BarEntersOrder(p: Params, b: Book, rows: seq<Row>, i: nat, side: Direction)
    requires i < |rows| && Priced(p, rows) && Orderly(b, i)
    ensures var b' := BarStep(p, b, rows, i);
      (b'.pos.Held? && b'.pos.entryIndex == i && b'.pos.side == side) <==>
        b.pos == Flat && b.pending == Some(side) && Ready(rows[i])
  {
  }

  /** A breakout on a flat bar, the last apart, places its order. */
  lemma {:induction false} BreakoutOrders(p: Params, b: Book, rows: seq<Row>, i: nat, side: Direction)
    requires i + 1 < |rows| && Priced(p, rows) && BreaksOut(p, rows[i], side)
    ensures var b' := BarStep(p, b, rows, i);
      b'.pos == Flat ==> b'.pending == Some(side)
  {
    hide ExitStep;
    hide EntryStep;
  }

  /** Bar `g` breaks out while nothing is held, and `e` is the first bar ready to
      trade after it. */
  ghost predicate Calls(p: Params, rows: seq<Row>, b: Book, g: nat, e: nat, side: Direction) {
    && g < e < |rows|
    && BreaksOut(p, rows[g], side) && !HeldAfter(b, g)
    && NoneReady(rows, g, e) && Ready(rows[e])
  }

  /** Every breakout on a flat bar is traded, on the first ready bar after it. */
  lemma {:induction false} EveryBreakoutIsTraded(p: Params, rows: seq<Row>, g: nat, e: nat, side: Direction)
    requires Priced(p, rows)
    requires Calls(p, rows, RunTo(p, rows, |rows|), g, e, side)
    ensures EnteredOn(RunTo(p, rows, |rows|), e, side)
  {
    hide BarStep;
    hide BreaksOut;
    hide HeldAfter;
    hide EnteredOn;
    PastStands(p, rows, g, side, |rows|);
    BreakoutOrders(p, RunTo(p, rows, g), rows, g, side);
    OrderWaits(p, rows, g, e);
    RunIsOrderly(p, rows, e);
    BarEntersOrder(p, RunTo(p, rows, e), rows, e, side);
    PastStands(p, rows, e, side, |rows|);
  }

  /** An order waiting while nothing is held comes from a flat bar. */
  lemma {:induction false} OrderIsFromFlatBar(p: Params, rows: seq<Row>, g: nat, e: nat)
    requires g < e <= |rows| && Priced(p, rows) && NoneReady(rows, g, e)
    requires RunTo(p, rows, e).pending.Some?
    ensures !HeldAfter(RunTo(p, rows, |rows|), g)
  {
    hide BarStep;
    hide HeldAfter;
    hide EnteredOn;
    hide InSequence;
    OrderWaits(p, rows, g, e);
    RunIsOrderly(p, rows, g + 1);
    PastStands(p, rows, g, Long, |rows|);
  }

  /** What a bar enters was called for. */
  lemma {:induction false} EntryIsCalled(p: Params, rows: seq<Row>, e: nat, side: Direction) returns (g: nat)
    requires e < |rows| && Priced(p, rows) && EnteredOn(RunTo(p, rows, |rows|), e, side)
    ensures Calls(p, rows, RunTo(p, rows, |rows|), g, e, side)
  {
    hide RunTo;
    hide BarStep;
    hide BreaksOut;
    hide HeldAfter;
    hide EnteredOn;
    hide Carried;
    hide AllExplained;
    PastStands(p, rows, e, side, |rows|);
    RunIsOrderly(p, rows, e);
    UnfoldRun(p, rows, e);
    BarEntersOrder(p, RunTo(p, rows, e), rows, e, side);
    RunAccounts(p, rows, e);
    g :| 0 <= g < e && BreaksOut(p, rows[g], side) && NoneReady(rows, g, e);
    OrderIsFromFlatBar(p, rows, g, e);
  }

  lemma {:induction false} UnfoldRun(p: Params, rows: seq<Row>, i: nat)
    requires i < |rows| && Priced(p, rows)
    ensures RunTo(p, rows, i + 1) == BarStep(p, RunTo(p, rows, i), rows, i)
  {
  }

  /** Bar `e` opens a position exactly when it is the first ready bar after a
      breakout on a flat bar. */
  lemma {:induction false} EntersExactlyWhen(p: Params, rows: seq<Row>, e: nat, side: Direction)
    requires e < |rows| && Priced(p, rows)
    ensures var b := RunTo(p, rows, |rows|);
      EnteredOn(b, e, side) <==> exists g :: Calls(p, rows, b, g, e, side)
  {
    hide RunTo;
    hide Calls;
    hide EnteredOn;
    if EnteredOn(RunTo(p, rows, |rows|), e, side) {
      var g := EntryIsCalled(p, rows, e, side);
    }
    if g :| Calls(p, rows, RunTo(p, rows, |rows|), g, e, side) {
      EveryBreakoutIsTraded(p, rows, g, e, side);
    }
  }

  // ----- What a trade earns -----

  /** All equity at the time goes into trade `n`: its profit is the price move on
      that quantity, less the fee on both amounts. */
  ghost predicate EarnsItsMove(p: Params, trades: seq<Trade>, n: nat)
    requires n < |trades|
  {
    var t := trades[n];
    && t.entry != 0.0
    && var qty := (START_EQUITY + PnlSum(trades[..n])) / t.entry;
      var move := if t.side == Long then t.exit - t.entry else t.entry - t.exit;
      t.pnl == qty * move - (AbsReal(qty * t.entry) + AbsReal(qty * t.exit)) * (p.feeBpsSide / 10000.0)
  }

  lemma {:induction false} ExitEarnsItsMove(p: Params, b: Book, r: Row, i: nat)
    requires FullyInvested(p, b) && b.equity == START_EQUITY + PnlSum(b.trades)
    ensures var b' := ExitStep(p, b, r, i);
      b'.trades != b.trades ==> |b'.trades| == |b.trades| + 1 && EarnsItsMove(p, b'.trades, |b.trades|)
  {
    hide PnlSum;
    hide ExitPrice;
    hide Stopped;
    hide TimedOut;
    var b' := ExitStep(p, b, r, i);
    if b'.trades != b.trades {
      assert b'.trades[..|b.trades|] == b.trades;
      var t, qty := b'.trades[|b.trades|], b.pos.qty;
      Distributes(AbsReal(qty * t.entry), AbsReal(qty * t.exit), Fee(p));
    }
  }

  lemma {:induction false} Distributes(x: real, y: real, f: real)
    ensures (x + y) * f == x * f + y * f
  {
  }

  lemma {:induction false} RunEarns(p: Params, rows: seq<Row>, k: nat, n: nat)
    requires k <= |rows| && Priced(p, rows) && n < |RunTo(p, rows, k).trades|
    ensures EarnsItsMove(p, RunTo(p, rows, k).trades, n)
  {
    hide BarStep;
    hide ExitStep;
    hide EarnsItsMove;
    hide FullyInvested;
    hide PnlSum;
    if k > 0 {
      var b, b' := RunTo(p, rows, k - 1), RunTo(p, rows, k);
      UnfoldRun(p, rows, k - 1);
      BarTradesAreExits(p, b, rows, k - 1);
      RunIsFullyInvested(p, rows, k - 1);
      EquityIsStartPlusPnl(p, rows, k - 1);
      ExitEarnsItsMove(p, b, rows[k - 1], k - 1);
      if n < |b.trades| {
        RunEarns(p, rows, k - 1, n);
        SamePrefix(p, b.trades, b'.trades, n);
      }
    }
  }

  lemma {:induction false} SamePrefix(p: Params, few: seq<Trade>, many: seq<Trade>, n: nat)
    requires few <= many && n < |few| && EarnsItsMove(p, few, n)
    ensures EarnsItsMove(p, many, n)
  {
    assert few[..n] == many[..n];
  }

  /** Every trade puts the whole equity in: what its pnl is, fees included. */
  lemma {:induction false} PnlIsExact(p: Params, rows: seq<Row>, n: nat)
    requires Priced(p, rows) && n < |RunTo(p, rows, |rows|).trades|
    ensures EarnsItsMove(p, RunTo(p, rows, |rows|).trades, n)
  {
    RunEarns(p, rows, |rows|, n);
  }
}
