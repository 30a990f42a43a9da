/** FIFO pairing of broker fills into round-trip trades
    (scripts/ops/backfill_performance_from_fills.py, `pair_fills_to_trades`).

    Prices are whole ticks of 0.25 points; at 2 dollars a point one tick is 50
    cents a contract, so profit and loss is a whole number of cents and the
    source's rounding to two places changes nothing. */
module Fifo {
  import opened Common
  import opened StableSort

  const CENTS_PER_TICK := 50

  datatype Side = Buy | Sell

  /** One row of the fills file. `None` stands for an action other than buy or
      sell, and for a price or quantity that cannot be read as a number. */
  datatype Fill = Fill(time: int, id: string, action: Option<Side>, price: Option<int>, qty: Option<int>)

  /** Contracts bought or sold by one fill and still waiting for a partner.
      `src` is the position of that fill in time order. */
  datatype Lot = Lot(side: Side, price: int, qty: int, time: int, id: string, src: nat)

  type OpenLot = l: Lot | l.qty > 0 witness Lot(Buy, 0, 1, 0, "", 0)

  datatype ExitReason = TakeProfit | StopLoss

  datatype Trade = Trade(
    signalId: string, direction: Direction, size: int,
    entryTime: int, entryPrice: int, exitTime: int, exitPrice: int,
    pnlCents: int, isWin: bool, exitReason: ExitReason,
    entrySrc: nat, exitSrc: nat)

  datatype Book = Book(lots: seq<OpenLot>, trades: seq<Trade>)

  predicate Readable(f: Fill) {
    f.action.Some? && f.price.Some? && f.qty.Some? && f.qty.value > 0
  }

  function AsLot(f: Fill, src: nat): OpenLot
    requires Readable(f)
  {
    Lot(f.action.value, f.price.value, f.qty.value, f.time, f.id, src)
  }

  /** The readable fills of a time-ordered list. */
  function Orders(sorted: seq<Fill>): seq<OpenLot> {
    if sorted == [] then []
    else
      var n := |sorted| - 1;
      Orders(sorted[..n]) + if Readable(sorted[n]) then [AsLot(sorted[n], n)] else []
  }

  function TimeOf(f: Fill): int { f.time }

  function InTimeOrder(fills: seq<Fill>): seq<Fill> {
    SortBy(fills, TimeOf)
  }

  /** The trade that closes `m` contracts of `lot` against the fill `inc`. */
  function Close(lot: Lot, inc: Lot, m: int): Trade {
    var direction := if lot.side == Buy then Long else Short;
    var ticks := if direction == Long then inc.price - lot.price else lot.price - inc.price;
    var pnl := ticks * m * CENTS_PER_TICK;
    Trade("tv_" + lot.id + "_" + inc.id, direction, m, lot.time, lot.price, inc.time, inc.price,
          pnl, pnl > 0, if pnl > 0 then TakeProfit else StopLoss, lot.src, inc.src)
  }

  /** Lots left after `m` contracts of the first one are closed. */
  function Reduce(lots: seq<OpenLot>, m: int): seq<OpenLot>
    requires lots != [] && 0 < m <= lots[0].qty
  {
    if lots[0].qty == m then lots[1..] else [lots[0].(qty := lots[0].qty - m)] + lots[1..]
  }

  datatype Matched = Matched(closed: seq<Trade>, lots: seq<OpenLot>, left: int)

  /** Matches the fill against the oldest lots until one side runs out. */
  function Match(lots: seq<OpenLot>, inc: Lot): Matched
    decreases inc.qty
  {
    if inc.qty <= 0 || lots == [] then Matched([], lots, inc.qty)
    else
      var m := Min(inc.qty, lots[0].qty);
      var next := Match(Reduce(lots, m), inc.(qty := inc.qty - m));
      next.(closed := [Close(lots[0], inc, m)] + next.closed)
  }

  /** The book after matching: what is left of the fill opens a lot of its own. */
  function Settle(trades: seq<Trade>, inc: OpenLot, r: Matched): Book {
    Book(r.lots + if r.left > 0 then [inc.(qty := r.left)] else [], trades + r.closed)
  }

  function Apply(b: Book, inc: OpenLot): Book {
    if b.lots == [] || b.lots[0].side == inc.side then Book(b.lots + [inc], b.trades)
    else Settle(b.trades, inc, Match(b.lots, inc))
  }

  function Run(orders: seq<OpenLot>): Book {
    if orders == [] then Book([], [])
    else Apply(Run(orders[..|orders| - 1]), orders[|orders| - 1])
  }

  lemma {:induction false} RunSnoc(orders: seq<OpenLot>, x: OpenLot)
    ensures Run(orders + [x]) == Apply(Run(orders), x)
  {
    assert (orders + [x])[..|orders + [x]| - 1] == orders;
  }

  lemma {:induction false} RunStep(sorted: seq<Fill>, k: nat)
    requires k < |sorted|
    ensures Run(Orders(sorted[..k + 1])) ==
            if Readable(sorted[k]) then Apply(Run(Orders(sorted[..k])), AsLot(sorted[k], k))
            else Run(Orders(sorted[..k]))
  {
    assert sorted[..k + 1][..k] == sorted[..k];
    if Readable(sorted[k]) {
      assert Orders(sorted[..k + 1]) == Orders(sorted[..k]) + [AsLot(sorted[k], k)];
      RunSnoc(Orders(sorted[..k]), AsLot(sorted[k], k));
    } else {
      assert Orders(sorted[..k + 1]) == Orders(sorted[..k]);
    }
  }

  lemma {:induction false} MatchStep(lots: seq<OpenLot>, inc: Lot, left: int)
    requires left > 0 && lots != []
    ensures var m := Min(left, lots[0].qty);
      var next := Match(Reduce(lots, m), inc.(qty := left - m));
      Match(lots, inc.(qty := left)) == next.(closed := [Close(lots[0], inc, m)] + next.closed)
  {
    assert inc.(qty := left).(qty := left - Min(left, lots[0].qty)) == inc.(qty := left - Min(left, lots[0].qty));
  }

  lemma {:induction false} MatchEnds(lots: seq<OpenLot>, inc: Lot)
    requires inc.qty <= 0 || lots == []
    ensures Match(lots, inc) == Matched([], lots, inc.qty)
  {
  }

  lemma {:induction false} MatchGoesOn(lots: seq<OpenLot>, inc: Lot)
    requires inc.qty > 0 && lots != []
    ensures var m := Min(inc.qty, lots[0].qty);
      var next := Match(Reduce(lots, m), inc.(qty := inc.qty - m));
      Match(lots, inc) == next.(closed := [Close(lots[0], inc, m)] + next.closed)
  {
  }

  lemma {:induction false} OrdersSnoc(sorted: seq<Fill>, f: Fill)
    requires Readable(f)
    ensures Orders(sorted + [f]) == Orders(sorted) + [AsLot(f, |sorted|)]
  {
    assert (sorted + [f])[..|sorted|] == sorted;
  }

  /** On a flat book, a lot and its equal on the other side make one trade. */
  lemma {:induction false} RoundTrip(orders: seq<OpenLot>, entry: OpenLot, exit: OpenLot)
    requires Run(orders).lots == [] && entry.side != exit.side && entry.qty == exit.qty
    ensures Run(orders + [entry, exit]) == Book([], Run(orders).trades + [Close(entry, exit, exit.qty)])
  {
    var b := Run(orders);
    RunSnoc(orders, entry);
    RunSnoc(orders + [entry], exit);
    assert orders + [entry] + [exit] == orders + [entry, exit];
    assert Apply(b, entry) == Book([entry], b.trades);
    assert Reduce([entry], exit.qty) == [];
    var nothing: seq<Trade> := [];
    var spent: Lot := exit.(qty := 0);
    assert Match([], spent) == Matched(nothing, [], 0);
    assert Match([entry], exit) == Matched([Close(entry, exit, exit.qty)] + nothing, [], 0);
  }

  /** The inner loop of the pairing: close against the oldest lots while both
      the fill and the queue last. */
  method MatchLots(open: seq<OpenLot>, inc: OpenLot) returns (closed: seq<Trade>, lots: seq<OpenLot>, remaining: int)
    ensures Matched(closed, lots, remaining) == Match(open, inc)
  {
    hide Match;
    hide Close;
    closed, lots, remaining := [], open, inc.qty;
    ghost var whole := Match(open, inc);
    while remaining > 0 && lots != []
      invariant var next := Match(lots, inc.(qty := remaining));
        && whole.closed == closed + next.closed
        && whole.lots == next.lots && whole.left == next.left
      decreases remaining
    {
      var m := Min(remaining, lots[0].qty);
      var t := Close(lots[0], inc, m);
      MatchStep(lots, inc, remaining);
      ghost var rest := Match(Reduce(lots, m), inc.(qty := remaining - m)).closed;
      assert closed + ([t] + rest) == (closed + [t]) + rest;
      closed := closed + [t];
      lots := Reduce(lots, m);
      remaining := remaining - m;
    }
    MatchEnds(lots, inc.(qty := remaining));
    assert closed + [] == closed;
  }

  /** The pairing loop. It produces the trades of the value-level run above,
      about which the theorems are stated. */
  method PairFills(fills: seq<Fill>) returns (trades: seq<Trade>)
    ensures trades == Run(Orders(InTimeOrder(fills))).trades
  {
    trades := [];
    var lots: seq<OpenLot> := [];
    var sorted := InTimeOrder(fills);
    for k := 0 to |sorted|
      invariant Run(Orders(sorted[..k])) == Book(lots, trades)
    {
      RunStep(sorted, k);
      if !Readable(sorted[k]) {
        continue;
      }
      var inc := AsLot(sorted[k], k);
      if lots == [] || lots[0].side == inc.side {
        lots := lots + [inc];
        continue;
      }
      var closed, rest, remaining := MatchLots(lots, inc);
      trades := trades + closed;
      lots := rest;
      if remaining > 0 {
        lots := lots + [inc.(qty := remaining)];
      }
    }
    assert sorted[..|sorted|] == sorted;
  }
}
