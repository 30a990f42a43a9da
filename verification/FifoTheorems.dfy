/** What FIFO pairing is for: it is the lot-level form of a queue of single
    contracts, and its books balance. */
module FifoTheorems {
  import opened Common
  import opened StableSort
  import opened Fifo

  // ----- The reference: a queue of single contracts -----

  datatype Contract = Contract(src: nat, side: Side)

  /** One contract of the fill at `exit` closes one contract of the fill at `entry`. */
  datatype Pairing = Pairing(entry: nat, exit: nat)

  datatype Queue = Queue(waiting: seq<Contract>, pairings: seq<Pairing>)

  /** A contract closes the oldest waiting contract of the other side, or waits. */
  function Arrive(q: Queue, c: Contract): Queue {
    if q.waiting == [] || q.waiting[0].side == c.side then
      Queue(q.waiting + [c], q.pairings)
    else
      Queue(q.waiting[1..], q.pairings + [Pairing(q.waiting[0].src, c.src)])
  }

  function ArriveAll(q: Queue, cs: seq<Contract>): Queue
    decreases |cs|
  {
    if cs == [] then q else ArriveAll(Arrive(q, cs[0]), cs[1..])
  }

  function Contracts(lots: seq<OpenLot>): seq<Contract> {
    if lots == [] then []
    else Repeat(Contract(lots[0].src, lots[0].side), lots[0].qty) + Contracts(lots[1..])
  }

  predicate Sized(trades: seq<Trade>) {
    forall t :: t in trades ==> t.size > 0
  }

  function Pairings(trades: seq<Trade>): seq<Pairing>
    requires Sized(trades)
  {
    if trades == [] then []
    else Repeat(Pairing(trades[0].entrySrc, trades[0].exitSrc), trades[0].size) + Pairings(trades[1..])
  }

  /** A maximal run of equal pairings. */
  datatype Group = Group(pairing: Pairing, count: nat)

  function Groups(ps: seq<Pairing>): seq<Group> {
    if ps == [] then []
    else
      var g := Groups(ps[1..]);
      if g != [] && g[0].pairing == ps[0] then [Group(ps[0], g[0].count + 1)] + g[1..]
      else [Group(ps[0], 1)] + g
  }

  function AsGroup(t: Trade): Group {
    Group(Pairing(t.entrySrc, t.exitSrc), if t.size < 0 then 0 else t.size)
  }

  // ----- Shape of the open book -----

  /** All lots on one side, oldest first, all from fills before `next`. */
  ghost predicate Shape(lots: seq<OpenLot>, next: int) {
    && (forall i :: 0 <= i < |lots| ==> lots[i].side == lots[0].side && lots[i].src < next)
    && (forall i, j :: 0 <= i < j < |lots| ==> lots[i].src < lots[j].src)
  }

  ghost predicate Ascending(orders: seq<OpenLot>) {
    forall i, j :: 0 <= i < j < |orders| ==> orders[i].src < orders[j].src
  }

  /** Trades of one fill: they exit at it and enter at ever later lots. */
  ghost predicate OneExit(ts: seq<Trade>, exit: nat) {
    && Sized(ts)
    && (forall i :: 0 <= i < |ts| ==> ts[i].exitSrc == exit)
    && (forall i, j :: 0 <= i < j < |ts| ==> ts[i].entrySrc < ts[j].entrySrc)
  }

  ghost predicate AdjacentDiffer(ts: seq<Trade>) {
    forall i :: 0 < i < |ts| ==>
      ts[i - 1].entrySrc != ts[i].entrySrc || ts[i - 1].exitSrc != ts[i].exitSrc
  }

  lemma {:induction false} ReduceShape(lots: seq<OpenLot>, m: int, next: int)
    requires Shape(lots, next) && lots != [] && 0 < m <= lots[0].qty
    ensures Shape(Reduce(lots, m), next)
    ensures Reduce(lots, m) != [] ==> Reduce(lots, m)[0].side == lots[0].side
  {
  }

  /** One-sided lots stay so, and the fill is used up before the lots are. */
  ghost predicate LotsAfter(lots: seq<OpenLot>, inc: Lot, next: int, r: Matched) {
    && Shape(r.lots, next)
    && (r.lots != [] ==> lots != [] && r.lots[0].side == lots[0].side)
    && (r.left > 0 ==> r.lots == []) && (inc.qty >= 0 ==> 0 <= r.left <= inc.qty)
  }

  lemma {:induction false} NoLotsChange(lots: seq<OpenLot>, inc: Lot, next: int)
    requires Shape(lots, next) && (inc.qty <= 0 || lots == [])
    ensures LotsAfter(lots, inc, next, Matched([], lots, inc.qty))
  {
  }

  lemma {:induction false} LotsAfterStep(lots: seq<OpenLot>, inc: Lot, m: int, next: int, r: Matched, closed: seq<Trade>)
    requires Shape(lots, next) && lots != [] && 0 < m <= lots[0].qty && m <= inc.qty
    requires LotsAfter(Reduce(lots, m), inc.(qty := inc.qty - m), next, r)
    ensures LotsAfter(lots, inc, next, r.(closed := closed))
  {
    ReduceShape(lots, m, next);
  }

  lemma {:induction false} MatchLotsShape(lots: seq<OpenLot>, inc: Lot, next: int)
    requires Shape(lots, next)
    ensures LotsAfter(lots, inc, next, Match(lots, inc))
    decreases inc.qty
  {
    hide Match;
    hide Shape;
    hide LotsAfter;
    if inc.qty <= 0 || lots == [] {
      MatchEnds(lots, inc);
      NoLotsChange(lots, inc, next);
    } else {
      var m := Min(inc.qty, lots[0].qty);
      var inc' := inc.(qty := inc.qty - m);
      ReduceShape(lots, m, next);
      MatchLotsShape(Reduce(lots, m), inc', next);
      MatchGoesOn(lots, inc);
      LotsAfterStep(lots, inc, m, next, Match(Reduce(lots, m), inc'), Match(lots, inc).closed);
    }
  }

  lemma {:induction false} OneExitCons(t: Trade, ts: seq<Trade>, exit: nat)
    requires OneExit(ts, exit) && t.size > 0 && t.exitSrc == exit
    requires forall i :: 0 <= i < |ts| ==> t.entrySrc < ts[i].entrySrc
    ensures OneExit([t] + ts, exit)
  {
  }

  /** Trades of one fill that enter at these lots, or at lots of later fills. */
  ghost predicate EnterFrom(ts: seq<Trade>, lots: seq<OpenLot>, exit: nat) {
    OneExit(ts, exit) && forall i :: 0 <= i < |ts| ==> lots != [] && lots[0].src <= ts[i].entrySrc
  }

  lemma {:induction false} EnterFromHead(lots: seq<OpenLot>, inc: Lot, m: int, next: int, ts: seq<Trade>)
    requires Shape(lots, next) && lots != [] && 0 < m <= lots[0].qty
    requires EnterFrom(ts, Reduce(lots, m), inc.src) && (m < lots[0].qty ==> ts == [])
    ensures EnterFrom([Close(lots[0], inc, m)] + ts, lots, inc.src)
  {
    if ts != [] {
      var rest := Reduce(lots, m);
      assert ts[0].entrySrc >= 0 ==> rest != [];
      assert lots[0].src < rest[0].src;
    }
    OneExitCons(Close(lots[0], inc, m), ts, inc.src);
  }

  lemma {:induction false} NoneEnter(lots: seq<OpenLot>, exit: nat)
    ensures EnterFrom([], lots, exit)
  {
  }

  lemma {:induction false} MatchTradesShape(lots: seq<OpenLot>, inc: Lot, next: int)
    requires Shape(lots, next)
    ensures EnterFrom(Match(lots, inc).closed, lots, inc.src)
    decreases inc.qty
  {
    hide Shape;
    hide EnterFrom;
    if inc.qty <= 0 || lots == [] {
      NoneEnter(lots, inc.src);
    } else {
      var m := Min(inc.qty, lots[0].qty);
      ReduceShape(lots, m, next);
      MatchTradesShape(Reduce(lots, m), inc.(qty := inc.qty - m), next);
      EnterFromHead(lots, inc, m, next, Match(Reduce(lots, m), inc.(qty := inc.qty - m)).closed);
    }
  }

  lemma {:induction false} OrdersAscend(sorted: seq<Fill>)
    ensures Ascending(Orders(sorted))
    ensures forall o :: o in Orders(sorted) ==> o.src < |sorted|
  {
    if sorted == [] {
    } else {
      OrdersAscend(sorted[..|sorted| - 1]);
      var os := Orders(sorted[..|sorted| - 1]);
      assert forall i :: 0 <= i < |os| ==> os[i] in os;
    }
  }

  ghost predicate BookShape(b: Book, next: int) {
    && Shape(b.lots, next)
    && Sized(b.trades) && AdjacentDiffer(b.trades)
    && (forall t :: t in b.trades ==> t.exitSrc < next)
  }

  lemma {:induction false} ApplyShape(b: Book, inc: OpenLot, next: int)
    requires BookShape(b, next) && next <= inc.src
    ensures BookShape(Apply(b, inc), inc.src + 1)
  {
    if b.lots == [] || b.lots[0].side == inc.side {
    } else {
      MatchLotsShape(b.lots, inc, next);
      MatchTradesShape(b.lots, inc, next);
      var all := b.trades + Match(b.lots, inc).closed;
      forall i | 0 < i < |all|
        ensures all[i - 1].entrySrc != all[i].entrySrc || all[i - 1].exitSrc != all[i].exitSrc
      {
        if i == |b.trades| {
          assert all[i - 1] in b.trades;
        }
      }
    }
  }

  /** Open lots are always one-sided, of positive quantity and oldest first;
      trades have positive size and no two neighbours share both fills. */
  lemma {:induction false} RunShape(orders: seq<OpenLot>)
    requires Ascending(orders)
    ensures BookShape(Run(orders), if orders == [] then 0 else orders[|orders| - 1].src + 1)
    ensures forall l :: l in Run(orders).lots ==> l.qty > 0
  {
    if orders == [] {
    } else {
      var n := |orders| - 1;
      RunShape(orders[..n]);
      ApplyShape(Run(orders[..n]), orders[n], if n == 0 then 0 else orders[n - 1].src + 1);
    }
  }

  // ----- Refinement -----

  lemma {:induction false} ArriveConcat(q: Queue, a: seq<Contract>, b: seq<Contract>)
    ensures ArriveAll(q, a + b) == ArriveAll(ArriveAll(q, a), b)
    decreases |a|
  {
    if a == [] {
      assert a + b == b;
    } else {
      assert (a + b)[0] == a[0] && (a + b)[1..] == a[1..] + b;
      ArriveConcat(Arrive(q, a[0]), a[1..], b);
    }
  }

  lemma {:induction false} RepeatSnoc<T>(x: T, n: nat)
    ensures Repeat(x, n) + [x] == [x] + Repeat(x, n) == Repeat(x, n + 1)
  {
    if n > 0 {
      RepeatSnoc(x, n - 1);
      assert Repeat(x, n) + [x] == [x] + (Repeat(x, n - 1) + [x]);
    }
  }

  lemma {:induction false} RepeatSplit<T>(x: T, m: nat, n: nat)
    ensures Repeat(x, m + n) == Repeat(x, m) + Repeat(x, n)
  {
    if m > 0 {
      RepeatSplit(x, m - 1, n);
    } else {
      assert [] + Repeat(x, n) == Repeat(x, n);
    }
  }

  /** Contracts of one fill join a queue of their own side. */
  lemma {:induction false} ArriveSameSide(q: Queue, c: Contract, n: nat)
    requires q.waiting == [] || q.waiting[0].side == c.side
    ensures ArriveAll(q, Repeat(c, n)) == Queue(q.waiting + Repeat(c, n), q.pairings)
    decreases n
  {
    if n == 0 {
      assert q.waiting + [] == q.waiting;
    } else {
      ArriveSameSide(Arrive(q, c), c, n - 1);
      assert q.waiting + [c] + Repeat(c, n - 1) == q.waiting + Repeat(c, n);
    }
  }

  /** Contracts of one fill close contracts of one lot. */
  lemma {:induction false} ArriveOtherSide(q: Queue, w: Contract, c: Contract, n: nat, rest: seq<Contract>)
    requires w.side != c.side
    requires q.waiting == Repeat(w, n) + rest
    ensures ArriveAll(q, Repeat(c, n)) == Queue(rest, q.pairings + Repeat(Pairing(w.src, c.src), n))
    decreases n
  {
    var p := Pairing(w.src, c.src);
    if n == 0 {
      assert q.pairings + [] == q.pairings;
      assert q.waiting == rest;
    } else {
      var q' := Arrive(q, c);
      assert q.waiting[0] == w && q'.waiting == Repeat(w, n - 1) + rest;
      ArriveOtherSide(q', w, c, n - 1, rest);
      assert q.pairings + [p] + Repeat(p, n - 1) == q.pairings + Repeat(p, n);
    }
  }

  lemma {:induction false} ContractsConcat(a: seq<OpenLot>, b: seq<OpenLot>)
    ensures Contracts(a + b) == Contracts(a) + Contracts(b)
  {
    if a == [] {
      assert a + b == b;
    } else {
      assert (a + b)[0] == a[0] && (a + b)[1..] == a[1..] + b;
      ContractsConcat(a[1..], b);
    }
  }

  lemma {:induction false} PairingsConcat(a: seq<Trade>, b: seq<Trade>)
    requires Sized(a) && Sized(b)
    ensures Sized(a + b) && Pairings(a + b) == Pairings(a) + Pairings(b)
  {
    if a == [] {
      assert a + b == b;
    } else {
      assert (a + b)[0] == a[0] && (a + b)[1..] == a[1..] + b;
      PairingsConcat(a[1..], b);
    }
  }

  /** Closing `m` contracts takes them off the front of the queue. */
  lemma {:induction false} ReduceTakesFront(lots: seq<OpenLot>, m: nat)
    requires lots != [] && 0 < m <= lots[0].qty
    ensures Contracts(lots) == Repeat(Contract(lots[0].src, lots[0].side), m) + Contracts(Reduce(lots, m))
  {
    var w, left := Contract(lots[0].src, lots[0].side), lots[0].qty - m;
    RepeatSplit(w, m, left);
    assert Contracts(Reduce(lots, m)) == Repeat(w, left) + Contracts(lots[1..]) by {
      if left > 0 {
        var ls := Reduce(lots, m);
        assert ls[0] == lots[0].(qty := left) && ls[1..] == lots[1..];
      }
    }
  }

  /** One step of the matching loop, contract by contract. */
  lemma {:induction false} ReduceRefines(lots: seq<OpenLot>, inc: Lot, m: nat, ps: seq<Pairing>)
    requires lots != [] && 0 < m <= lots[0].qty && lots[0].side != inc.side
    ensures ArriveAll(Queue(Contracts(lots), ps), Repeat(Contract(inc.src, inc.side), m))
         == Queue(Contracts(Reduce(lots, m)), ps + Repeat(Pairing(lots[0].src, inc.src), m))
  {
    ReduceTakesFront(lots, m);
    ArriveOtherSide(Queue(Contracts(lots), ps), Contract(lots[0].src, lots[0].side), Contract(inc.src, inc.side), m,
                    Contracts(Reduce(lots, m)));
  }

  /** Matching lots to `r` is what the queue does with the contracts of `inc`. */
  ghost predicate Refines(lots: seq<OpenLot>, inc: Lot, ps: seq<Pairing>, r: Matched) {
    && Sized(r.closed) && 0 <= r.left <= inc.qty
    && ArriveAll(Queue(Contracts(lots), ps), Repeat(Contract(inc.src, inc.side), inc.qty - r.left))
       == Queue(Contracts(r.lots), ps + Pairings(r.closed))
  }

  lemma {:induction false} NothingRefines(lots: seq<OpenLot>, inc: Lot, ps: seq<Pairing>)
    requires inc.qty >= 0
    ensures Refines(lots, inc, ps, Matched([], lots, inc.qty))
  {
    assert ps + [] == ps;
  }

  lemma {:induction false} MatchRefinesStep(lots: seq<OpenLot>, inc: Lot, m: nat, ps: seq<Pairing>, r: Matched)
    requires lots != [] && 0 < m <= lots[0].qty && lots[0].side != inc.side && m <= inc.qty
    requires Refines(Reduce(lots, m), inc.(qty := inc.qty - m), ps + Repeat(Pairing(lots[0].src, inc.src), m), r)
    ensures Refines(lots, inc, ps, r.(closed := [Close(lots[0], inc, m)] + r.closed))
  {
    var p := Repeat(Pairing(lots[0].src, inc.src), m);
    ReduceRefines(lots, inc, m, ps);
    PairingsCons(ps, Close(lots[0], inc, m), r.closed);
    ArriveInTurn(Queue(Contracts(lots), ps), Queue(Contracts(Reduce(lots, m)), ps + p),
                 Queue(Contracts(r.lots), ps + p + Pairings(r.closed)),
                 Contract(inc.src, inc.side), m, inc.qty - m - r.left);
  }

  lemma {:induction false} MatchRefines(lots: seq<OpenLot>, inc: Lot, next: int, ps: seq<Pairing>)
    requires Shape(lots, next) && inc.qty >= 0
    requires lots != [] ==> lots[0].side != inc.side
    ensures Refines(lots, inc, ps, Match(lots, inc))
    decreases inc.qty
  {
    hide Refines;
    hide Repeat;
    if inc.qty <= 0 || lots == [] {
      NothingRefines(lots, inc, ps);
    } else {
      var m := Min(inc.qty, lots[0].qty);
      var inc' := inc.(qty := inc.qty - m);
      ReduceShape(lots, m, next);
      MatchRefines(Reduce(lots, m), inc', next, ps + Repeat(Pairing(lots[0].src, inc.src), m));
      MatchRefinesStep(lots, inc, m, ps, Match(Reduce(lots, m), inc'));
    }
  }

  lemma {:induction false} ArriveInTurn(q0: Queue, q1: Queue, q2: Queue, c: Contract, m: nat, n: nat)
    requires ArriveAll(q0, Repeat(c, m)) == q1 && ArriveAll(q1, Repeat(c, n)) == q2
    ensures ArriveAll(q0, Repeat(c, m + n)) == q2
  {
    RepeatSplit(c, m, n);
    ArriveConcat(q0, Repeat(c, m), Repeat(c, n));
  }

  lemma {:induction false} PairingsCons(ps: seq<Pairing>, t: Trade, ts: seq<Trade>)
    requires t.size > 0 && Sized(ts)
    ensures Sized([t] + ts)
    ensures ps + Pairings([t] + ts) == ps + Repeat(Pairing(t.entrySrc, t.exitSrc), t.size) + Pairings(ts)
  {
    assert ([t] + ts)[0] == t && ([t] + ts)[1..] == ts;
    assert Pairings([t] + ts) == Repeat(Pairing(t.entrySrc, t.exitSrc), t.size) + Pairings(ts);
  }

  lemma {:induction false} ContractsOne(l: OpenLot)
    ensures Contracts([l]) == Repeat(Contract(l.src, l.side), l.qty)
  {
    assert Contracts([l]) == Repeat(Contract(l.src, l.side), l.qty) + Contracts([]);
  }

  lemma {:induction false} SettleRefines(q: Queue, b: Book, inc: OpenLot, r: Matched)
    requires Sized(b.trades) && Sized(r.closed)
    requires 0 <= r.left <= inc.qty && (r.left > 0 ==> r.lots == [])
    requires ArriveAll(q, Repeat(Contract(inc.src, inc.side), inc.qty - r.left))
          == Queue(Contracts(r.lots), Pairings(b.trades) + Pairings(r.closed))
    ensures Sized(Settle(b.trades, inc, r).trades)
    ensures ArriveAll(q, Repeat(Contract(inc.src, inc.side), inc.qty))
         == Queue(Contracts(Settle(b.trades, inc, r).lots), Pairings(Settle(b.trades, inc, r).trades))
  {
    var c := Contract(inc.src, inc.side);
    var q1 := Queue(Contracts(r.lots), Pairings(b.trades) + Pairings(r.closed));
    PairingsConcat(b.trades, r.closed);
    if r.left > 0 {
      var tail: OpenLot := inc.(qty := r.left);
      ContractsOne(tail);
      ArriveSameSide(q1, c, r.left);
      assert r.lots + [tail] == [tail];
      assert [] + Repeat(c, r.left) == Repeat(c, r.left);
      ArriveInTurn(q, q1, Queue(Contracts([tail]), q1.pairings), c, inc.qty - r.left, r.left);
    } else {
      assert r.lots + [] == r.lots;
    }
  }

  lemma {:induction false} ApplyRefines(b: Book, inc: OpenLot, next: int)
    requires BookShape(b, next) && next <= inc.src
    ensures Sized(Apply(b, inc).trades)
    ensures ArriveAll(Queue(Contracts(b.lots), Pairings(b.trades)), Repeat(Contract(inc.src, inc.side), inc.qty))
         == Queue(Contracts(Apply(b, inc).lots), Pairings(Apply(b, inc).trades))
  {
    var q := Queue(Contracts(b.lots), Pairings(b.trades));
    if b.lots == [] || b.lots[0].side == inc.side {
      ContractsOne(inc);
      assert b.lots != [] ==> q.waiting[0] == Contract(b.lots[0].src, b.lots[0].side);
      ArriveSameSide(q, Contract(inc.src, inc.side), inc.qty);
      ContractsConcat(b.lots, [inc]);
    } else {
      MatchLotsShape(b.lots, inc, next);
      MatchRefines(b.lots, inc, next, q.pairings);
      SettleRefines(q, b, inc, Match(b.lots, inc));
    }
  }

  /** The book holds what the queue of single contracts holds. */
  ghost predicate MirrorsQueue(b: Book, orders: seq<OpenLot>) {
    && Sized(b.trades)
    && ArriveAll(Queue([], []), Contracts(orders)) == Queue(Contracts(b.lots), Pairings(b.trades))
  }

  lemma {:induction false} NothingMirrors()
    ensures MirrorsQueue(Book([], []), [])
  {
  }

  lemma {:induction false} ApplyMirrors(b: Book, orders: seq<OpenLot>, inc: OpenLot, next: int)
    requires MirrorsQueue(b, orders) && BookShape(b, next) && next <= inc.src
    ensures MirrorsQueue(Apply(b, inc), orders + [inc])
  {
    ApplyRefines(b, inc, next);
    ContractsOne(inc);
    ContractsConcat(orders, [inc]);
    ArriveConcat(Queue([], []), Contracts(orders), Repeat(Contract(inc.src, inc.side), inc.qty));
    hide ArriveAll;
    hide Contracts;
    hide Pairings;
    hide Apply;
    hide Repeat;
    hide BookShape;
  }

  /** Lot-level pairing is the queue of single contracts: the same contracts
      are left waiting and the same contracts are paired, in the same order. */
  lemma {:induction false} PairingRefinesQueue(orders: seq<OpenLot>)
    requires Ascending(orders)
    ensures Sized(Run(orders).trades)
    ensures ArriveAll(Queue([], []), Contracts(orders))
         == Queue(Contracts(Run(orders).lots), Pairings(Run(orders).trades))
  {
    RunMirrors(orders);
  }

  lemma {:induction false} RunMirrors(orders: seq<OpenLot>)
    requires Ascending(orders)
    ensures MirrorsQueue(Run(orders), orders)
  {
    hide MirrorsQueue;
    hide Apply;
    hide BookShape;
    if orders == [] {
      NothingMirrors();
    } else {
      var n := |orders| - 1;
      RunMirrors(orders[..n]);
      RunShape(orders[..n]);
      ApplyMirrors(Run(orders[..n]), orders[..n], orders[n], if n == 0 then 0 else orders[n - 1].src + 1);
      assert orders == orders[..n] + [orders[n]];
    }
  }

  lemma {:induction false} GroupsOfRun(p: Pairing, n: nat, ps: seq<Pairing>)
    requires n > 0 && (ps == [] || ps[0] != p)
    ensures Groups(Repeat(p, n) + ps) == [Group(p, n)] + Groups(ps)
    ensures Groups(ps) != [] ==> ps != [] && Groups(ps)[0].pairing == ps[0]
  {
    var all := Repeat(p, n) + ps;
    assert all[0] == p && all[1..] == Repeat(p, n - 1) + ps;
    if n == 1 {
      assert all[1..] == ps;
    } else {
      GroupsOfRun(p, n - 1, ps);
    }
  }

  lemma {:induction false} GroupsOfTrades(ts: seq<Trade>)
    requires Sized(ts) && AdjacentDiffer(ts)
    ensures Groups(Pairings(ts)) == MapSeq(ts, AsGroup)
    ensures ts != [] ==> Pairings(ts) != [] && Pairings(ts)[0] == Pairing(ts[0].entrySrc, ts[0].exitSrc)
  {
    if ts == [] {
    } else {
      GroupsOfTrades(ts[1..]);
      assert ts[0] in ts;
      GroupsOfRun(Pairing(ts[0].entrySrc, ts[0].exitSrc), ts[0].size, Pairings(ts[1..]));
    }
  }

  /** The trades are exactly the groups (entry fill, exit fill, quantity) of the
      contract-by-contract pairing of the time-ordered fills, flips included. */
  lemma {:induction false} TradesAreQueueGroups(fills: seq<Fill>)
    ensures var orders := Orders(InTimeOrder(fills));
      MapSeq(Run(orders).trades, AsGroup) == Groups(ArriveAll(Queue([], []), Contracts(orders)).pairings)
  {
    var orders := Orders(InTimeOrder(fills));
    OrdersAscend(InTimeOrder(fills));
    RunShape(orders);
    PairingRefinesQueue(orders);
    GroupsOfTrades(Run(orders).trades);
  }

  // ----- Trades describe the fills they came from -----

  /** `l` holds contracts of the fill it names. */
  ghost predicate FromFill(l: Lot, sorted: seq<Fill>) {
    && l.src < |sorted| && Readable(sorted[l.src])
    && l == AsLot(sorted[l.src], l.src).(qty := l.qty)
  }

  /** Entry and exit are two fills of opposite sides, entry first, and every
      field of the trade is read off them. */
  ghost predicate Describes(t: Trade, sorted: seq<Fill>) {
    && t.entrySrc < t.exitSrc < |sorted|
    && var entry, exit := sorted[t.entrySrc], sorted[t.exitSrc];
      && Readable(entry) && Readable(exit)
      && t.direction == (if entry.action == Some(Buy) then Long else Short)
      && exit.action != entry.action
      && t.entryTime == entry.time && t.exitTime == exit.time && t.entryTime <= t.exitTime
      && t.entryPrice == entry.price.value && t.exitPrice == exit.price.value
      && t.signalId == "tv_" + entry.id + "_" + exit.id
      && 0 < t.size
      && t.pnlCents == t.size * CENTS_PER_TICK * (if t.direction == Long then t.exitPrice - t.entryPrice else t.entryPrice - t.exitPrice)
      && (t.isWin <==> t.pnlCents > 0) && (t.exitReason == TakeProfit <==> t.isWin)
  }

  /** The trade closes contracts of one fill against a later fill of the other side. */
  ghost predicate ClosesFills(t: Trade, sorted: seq<Fill>) {
    exists lot: Lot, inc: Lot, m ::
      t == Close(lot, inc, m) && FromFill(lot, sorted) && FromFill(inc, sorted)
      && lot.src < inc.src && lot.side != inc.side && m > 0
  }

  lemma {:induction false} ClosingDescribes(t: Trade, sorted: seq<Fill>)
    requires SortedBy(sorted, TimeOf) && ClosesFills(t, sorted)
    ensures Describes(t, sorted)
  {
    var lot: Lot, inc: Lot, m :|
      t == Close(lot, inc, m) && FromFill(lot, sorted) && FromFill(inc, sorted)
      && lot.src < inc.src && lot.side != inc.side && m > 0;
    assert TimeOf(sorted[lot.src]) <= TimeOf(sorted[inc.src]);
    assert (inc.price - lot.price) * m * CENTS_PER_TICK == m * CENTS_PER_TICK * (inc.price - lot.price);
    assert (lot.price - inc.price) * m * CENTS_PER_TICK == m * CENTS_PER_TICK * (lot.price - inc.price);
  }

  ghost predicate AllFromFills(lots: seq<OpenLot>, sorted: seq<Fill>) {
    forall i :: 0 <= i < |lots| ==> FromFill(lots[i], sorted)
  }

  ghost predicate AllClose(ts: seq<Trade>, sorted: seq<Fill>) {
    forall i :: 0 <= i < |ts| ==> ClosesFills(ts[i], sorted)
  }

  lemma {:induction false} ReduceFromFills(lots: seq<OpenLot>, m: int, sorted: seq<Fill>)
    requires lots != [] && 0 < m <= lots[0].qty && AllFromFills(lots, sorted)
    ensures AllFromFills(Reduce(lots, m), sorted)
  {
    var ls := Reduce(lots, m);
    forall i | 0 <= i < |ls|
      ensures FromFill(ls[i], sorted)
    {
      if lots[0].qty == m {
        assert ls[i] == lots[i + 1];
      } else {
        assert FromFill(lots[i], sorted);
      }
    }
  }

  lemma {:induction false} MatchLeavesFills(lots: seq<OpenLot>, inc: Lot, sorted: seq<Fill>)
    requires AllFromFills(lots, sorted)
    ensures AllFromFills(Match(lots, inc).lots, sorted)
    decreases inc.qty
  {
    if inc.qty <= 0 || lots == [] {
    } else {
      var m := Min(inc.qty, lots[0].qty);
      ReduceFromFills(lots, m, sorted);
      MatchLeavesFills(Reduce(lots, m), inc.(qty := inc.qty - m), sorted);
    }
  }

  /** The trade closes `inc` against one of the lots. */
  ghost predicate ClosesOneOf(t: Trade, lots: seq<OpenLot>, inc: Lot) {
    t.size > 0 && exists k :: 0 <= k < |lots| && t == Close(lots[k], inc, t.size)
  }

  lemma {:induction false} ReduceCloses(lots: seq<OpenLot>, inc: Lot, m: int, t: Trade)
    requires lots != [] && 0 < m <= lots[0].qty
    requires ClosesOneOf(t, Reduce(lots, m), inc.(qty := inc.qty - m))
    ensures ClosesOneOf(t, lots, inc)
  {
    var rest := Reduce(lots, m);
    var k :| 0 <= k < |rest| && t == Close(rest[k], inc.(qty := inc.qty - m), t.size);
    assert t == Close(lots[if lots[0].qty == m then k + 1 else k], inc, t.size);
  }

  ghost predicate AllCloseOneOf(ts: seq<Trade>, lots: seq<OpenLot>, inc: Lot) {
    forall i :: 0 <= i < |ts| ==> ClosesOneOf(ts[i], lots, inc)
  }

  lemma {:induction false} ClosesHead(lots: seq<OpenLot>, inc: Lot, m: int)
    requires lots != [] && m > 0
    ensures ClosesOneOf(Close(lots[0], inc, m), lots, inc)
  {
    var t := Close(lots[0], inc, m);
    assert t == Close(lots[0], inc, t.size);
  }

  lemma {:induction false} ClosesStep(lots: seq<OpenLot>, inc: Lot, m: int, ts: seq<Trade>)
    requires lots != [] && 0 < m <= lots[0].qty
    requires AllCloseOneOf(ts, Reduce(lots, m), inc.(qty := inc.qty - m))
    ensures AllCloseOneOf([Close(lots[0], inc, m)] + ts, lots, inc)
  {
    ClosesHead(lots, inc, m);
    hide ClosesOneOf;
    forall i | 0 <= i < |ts|
      ensures ClosesOneOf(ts[i], lots, inc)
    {
      ReduceCloses(lots, inc, m, ts[i]);
    }
  }

  lemma {:induction false} MatchCloses(lots: seq<OpenLot>, inc: Lot)
    ensures AllCloseOneOf(Match(lots, inc).closed, lots, inc)
    decreases inc.qty
  {
    hide Match;
    hide ClosesOneOf;
    if inc.qty <= 0 || lots == [] {
      MatchEnds(lots, inc);
    } else {
      hide AllCloseOneOf;
      var m := Min(inc.qty, lots[0].qty);
      var inc' := inc.(qty := inc.qty - m);
      MatchCloses(Reduce(lots, m), inc');
      MatchGoesOn(lots, inc);
      ClosesStep(lots, inc, m, Match(Reduce(lots, m), inc').closed);
    }
  }

  lemma {:induction false} ApplyCloses(b: Book, inc: OpenLot, sorted: seq<Fill>)
    requires Shape(b.lots, inc.src) && FromFill(inc, sorted)
    requires AllFromFills(b.lots, sorted) && AllClose(b.trades, sorted)
    ensures AllFromFills(Apply(b, inc).lots, sorted) && AllClose(Apply(b, inc).trades, sorted)
  {
    if b.lots == [] || b.lots[0].side == inc.side {
    } else {
      var r := Match(b.lots, inc);
      MatchCloses(b.lots, inc);
      forall i | 0 <= i < |r.closed|
        ensures ClosesFills(r.closed[i], sorted)
      {
        var k :| 0 <= k < |b.lots| && r.closed[i] == Close(b.lots[k], inc, r.closed[i].size);
        assert FromFill(b.lots[k], sorted);
      }
      MatchLeavesFills(b.lots, inc, sorted);
      assert FromFill(inc.(qty := r.left), sorted);
    }
  }

  lemma {:induction false} OrdersFromFills(sorted: seq<Fill>, k: nat)
    requires k <= |sorted|
    ensures AllFromFills(Orders(sorted[..k]), sorted)
  {
    if k == 0 {
    } else {
      OrdersFromFills(sorted, k - 1);
      assert sorted[..k][..k - 1] == sorted[..k - 1];
    }
  }

  lemma {:induction false} RunCloses(orders: seq<OpenLot>, sorted: seq<Fill>)
    requires Ascending(orders) && AllFromFills(orders, sorted)
    ensures AllFromFills(Run(orders).lots, sorted)
    ensures AllClose(Run(orders).trades, sorted)
  {
    if orders == [] {
    } else {
      var n := |orders| - 1;
      assert FromFill(orders[n], sorted);
      RunCloses(orders[..n], sorted);
      RunShape(orders[..n]);
      ApplyCloses(Run(orders[..n]), orders[n], sorted);
    }
  }

  /** Every trade of a fills file is read off its own two fills. */
  lemma {:induction false} TradesDescribeFills(fills: seq<Fill>)
    ensures var sorted := InTimeOrder(fills);
      var trades := Run(Orders(sorted)).trades;
      forall i :: 0 <= i < |trades| ==> Describes(trades[i], sorted)
  {
    var sorted := InTimeOrder(fills);
    SortByContract(fills, TimeOf);
    OrdersAscend(sorted);
    OrdersFromFills(sorted, |sorted|);
    assert sorted[..|sorted|] == sorted;
    RunCloses(Orders(sorted), sorted);
    var trades := Run(Orders(sorted)).trades;
    forall i | 0 <= i < |trades|
      ensures Describes(trades[i], sorted)
    {
      ClosingDescribes(trades[i], sorted);
    }
  }

  // ----- Accounting -----

  function SizeOf(t: Trade): int { t.size }
  function PnlOf(t: Trade): int { t.pnlCents }
  function QtyOf(l: OpenLot): int { l.qty }

  /** Price times quantity, positive for contracts bought. */
  function SignedValue(side: Side, price: int, qty: int): int {
    if side == Buy then price * qty else -(price * qty)
  }

  function CostOf(l: OpenLot): int { SignedValue(l.side, l.price, l.qty) }

  function ReadableQty(f: Fill): int { if Readable(f) then f.qty.value else 0 }

  function ReadableValue(f: Fill): int {
    if Readable(f) then SignedValue(f.action.value, f.price.value, f.qty.value) else 0
  }

  function ReadableOne(f: Fill): int { if Readable(f) then 1 else 0 }

  ghost predicate QuantitiesMatch(lots: seq<OpenLot>, inc: Lot, r: Matched) {
    && SumBy(r.closed, SizeOf) == inc.qty - r.left
    && SumBy(r.lots, QtyOf) == SumBy(lots, QtyOf) - (inc.qty - r.left)
    && |r.closed| + |r.lots| <= |lots| + (if r.lots == [] then 0 else 1)
  }

  lemma {:induction false} NoQuantities(lots: seq<OpenLot>, inc: Lot)
    ensures QuantitiesMatch(lots, inc, Matched([], lots, inc.qty))
  {
  }

  lemma {:induction false} SumCons(t: Trade, ts: seq<Trade>, f: Trade -> int)
    ensures SumBy([t] + ts, f) == f(t) + SumBy(ts, f)
  {
    assert ([t] + ts)[1..] == ts;
  }

  lemma {:induction false} QuantitiesStep(lots: seq<OpenLot>, inc: Lot, m: int, r: Matched)
    requires lots != [] && 0 < m <= lots[0].qty && (m < lots[0].qty ==> r.closed == [] && r.lots == Reduce(lots, m))
    requires QuantitiesMatch(Reduce(lots, m), inc.(qty := inc.qty - m), r)
    ensures QuantitiesMatch(lots, inc, r.(closed := [Close(lots[0], inc, m)] + r.closed))
  {
    ReduceBalances(lots, m);
    SumCons(Close(lots[0], inc, m), r.closed, SizeOf);
    hide SumBy;
  }

  lemma {:induction false} MatchQuantities(lots: seq<OpenLot>, inc: Lot)
    requires inc.qty >= 0
    ensures QuantitiesMatch(lots, inc, Match(lots, inc))
    decreases inc.qty
  {
    hide Match;
    hide QuantitiesMatch;
    if inc.qty <= 0 || lots == [] {
      MatchEnds(lots, inc);
      NoQuantities(lots, inc);
    } else {
      var m := Min(inc.qty, lots[0].qty);
      var inc' := inc.(qty := inc.qty - m);
      MatchQuantities(Reduce(lots, m), inc');
      MatchGoesOn(lots, inc);
      if m < lots[0].qty {
        MatchEnds(Reduce(lots, m), inc');
      }
      QuantitiesStep(lots, inc, m, Match(Reduce(lots, m), inc'));
    }
  }

  ghost predicate PnlMatches(lots: seq<OpenLot>, inc: Lot, r: Matched) {
    SumBy(r.closed, PnlOf) == CENTS_PER_TICK *
      (SumBy(r.lots, CostOf) - SumBy(lots, CostOf) - SignedValue(inc.side, inc.price, inc.qty - r.left))
  }

  lemma {:induction false} NoPnl(lots: seq<OpenLot>, inc: Lot)
    ensures PnlMatches(lots, inc, Matched([], lots, inc.qty))
  {
  }

  lemma {:induction false} PnlStep(lots: seq<OpenLot>, inc: Lot, m: int, r: Matched)
    requires lots != [] && 0 < m <= lots[0].qty && lots[0].side != inc.side
    requires PnlMatches(Reduce(lots, m), inc.(qty := inc.qty - m), r)
    ensures PnlMatches(lots, inc, r.(closed := [Close(lots[0], inc, m)] + r.closed))
  {
    ReduceBalances(lots, m);
    ClosePnl(lots[0], inc, m);
    SignedValueAdds(inc.side, inc.price, m, inc.qty - m - r.left);
    SumCons(Close(lots[0], inc, m), r.closed, PnlOf);
    hide SumBy;
    hide Reduce;
    hide SignedValue;
    hide Close;
  }

  lemma {:induction false} MatchPnl(lots: seq<OpenLot>, inc: Lot, next: int)
    requires Shape(lots, next) && inc.qty >= 0
    requires lots != [] ==> lots[0].side != inc.side
    ensures PnlMatches(lots, inc, Match(lots, inc))
    decreases inc.qty
  {
    hide Match;
    hide PnlMatches;
    hide Shape;
    if inc.qty <= 0 || lots == [] {
      MatchEnds(lots, inc);
      NoPnl(lots, inc);
    } else {
      var m := Min(inc.qty, lots[0].qty);
      var inc' := inc.(qty := inc.qty - m);
      ReduceShape(lots, m, next);
      MatchPnl(Reduce(lots, m), inc', next);
      MatchGoesOn(lots, inc);
      PnlStep(lots, inc, m, Match(Reduce(lots, m), inc'));
    }
  }

  lemma {:induction false} SignedValueAdds(side: Side, price: int, a: int, b: int)
    ensures SignedValue(side, price, a + b) == SignedValue(side, price, a) + SignedValue(side, price, b)
  {
    assert price * (a + b) == price * a + price * b;
  }

  lemma {:induction false} ReduceBalances(lots: seq<OpenLot>, m: int)
    requires lots != [] && 0 < m <= lots[0].qty
    ensures SumBy(Reduce(lots, m), QtyOf) == SumBy(lots, QtyOf) - m
    ensures SumBy(Reduce(lots, m), CostOf) == SumBy(lots, CostOf) - SignedValue(lots[0].side, lots[0].price, m)
  {
    var l := lots[0];
    if l.qty > m {
      var l': OpenLot := l.(qty := l.qty - m);
      assert ([l'] + lots[1..])[1..] == lots[1..];
      assert l.price * (l.qty - m) == l.price * l.qty - l.price * m;
    }
  }

  lemma {:induction false} ClosePnl(lot: Lot, inc: Lot, m: int)
    requires lot.side != inc.side
    ensures Close(lot, inc, m).pnlCents
         == CENTS_PER_TICK * (-SignedValue(inc.side, inc.price, m) - SignedValue(lot.side, lot.price, m))
  {
    assert (inc.price - lot.price) * m == inc.price * m - lot.price * m;
    assert (lot.price - inc.price) * m == lot.price * m - inc.price * m;
  }

  /** Totals of the book after matching, from totals of the match. */
  lemma {:induction false} SettleTotals(trades: seq<Trade>, inc: OpenLot, r: Matched)
    requires 0 <= r.left <= inc.qty
    ensures var b := Settle(trades, inc, r);
      && SumBy(b.trades, SizeOf) == SumBy(trades, SizeOf) + SumBy(r.closed, SizeOf)
      && SumBy(b.trades, PnlOf) == SumBy(trades, PnlOf) + SumBy(r.closed, PnlOf)
      && SumBy(b.lots, QtyOf) == SumBy(r.lots, QtyOf) + r.left
      && SumBy(b.lots, CostOf) == SumBy(r.lots, CostOf) + SignedValue(inc.side, inc.price, r.left)
  {
    SumByConcat(trades, r.closed, SizeOf);
    SumByConcat(trades, r.closed, PnlOf);
    if r.left > 0 {
      var tail: OpenLot := inc.(qty := r.left);
      SumByConcat(r.lots, [tail], QtyOf);
      SumByConcat(r.lots, [tail], CostOf);
    } else {
      assert r.lots + [] == r.lots;
    }
  }

  lemma {:induction false} OpenBalances(b: Book, inc: OpenLot)
    ensures SumBy(b.lots + [inc], QtyOf) == SumBy(b.lots, QtyOf) + inc.qty
    ensures SumBy(b.lots + [inc], CostOf) == SumBy(b.lots, CostOf) + CostOf(inc)
  {
    SumByConcat(b.lots, [inc], QtyOf);
    SumByConcat(b.lots, [inc], CostOf);
  }

  lemma {:induction false} CloseQuantities(b: Book, inc: OpenLot, next: int)
    requires Shape(b.lots, next) && b.lots != [] && b.lots[0].side != inc.side
    ensures var b' := Settle(b.trades, inc, Match(b.lots, inc));
      && 2 * SumBy(b'.trades, SizeOf) + SumBy(b'.lots, QtyOf)
         == 2 * SumBy(b.trades, SizeOf) + SumBy(b.lots, QtyOf) + inc.qty
      && |b'.trades| + Max(|b'.lots|, 1) <= |b.trades| + |b.lots| + 1
  {
    MatchLotsShape(b.lots, inc, next);
    MatchQuantities(b.lots, inc);
    SettleTotals(b.trades, inc, Match(b.lots, inc));
  }

  lemma {:induction false} CloseMoney(b: Book, inc: OpenLot, next: int)
    requires Shape(b.lots, next) && b.lots != [] && b.lots[0].side != inc.side
    ensures var b' := Settle(b.trades, inc, Match(b.lots, inc));
      SumBy(b'.trades, PnlOf) - CENTS_PER_TICK * SumBy(b'.lots, CostOf)
      == SumBy(b.trades, PnlOf) - CENTS_PER_TICK * SumBy(b.lots, CostOf) - CENTS_PER_TICK * CostOf(inc)
  {
    hide Match;
    hide Settle;
    hide SumBy;
    var r := Match(b.lots, inc);
    MatchLotsShape(b.lots, inc, next);
    MatchPnl(b.lots, inc, next);
    SettleTotals(b.trades, inc, r);
    var closed, left := SignedValue(inc.side, inc.price, inc.qty - r.left), SignedValue(inc.side, inc.price, r.left);
    assert closed + left == CostOf(inc) by {
      SignedValueAdds(inc.side, inc.price, inc.qty - r.left, r.left);
    }
    MoneyAdds(SumBy(b.trades, PnlOf), SumBy(r.closed, PnlOf), SumBy(r.lots, CostOf), SumBy(b.lots, CostOf), closed, left);
  }

  lemma {:induction false} MoneyAdds(before: int, made: int, lots': int, lots: int, closed: int, left: int)
    requires made == CENTS_PER_TICK * (lots' - lots - closed)
    ensures before + made - CENTS_PER_TICK * (lots' + left)
         == before - CENTS_PER_TICK * lots - CENTS_PER_TICK * (closed + left)
  {
  }

  lemma {:induction false} ApplyBalances(b: Book, inc: OpenLot, next: int)
    requires Shape(b.lots, next)
    ensures var b' := Apply(b, inc);
      && 2 * SumBy(b'.trades, SizeOf) + SumBy(b'.lots, QtyOf)
         == 2 * SumBy(b.trades, SizeOf) + SumBy(b.lots, QtyOf) + inc.qty
      && SumBy(b'.trades, PnlOf) - CENTS_PER_TICK * SumBy(b'.lots, CostOf)
         == SumBy(b.trades, PnlOf) - CENTS_PER_TICK * SumBy(b.lots, CostOf) - CENTS_PER_TICK * CostOf(inc)
      && |b'.trades| + Max(|b'.lots|, 1) <= |b.trades| + |b.lots| + 1
  {
    if b.lots == [] || b.lots[0].side == inc.side {
      OpenBalances(b, inc);
    } else {
      CloseQuantities(b, inc, next);
      CloseMoney(b, inc, next);
    }
  }

  /** The book accounts for the contracts and the money of `orders`. */
  ghost predicate Balanced(b: Book, orders: seq<OpenLot>) {
    && 2 * SumBy(b.trades, SizeOf) + SumBy(b.lots, QtyOf) == SumBy(orders, QtyOf)
    && SumBy(b.trades, PnlOf) == CENTS_PER_TICK * (SumBy(b.lots, CostOf) - SumBy(orders, CostOf))
    && |b.trades| + |b.lots| <= |orders|
    && (orders != [] ==> |b.trades| + 1 <= |orders|)
  }

  lemma {:induction false} ApplyStaysBalanced(b: Book, orders: seq<OpenLot>, inc: OpenLot, next: int)
    requires Shape(b.lots, next) && Balanced(b, orders)
    ensures Balanced(Apply(b, inc), orders + [inc])
  {
    ApplyBalances(b, inc, next);
    SumByConcat(orders, [inc], QtyOf);
    SumByConcat(orders, [inc], CostOf);
  }

  lemma {:induction false} EmptyBalances()
    ensures Balanced(Book([], []), [])
  {
  }

  lemma {:induction false} BookBalances(orders: seq<OpenLot>)
    requires Ascending(orders)
    ensures Balanced(Run(orders), orders)
  {
    hide Balanced;
    hide Apply;
    if orders == [] {
      EmptyBalances();
    } else {
      var n := |orders| - 1;
      BookBalances(orders[..n]);
      RunShape(orders[..n]);
      ApplyStaysBalanced(Run(orders[..n]), orders[..n], orders[n], if n == 0 then 0 else orders[n - 1].src + 1);
      assert orders[..n] + [orders[n]] == orders;
    }
  }

  lemma {:induction false} OrdersTotals(sorted: seq<Fill>)
    ensures SumBy(Orders(sorted), QtyOf) == SumBy(sorted, ReadableQty)
    ensures SumBy(Orders(sorted), CostOf) == SumBy(sorted, ReadableValue)
    ensures |Orders(sorted)| == SumBy(sorted, ReadableOne)
  {
    if sorted == [] {
    } else {
      var n := |sorted| - 1;
      var f := sorted[n];
      OrdersTotals(sorted[..n]);
      assert sorted == sorted[..n] + [f];
      SumByConcat(sorted[..n], [f], ReadableQty);
      SumByConcat(sorted[..n], [f], ReadableValue);
      SumByConcat(sorted[..n], [f], ReadableOne);
      if Readable(f) {
        var l := AsLot(f, n);
        assert Orders(sorted) == Orders(sorted[..n]) + [l];
        SumByConcat(Orders(sorted[..n]), [l], QtyOf);
        SumByConcat(Orders(sorted[..n]), [l], CostOf);
      } else {
        assert Orders(sorted) == Orders(sorted[..n]);
      }
    }
  }

  /** The books balance over any fills file: every contract is either in two
      trades' sizes or still open, profit is cash received less cash paid plus
      the cost of what is still open, and n readable fills give at most n - 1
      trades. */
  lemma {:induction false} PairingBalances(fills: seq<Fill>)
    ensures var b := Run(Orders(InTimeOrder(fills)));
      && 2 * SumBy(b.trades, SizeOf) + SumBy(b.lots, QtyOf) == SumBy(fills, ReadableQty)
      && SumBy(b.trades, PnlOf) == CENTS_PER_TICK * (SumBy(b.lots, CostOf) - SumBy(fills, ReadableValue))
      && (SumBy(fills, ReadableOne) >= 1 ==> |b.trades| <= SumBy(fills, ReadableOne) - 1)
      && (SumBy(fills, ReadableOne) == 0 ==> b.trades == [])
  {
    var sorted := InTimeOrder(fills);
    OrdersAscend(sorted);
    BookBalances(Orders(sorted));
    OrdersTotals(sorted);
    SumOfSort(fills, TimeOf, ReadableQty);
    SumOfSort(fills, TimeOf, ReadableValue);
    SumOfSort(fills, TimeOf, ReadableOne);
  }
}
