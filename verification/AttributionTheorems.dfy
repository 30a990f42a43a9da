/** Greedy attribution is sound, uses no signal twice, loses no trade, and
    attributes at least half as many trades as any assignment could. */
module AttributionTheorems {
  import opened Common
  import opened StableSort
  import opened Fifo
  import opened Attribution

  ghost predicate EachOnce(choices: seq<Option<nat>>) {
    forall i, j :: 0 <= i < j < |choices| && choices[i].Some? ==> choices[i] != choices[j]
  }

  lemma {:induction false} PrefixChoices(trades: seq<Trade>, k: nat, cands: seq<Candidate>, clock: Clock)
    requires k <= |trades|
    ensures Choices(trades[..k], cands, clock) == Choices(trades, cands, clock)[..k]
  {
    if k < |trades| {
      var n := |trades| - 1;
      PrefixChoices(trades[..n], k, cands, clock);
      assert trades[..n][..k] == trades[..k];
      assert Choices(trades, cands, clock)[..n] == Choices(trades[..n], cands, clock);
    } else {
      assert trades[..k] == trades;
    }
  }

  /** What the greedy rule guarantees of each choice: it is the nearest free
      eligible candidate, and there is none only when none is free. */
  lemma {:induction false} ChoiceIsBest(trades: seq<Trade>, k: nat, cands: seq<Candidate>, clock: Clock)
    requires k < |trades|
    ensures var choices := Choices(trades, cands, clock);
      match choices[k]
      case None => NoneFree(trades[k], cands, Used(choices[..k]), clock)
      case Some(c) => IsBest(trades[k], c, cands, Used(choices[..k]), clock)
  {
    ChoicesSnoc(trades, k, cands, clock);
    PrefixChoices(trades, k + 1, cands, clock);
    PrefixChoices(trades, k, cands, clock);
    PickIsBest(trades[k], cands, Used(Choices(trades, cands, clock)[..k]), clock);
    assert Choices(trades, cands, clock)[..k + 1][k] == Choices(trades, cands, clock)[k];
  }

  lemma {:induction false} PrefixUsed(choices: seq<Option<nat>>, i: nat, k: nat)
    requires i < k <= |choices| && choices[i].Some?
    ensures choices[i].value in Used(choices[..k])
  {
    assert choices[..k][i] == choices[i];
  }

  /** Each signal is attributed at most once, and only to an eligible trade. */
  lemma {:induction false} AttributionIsMatching(trades: seq<Trade>, cands: seq<Candidate>, clock: Clock)
    ensures var choices := Choices(trades, cands, clock);
      && EachOnce(choices)
      && forall i :: 0 <= i < |trades| && choices[i].Some? ==>
           Eligible(trades[i], cands[choices[i].value], clock)
  {
    var choices := Choices(trades, cands, clock);
    forall i, j | 0 <= i < j < |choices| && choices[i].Some?
      ensures choices[i] != choices[j]
    {
      ChoiceIsBest(trades, j, cands, clock);
      PrefixUsed(choices, i, j);
    }
    forall i | 0 <= i < |trades| && choices[i].Some?
      ensures Eligible(trades[i], cands[choices[i].value], clock)
    {
      ChoiceIsBest(trades, i, cands, clock);
    }
  }

  /** No unattributed trade has an eligible signal left over. */
  lemma {:induction false} AttributionIsMaximal(trades: seq<Trade>, cands: seq<Candidate>, clock: Clock)
    ensures var choices := Choices(trades, cands, clock);
      forall i, d :: 0 <= i < |trades| && choices[i] == None && 0 <= d < |cands| && Eligible(trades[i], cands[d], clock)
        ==> d in Used(choices)
  {
    var choices := Choices(trades, cands, clock);
    forall i, d | 0 <= i < |trades| && choices[i] == None && 0 <= d < |cands| && Eligible(trades[i], cands[d], clock)
      ensures d in Used(choices)
    {
      ChoiceIsBest(trades, i, cands, clock);
      var j :| 0 <= j < i && choices[..i][j].Some? && choices[..i][j].value == d;
      assert choices[j] == choices[..i][j];
    }
  }

  // ----- The choices in plain numbers -----

  /** Same side and size, entries at most two points apart (eight ticks), times at
      most three minutes apart. */
  predicate InWindow(t: Trade, c: Candidate, clock: Clock) {
    && c.direction == t.direction && c.size == t.size
    && -8.0 <= c.entryPrice - t.entryPrice as real && c.entryPrice - t.entryPrice as real <= 8.0
    && clock(t.entryTime).Some?
    && var apart := c.time - clock(t.entryTime).value; -180_000_000 <= apart && apart <= 180_000_000
  }

  /** `c` comes before `d` in the order of time, then price, then position. */
  predicate Precedes(t: Trade, c: nat, d: nat, cands: seq<Candidate>, clock: Clock)
    requires c < |cands| && d < |cands|
  {
    var at, price := clock(t.entryTime).GetOr(0), t.entryPrice as real;
    var time, otherTime := Abs(cands[c].time - at), Abs(cands[d].time - at);
    var gap, otherGap := AbsReal(cands[c].entryPrice - price), AbsReal(cands[d].entryPrice - price);
    time < otherTime || (time == otherTime && (gap < otherGap || (gap == otherGap && c < d)))
  }

  predicate TakenBefore(choices: seq<Option<nat>>, i: nat, d: nat)
    requires i <= |choices|
  {
    exists j :: 0 <= j < i && choices[j] == Some(d)
  }

  /** Trade `i` takes the first candidate of its window that no earlier trade took,
      and none exactly when there is none. */
  ghost predicate TakesFirstLeft(trades: seq<Trade>, i: nat, cands: seq<Candidate>, choices: seq<Option<nat>>, clock: Clock)
    requires i < |trades| == |choices|
  {
    match choices[i]
    case None => forall d :: 0 <= d < |cands| && InWindow(trades[i], cands[d], clock) ==> TakenBefore(choices, i, d)
    case Some(c) =>
      && c < |cands| && InWindow(trades[i], cands[c], clock) && !TakenBefore(choices, i, c)
      && forall d :: 0 <= d < |cands| && d != c && InWindow(trades[i], cands[d], clock) && !TakenBefore(choices, i, d)
           ==> Precedes(trades[i], c, d, cands, clock)
  }

  lemma {:induction false} UsedIsTaken(choices: seq<Option<nat>>, i: nat, d: nat)
    requires i <= |choices|
    ensures d in Used(choices[..i]) <==> TakenBefore(choices, i, d)
  {
    if d in Used(choices[..i]) {
      var j :| 0 <= j < i && choices[..i][j].Some? && choices[..i][j].value == d;
      assert choices[j] == Some(d);
    }
    if j :| 0 <= j < i && choices[j] == Some(d) {
      assert choices[..i][j] == Some(d);
    }
  }

  lemma {:induction false} EligibleIsInWindow(t: Trade, c: Candidate, clock: Clock)
    ensures Eligible(t, c, clock) <==> InWindow(t, c, clock)
  {
  }

  lemma {:induction false} BestPrecedes(t: Trade, c: nat, d: nat, cands: seq<Candidate>, used: set<nat>, clock: Clock)
    requires IsBest(t, c, cands, used, clock)
    requires d < |cands| && d != c && d !in used && Eligible(t, cands[d], clock)
    ensures Precedes(t, c, d, cands, clock)
  {
  }

  /** The greedy rule in plain numbers, for every trade. */
  lemma {:induction false} EveryChoiceIsFirstLeft(trades: seq<Trade>, cands: seq<Candidate>, clock: Clock)
    ensures forall i :: 0 <= i < |trades| ==> TakesFirstLeft(trades, i, cands, Choices(trades, cands, clock), clock)
  {
    hide Eligible;
    hide InWindow;
    hide Precedes;
    hide TakenBefore;
    var choices := Choices(trades, cands, clock);
    forall i | 0 <= i < |trades|
      ensures TakesFirstLeft(trades, i, cands, choices, clock)
    {
      ChoiceIsBest(trades, i, cands, clock);
      forall d | 0 <= d < |cands|
        ensures Eligible(trades[i], cands[d], clock) <==> InWindow(trades[i], cands[d], clock)
        ensures d in Used(choices[..i]) <==> TakenBefore(choices, i, d)
      {
        EligibleIsInWindow(trades[i], cands[d], clock);
        UsedIsTaken(choices, i, d);
      }
      if choices[i].Some? {
        var c := choices[i].value;
        forall d | 0 <= d < |cands| && d != c && Eligible(trades[i], cands[d], clock) && d !in Used(choices[..i])
          ensures Precedes(trades[i], c, d, cands, clock)
        {
          BestPrecedes(trades[i], c, d, cands, Used(choices[..i]), clock);
        }
      }
    }
  }

  // ----- How good greedy is -----

  /** Any assignment of distinct eligible signals to trades. */
  ghost predicate IsAssignment(m: map<nat, nat>, trades: seq<Trade>, cands: seq<Candidate>, clock: Clock) {
    && (forall i :: i in m ==> i < |trades| && m[i] < |cands| && Eligible(trades[i], cands[m[i]], clock))
    && (forall i, j :: i in m && j in m && i != j ==> m[i] != m[j])
  }

  /** An injective map does not shrink a set. */
  lemma {:induction false} InjectiveBound(keys: set<nat>, m: map<nat, nat>, target: set<nat>)
    requires keys <= m.Keys
    requires forall i :: i in keys ==> m[i] in target
    requires forall i, j :: i in keys && j in keys && i != j ==> m[i] != m[j]
    ensures |keys| <= |target|
  {
    if keys != {} {
      var k :| k in keys;
      InjectiveBound(keys - {k}, m, target - {m[k]});
    }
  }

  lemma {:induction false} SubsetBound(a: set<nat>, b: set<nat>)
    requires a <= b
    ensures |a| <= |b|
  {
    assert b == a + (b - a);
  }

  lemma {:induction false} MatchedSnoc(choices: seq<Option<nat>>)
    requires choices != []
    ensures var n := |choices| - 1;
      |MatchedTrades(choices)| == |MatchedTrades(choices[..n])| + if choices[n].Some? then 1 else 0
  {
    var n := |choices| - 1;
    var before := MatchedTrades(choices[..n]);
    assert MatchedTrades(choices) == before + if choices[n].Some? then {n} else {};
    assert n !in before;
  }

  lemma {:induction false} UsedBound(choices: seq<Option<nat>>)
    ensures |Used(choices)| <= |MatchedTrades(choices)|
  {
    if choices == [] {
      assert Used(choices) == {};
    } else {
      var n := |choices| - 1;
      UsedBound(choices[..n]);
      UsedSnoc(choices[..n], choices[n]);
      assert choices == choices[..n] + [choices[n]];
      MatchedSnoc(choices);
    }
  }

  lemma {:induction false} AttributedCount(trades: seq<Trade>, cands: seq<Candidate>, choices: seq<Option<nat>>)
    requires |choices| == |trades|
    requires forall i :: 0 <= i < |choices| && choices[i].Some? ==> choices[i].value < |cands|
    ensures |Attributed(trades, cands, choices)| == |MatchedTrades(choices)|
  {
    if trades == [] {
      assert MatchedTrades(choices) == {};
    } else {
      var n := |trades| - 1;
      AttributedCount(trades[..n], cands, choices[..n]);
      MatchedSnoc(choices);
    }
  }

  /** An injective map whose keys are in `matched` or lead into `used`. */
  lemma {:induction false} KeysBound(m: map<nat, nat>, matched: set<nat>, used: set<nat>)
    requires forall i :: i in m && i !in matched ==> m[i] in used
    requires forall i, j :: i in m && j in m && i != j ==> m[i] != m[j]
    ensures |m| <= |matched| + |used|
  {
    var hits, misses := m.Keys * matched, m.Keys - matched;
    SubsetBound(hits, matched);
    InjectiveBound(misses, m, used);
    assert m.Keys == hits + misses;
  }

  /** Greedy attributes at least half as many trades as any assignment. */
  lemma {:induction false} AttributionIsHalfOptimal(trades: seq<Trade>, cands: seq<Candidate>, clock: Clock, m: map<nat, nat>)
    requires IsAssignment(m, trades, cands, clock)
    ensures |m| <= 2 * |Attributed(trades, cands, Choices(trades, cands, clock))|
  {
    var choices := Choices(trades, cands, clock);
    AttributionIsMaximal(trades, cands, clock);
    UsedBound(choices);
    AttributedCount(trades, cands, choices);
    KeysBound(m, MatchedTrades(choices), Used(choices));
  }

  const FIRST_BUY := Fill(0, "1", Some(Buy), Some(100), Some(1))
  const FIRST_SELL := Fill(10_000_000, "2", Some(Sell), Some(110), Some(1))
  const SECOND_BUY := Fill(200_000_000, "3", Some(Buy), Some(100), Some(1))
  const SECOND_SELL := Fill(210_000_000, "4", Some(Sell), Some(110), Some(1))

  const TWO_ROUND_TRIPS := [FIRST_BUY, FIRST_SELL, SECOND_BUY, SECOND_SELL]

  const EARLY: seq<OpenLot> := [AsLot(FIRST_BUY, 0), AsLot(FIRST_SELL, 1)]
  const LATE: seq<OpenLot> := [AsLot(SECOND_BUY, 2), AsLot(SECOND_SELL, 3)]

  lemma {:induction false} SortedTwice()
    ensures InTimeOrder(TWO_ROUND_TRIPS) == TWO_ROUND_TRIPS
  {
    hide SortBy;
    SortOfSorted(TWO_ROUND_TRIPS, TimeOf);
  }

  lemma {:induction false} OrderedTwice()
    ensures Orders(InTimeOrder(TWO_ROUND_TRIPS)) == EARLY + LATE
  {
    hide InTimeOrder;
    SortedTwice();
    hide Orders;
    hide AsLot;
    hide Readable;
    AllReadable();
    NoOrders();
    var s0: seq<Fill> := [];
    var s1 := s0 + [FIRST_BUY];
    var s2 := s1 + [FIRST_SELL];
    var s3 := s2 + [SECOND_BUY];
    OrdersSnoc(s0, FIRST_BUY);
    OrdersSnoc(s1, FIRST_SELL);
    OrdersSnoc(s2, SECOND_BUY);
    OrdersSnoc(s3, SECOND_SELL);
    assert s3 + [SECOND_SELL] == TWO_ROUND_TRIPS;
  }

  lemma {:induction false} AllReadable()
    ensures Readable(FIRST_BUY) && Readable(FIRST_SELL) && Readable(SECOND_BUY) && Readable(SECOND_SELL)
  {
  }

  lemma {:induction false} NoOrders()
    ensures Orders([]) == []
  {
  }

  lemma {:induction false} PairedTwice()
    ensures Run(Orders(InTimeOrder(TWO_ROUND_TRIPS))).trades == [Close(EARLY[0], EARLY[1], 1), Close(LATE[0], LATE[1], 1)]
  {
    hide Run;
    hide Close;
    hide Orders;
    hide InTimeOrder;
    OrderedTwice();
    NothingOpen();
    RoundTrip([], EARLY[0], EARLY[1]);
    assert [] + [EARLY[0], EARLY[1]] == EARLY && [LATE[0], LATE[1]] == LATE;
    RoundTrip(EARLY, LATE[0], LATE[1]);
  }

  lemma {:induction false} NothingOpen()
    ensures Run([]) == Book([], [])
  {
  }

  /** The factor two is reached: of these four fills' two trades greedy attributes
      one although two could be attributed. The later trade's only signal went to
      the earlier trade, whose other signal was further away in time. */
  lemma {:induction false} HalfIsAttained() returns (trades: seq<Trade>, cands: seq<Candidate>, clock: Clock, m: map<nat, nat>)
    ensures trades == Run(Orders(InTimeOrder(TWO_ROUND_TRIPS))).trades
    ensures IsAssignment(m, trades, cands, clock)
    ensures |m| == 2 && |Attributed(trades, cands, Choices(trades, cands, clock))| == 1
  {
    hide Choices;
    hide Attributed;
    hide Run;
    hide InTimeOrder;
    PairedTwice();
    clock := x => Some(x);
    hide Orders;
    trades := [Close(EARLY[0], EARLY[1], 1), Close(LATE[0], LATE[1], 1)];
    var near := Candidate("near", Long, 100.0, 1, 50_000_000, None);
    var far := near.(time := -100_000_000);
    cands := [near, far];
    m := map[0 := 1, 1 := 0];
    assert m.Keys == {0, 1};
    FirstTakesNearest(trades, cands, clock);
    SecondFindsNone(trades, cands, clock);
    var choices := Choices(trades, cands, clock);
    AttributedCount(trades, cands, choices);
    assert MatchedTrades(choices) == {0};
  }

  lemma {:induction false} FirstTakesNearest(trades: seq<Trade>, cands: seq<Candidate>, clock: Clock)
    requires |trades| > 0 && |cands| == 2
    requires Eligible(trades[0], cands[0], clock) && Nearer(trades[0], cands[0], cands[1], clock)
    ensures Choices(trades, cands, clock)[0] == Some(0)
  {
    ChoiceIsBest(trades, 0, cands, clock);
    assert Used(Choices(trades, cands, clock)[..0]) == {};
  }

  lemma {:induction false} SecondFindsNone(trades: seq<Trade>, cands: seq<Candidate>, clock: Clock)
    requires |trades| == |cands| == 2 && Choices(trades, cands, clock)[0] == Some(0)
    requires !Eligible(trades[1], cands[1], clock)
    ensures Choices(trades, cands, clock)[1] == None
  {
    ChoiceIsBest(trades, 1, cands, clock);
    PrefixUsed(Choices(trades, cands, clock), 0, 1);
  }

  // ----- Nothing is lost -----

  function TradeOf(g: Tagged): Trade { g.trade }

  lemma {:induction false} TradesSnoc(s: seq<Tagged>, x: Tagged)
    ensures multiset(MapSeq(s + [x], TradeOf)) == multiset(MapSeq(s, TradeOf)) + multiset{x.trade}
  {
    var l, r := MapSeq(s + [x], TradeOf), MapSeq(s, TradeOf) + [x.trade];
    assert forall i :: 0 <= i < |l| ==> l[i] == r[i];
    assert l == r;
  }

  ghost predicate Partitions(a: seq<Tagged>, u: seq<Tagged>, trades: seq<Trade>) {
    multiset(MapSeq(a, TradeOf)) + multiset(MapSeq(u, TradeOf)) == multiset(trades)
  }

  lemma {:induction false} PartitionSnoc(a: seq<Tagged>, u: seq<Tagged>, trades: seq<Trade>, g: Tagged)
    requires Partitions(a, u, trades)
    ensures Partitions(a + [g], u, trades + [g.trade]) && Partitions(a, u + [g], trades + [g.trade])
  {
    TradesSnoc(a, g);
    TradesSnoc(u, g);
  }

  lemma {:induction false} NothingPartitions()
    ensures Partitions([], [], [])
  {
  }

  lemma {:induction false} PartitionStep(trades: seq<Trade>, cands: seq<Candidate>, choices: seq<Option<nat>>)
    requires |choices| == |trades| > 0
    requires forall i :: 0 <= i < |choices| && choices[i].Some? ==> choices[i].value < |cands|
    requires var n := |trades| - 1;
      Partitions(Attributed(trades[..n], cands, choices[..n]), Unattributed(trades[..n], choices[..n]), trades[..n])
    ensures Partitions(Attributed(trades, cands, choices), Unattributed(trades, choices), trades)
  {
    hide Partitions;
    var n := |trades| - 1;
    var a, u := Attributed(trades[..n], cands, choices[..n]), Unattributed(trades[..n], choices[..n]);
    assert trades[..n] + [trades[n]] == trades;
    if choices[n].Some? {
      var g := Tag(trades[n], cands[choices[n].value]);
      assert Attributed(trades, cands, choices) == a + [g];
      assert Unattributed(trades, choices) == u;
      PartitionSnoc(a, u, trades[..n], g);
    } else {
      var g := Tagged(trades[n], trades[n].signalId, None);
      assert Attributed(trades, cands, choices) == a;
      assert Unattributed(trades, choices) == u + [g];
      PartitionSnoc(a, u, trades[..n], g);
    }
  }

  /** Every trade is returned exactly once, attributed or not. */
  lemma {:induction false} AttributionPartitionsTrades(
      trades: seq<Trade>, cands: seq<Candidate>, choices: seq<Option<nat>>)
    requires |choices| == |trades|
    requires forall i :: 0 <= i < |choices| && choices[i].Some? ==> choices[i].value < |cands|
    ensures Partitions(Attributed(trades, cands, choices), Unattributed(trades, choices), trades)
  {
    hide Partitions;
    if trades == [] {
      NothingPartitions();
    } else {
      var n := |trades| - 1;
      AttributionPartitionsTrades(trades[..n], cands, choices[..n]);
      hide Attributed;
      hide Unattributed;
      PartitionStep(trades, cands, choices);
    }
  }
}
