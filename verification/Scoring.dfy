/** The one-pass scorecard of the replay gate (scripts/ops/backtest_config.py,
    `SimTrade`, `Scorecard.record`). Points are real numbers, times are seconds. */
module Scoring {
  import opened Common

  datatype ExitReason = TakeProfit | StopLoss | Timeout

  datatype Exit = Exit(time: int, price: real, reason: ExitReason)

  /** `exit` is `None` until the trade has been resolved. */
  datatype SimTrade = SimTrade(
    trigger: string, direction: Direction, entryTime: int, entryPrice: real,
    stop: real, target: real, confidence: real, exit: Option<Exit>)

  function PnlPoints(t: SimTrade): real {
    if t.exit == None then 0.0
    else if t.direction == Long then t.exit.value.price - t.entryPrice
    else t.entryPrice - t.exit.value.price
  }

  function Net(t: SimTrade, commission: real): real {
    PnlPoints(t) - commission
  }

  datatype Bucket = UpTo5m | UpTo15m | UpTo30m | UpTo60m | UpTo120m | UpTo240m | Over240m

  function BucketOf(minutes: int): Bucket {
    if minutes <= 5 then UpTo5m
    else if minutes <= 15 then UpTo15m
    else if minutes <= 30 then UpTo30m
    else if minutes <= 60 then UpTo60m
    else if minutes <= 120 then UpTo120m
    else if minutes <= 240 then UpTo240m
    else Over240m
  }

  function HoldMinutes(t: SimTrade): int
    requires t.exit.Some?
  {
    Max(1, (t.exit.value.time - t.entryTime) / 60)
  }

  datatype Tally = Tally(entries: int, wins: int, losses: int, points: real)

  const NO_TALLY := Tally(0, 0, 0, 0.0)

  datatype Card = Card(
    entries: int, wins: int, losses: int, timeouts: int,
    total: real, grossWin: real, grossLoss: real, maxWin: real, maxLoss: real,
    peak: real, maxDrawdown: real,
    byTrigger: map<string, Tally>, holds: map<Bucket, int>)

  const EMPTY_CARD := Card(0, 0, 0, 0, 0.0, 0.0, 0.0, 0.0, 0.0, 0.0, 0.0, map[], map[])

  /** A target hit counts as a win and a stop hit as a loss whatever the net
      result; a timeout counts by its sign. */
  predicate CountsAsWin(t: SimTrade, commission: real)
    requires t.exit.Some?
  {
    t.exit.value.reason == TakeProfit || (t.exit.value.reason == Timeout && Net(t, commission) >= 0.0)
  }

  function TallyOf(m: map<string, Tally>, key: string): Tally {
    if key in m then m[key] else NO_TALLY
  }

  function HoldsOf(m: map<Bucket, int>, key: Bucket): int {
    if key in m then m[key] else 0
  }

  function Bump(y: Tally, pnl: real): Tally {
    Tally(y.entries + 1, y.wins + (if pnl > 0.0 then 1 else 0), y.losses + (if pnl < 0.0 then 1 else 0), y.points + pnl)
  }

  function Enter(c: Card, t: SimTrade, commission: real): Card {
    if t.exit == None then c
    else
      var pnl := Net(t, commission);
      var win := CountsAsWin(t, commission);
      var total := c.total + pnl;
      var peak := MaxReal(c.peak, total);
      var bucket := BucketOf(HoldMinutes(t));
      Card(c.entries + 1,
           c.wins + (if win then 1 else 0), c.losses + (if win then 0 else 1),
           c.timeouts + (if t.exit.value.reason == Timeout then 1 else 0),
           total,
           c.grossWin + (if win then pnl else 0.0), c.grossLoss + (if win then 0.0 else pnl),
           if win then MaxReal(c.maxWin, pnl) else c.maxWin,
           if win then c.maxLoss else MinReal(c.maxLoss, pnl),
           peak, MaxReal(c.maxDrawdown, peak - total),
           c.byTrigger[t.trigger := Bump(TallyOf(c.byTrigger, t.trigger), pnl)],
           c.holds[bucket := HoldsOf(c.holds, bucket) + 1])
  }

  function ScoreOf(trades: seq<SimTrade>, commission: real): Card {
    if trades == [] then EMPTY_CARD
    else Enter(ScoreOf(trades[..|trades| - 1], commission), trades[|trades| - 1], commission)
  }

  // ----- The object -----

  class Scorecard {
    var entries: int
    var wins: int
    var losses: int
    var timeouts: int
    var totalPoints: real
    var grossWinPoints: real
    var grossLossPoints: real
    var maxWinPoints: real
    var maxLossPoints: real
    var peakEquity: real
    var maxDrawdownPoints: real
    var byTrigger: map<string, Tally>
    var holdMinutesDistribution: map<Bucket, int>

    constructor ()
      ensures State() == EMPTY_CARD
    {
      entries, wins, losses, timeouts := 0, 0, 0, 0;
      totalPoints, grossWinPoints, grossLossPoints := 0.0, 0.0, 0.0;
      maxWinPoints, maxLossPoints, peakEquity, maxDrawdownPoints := 0.0, 0.0, 0.0, 0.0;
      byTrigger, holdMinutesDistribution := map[], map[];
    }

    ghost function State(): Card
      reads this
    {
      Card(entries, wins, losses, timeouts, totalPoints, grossWinPoints, grossLossPoints,
           maxWinPoints, maxLossPoints, peakEquity, maxDrawdownPoints, byTrigger, holdMinutesDistribution)
    }

    method CountResult(reason: ExitReason, pnl: real)
      modifies `entries, `totalPoints, `timeouts, `wins, `losses,
               `grossWinPoints, `grossLossPoints, `maxWinPoints, `maxLossPoints
      ensures var win := reason == TakeProfit || (reason == Timeout && pnl >= 0.0);
        && entries == old(entries) + 1 && totalPoints == old(totalPoints) + pnl
        && timeouts == old(timeouts) + (if reason == Timeout then 1 else 0)
        && wins == old(wins) + (if win then 1 else 0)
        && losses == old(losses) + (if win then 0 else 1)
        && grossWinPoints == old(grossWinPoints) + (if win then pnl else 0.0)
        && grossLossPoints == old(grossLossPoints) + (if win then 0.0 else pnl)
        && maxWinPoints == (if win then MaxReal(old(maxWinPoints), pnl) else old(maxWinPoints))
        && maxLossPoints == (if win then old(maxLossPoints) else MinReal(old(maxLossPoints), pnl))
    {
      entries := entries + 1;
      totalPoints := totalPoints + pnl;
      if reason == Timeout {
        timeouts := timeouts + 1;
      }
      if reason == TakeProfit || (reason == Timeout && pnl >= 0.0) {
        wins := wins + 1;
        grossWinPoints := grossWinPoints + pnl;
        maxWinPoints := MaxReal(maxWinPoints, pnl);
      } else {
        losses := losses + 1;
        grossLossPoints := grossLossPoints + pnl;
        maxLossPoints := MinReal(maxLossPoints, pnl);
      }
    }

    method TrackEquity()
      modifies `peakEquity, `maxDrawdownPoints
      ensures peakEquity == MaxReal(old(peakEquity), totalPoints)
      ensures maxDrawdownPoints == MaxReal(old(maxDrawdownPoints), peakEquity - totalPoints)
    {
      peakEquity := MaxReal(peakEquity, totalPoints);
      maxDrawdownPoints := MaxReal(maxDrawdownPoints, peakEquity - totalPoints);
    }

    method RecordTrade(t: SimTrade, commission: real) returns (net: real)
      modifies this
      ensures State() == Enter(old(State()), t, commission)
      ensures net == if t.exit == None then 0.0 else Net(t, commission)
    {
      if t.exit == None {
        return 0.0;
      }
      net := PnlPoints(t) - commission;
      CountResult(t.exit.value.reason, net);
      TrackEquity();
      byTrigger := byTrigger[t.trigger := Bump(TallyOf(byTrigger, t.trigger), net)];
      var bucket := BucketOf(Max(1, (t.exit.value.time - t.entryTime) / 60));
      holdMinutesDistribution := holdMinutesDistribution[bucket := HoldsOf(holdMinutesDistribution, bucket) + 1];
    }
  }

  // ----- What the tallies mean -----

  ghost predicate AllClosed(trades: seq<SimTrade>) {
    forall k :: 0 <= k < |trades| ==> trades[k].exit.Some?
  }

  /** The total after the first `n` trades. */
  function Prefix(trades: seq<SimTrade>, commission: real, n: nat): real
    requires n <= |trades|
  {
    if n == 0 then 0.0 else Prefix(trades, commission, n - 1) + Net(trades[n - 1], commission)
  }

  /** `top` is the largest fall of the running total, from zero or from any
      earlier point, and some fall attains it. */
  ghost predicate IsLargestFall(trades: seq<SimTrade>, commission: real, top: real) {
    && (forall i, j :: 0 <= i <= j <= |trades| ==>
          Prefix(trades, commission, i) - Prefix(trades, commission, j) <= top)
    && (exists i, j :: 0 <= i <= j <= |trades|
          && Prefix(trades, commission, i) - Prefix(trades, commission, j) == top)
  }

  lemma {:induction false} PrefixOfPrefix(trades: seq<SimTrade>, commission: real, m: nat, n: nat)
    requires n <= m <= |trades|
    ensures Prefix(trades[..m], commission, n) == Prefix(trades, commission, n)
  {
    if n == 0 {
    } else {
      PrefixOfPrefix(trades, commission, m, n - 1);
    }
  }

  ghost predicate TracksPeak(trades: seq<SimTrade>, commission: real, c: Card) {
    && c.total == Prefix(trades, commission, |trades|)
    && (forall i :: 0 <= i <= |trades| ==> Prefix(trades, commission, i) <= c.peak)
    && (exists i :: 0 <= i <= |trades| && Prefix(trades, commission, i) == c.peak)
  }

  lemma {:induction false} PrefixesAgree(trades: seq<SimTrade>, commission: real, n: nat)
    requires n <= |trades|
    ensures forall i :: 0 <= i <= n ==> Prefix(trades[..n], commission, i) == Prefix(trades, commission, i)
  {
    forall i | 0 <= i <= n
      ensures Prefix(trades[..n], commission, i) == Prefix(trades, commission, i)
    {
      PrefixOfPrefix(trades, commission, n, i);
    }
  }

  lemma {:induction false} PeakStep(trades: seq<SimTrade>, commission: real, c: Card, c': Card)
    requires trades != [] && TracksPeak(trades[..|trades| - 1], commission, c)
    requires c'.total == c.total + Net(trades[|trades| - 1], commission)
    requires c'.peak == MaxReal(c.peak, c'.total)
    ensures TracksPeak(trades, commission, c')
  {
    var n := |trades| - 1;
    PrefixesAgree(trades, commission, n);
    var p :| 0 <= p <= n && Prefix(trades[..n], commission, p) == c.peak;
    assert c'.total == Prefix(trades, commission, n + 1);
    assert c'.peak == Prefix(trades, commission, if c'.peak == c.peak then p else n + 1);
  }

  lemma {:induction false} FallStep(trades: seq<SimTrade>, commission: real, top: real, c': Card)
    requires trades != [] && TracksPeak(trades, commission, c')
    requires IsLargestFall(trades[..|trades| - 1], commission, top)
    requires c'.maxDrawdown == MaxReal(top, c'.peak - c'.total)
    ensures IsLargestFall(trades, commission, c'.maxDrawdown)
  {
    var n := |trades| - 1;
    PrefixesAgree(trades, commission, n);
    forall i, j | 0 <= i <= j <= n + 1
      ensures Prefix(trades, commission, i) - Prefix(trades, commission, j) <= c'.maxDrawdown
    {
      if j <= n {
        assert Prefix(trades[..n], commission, i) - Prefix(trades[..n], commission, j) <= top;
      } else {
        assert Prefix(trades, commission, i) <= c'.peak;
      }
    }
    if c'.maxDrawdown == top {
      var i, j :| 0 <= i <= j <= n && Prefix(trades[..n], commission, i) - Prefix(trades[..n], commission, j) == top;
      assert Prefix(trades, commission, i) - Prefix(trades, commission, j) == c'.maxDrawdown;
    } else {
      var p :| 0 <= p <= n + 1 && Prefix(trades, commission, p) == c'.peak;
      assert Prefix(trades, commission, p) - Prefix(trades, commission, n + 1) == c'.maxDrawdown;
    }
  }

  /** The one-pass drawdown is the largest fall of the running total. */
  lemma {:induction false} DrawdownIsLargestFall(trades: seq<SimTrade>, commission: real)
    requires AllClosed(trades)
    ensures TracksPeak(trades, commission, ScoreOf(trades, commission))
    ensures IsLargestFall(trades, commission, ScoreOf(trades, commission).maxDrawdown)
  {
    if trades == [] {
      assert Prefix(trades, commission, 0) - Prefix(trades, commission, 0) == 0.0;
    } else {
      var n := |trades| - 1;
      DrawdownIsLargestFall(trades[..n], commission);
      var c, c' := ScoreOf(trades[..n], commission), ScoreOf(trades, commission);
      PeakStep(trades, commission, c, c');
      FallStep(trades, commission, c.maxDrawdown, c');
    }
  }

  /** The totals add up. */
  lemma {:induction false} TotalsAddUp(trades: seq<SimTrade>, commission: real)
    ensures var c := ScoreOf(trades, commission);
      && c.total == c.grossWin + c.grossLoss
      && c.entries == c.wins + c.losses
      && c.timeouts <= c.entries
  {
    if trades == [] {
    } else {
      TotalsAddUp(trades[..|trades| - 1], commission);
    }
  }

  // ----- Counts against the list of trades -----

  /** The sum of the net results. */
  function Sum(trades: seq<SimTrade>, commission: real): real {
    Prefix(trades, commission, |trades|)
  }

  lemma {:induction false} SumSnoc(trades: seq<SimTrade>, t: SimTrade, commission: real)
    ensures Sum(trades + [t], commission) == Sum(trades, commission) + Net(t, commission)
  {
    var all := trades + [t];
    assert all[..|trades|] == trades;
    PrefixOfPrefix(all, commission, |trades|, |trades|);
  }

  function Won(commission: real): SimTrade -> bool {
    (t: SimTrade) => t.exit.Some? && CountsAsWin(t, commission)
  }

  function Lost(commission: real): SimTrade -> bool {
    (t: SimTrade) => t.exit.Some? && !CountsAsWin(t, commission)
  }

  predicate TimedOut(t: SimTrade) {
    t.exit.Some? && t.exit.value.reason == Timeout
  }

  lemma {:induction false} FilterSnoc(trades: seq<SimTrade>, keep: SimTrade -> bool)
    requires trades != []
    ensures var n := |trades| - 1;
      Filter(trades, keep) == if keep(trades[n]) then Filter(trades[..n], keep) + [trades[n]] else Filter(trades[..n], keep)
  {
    var n := |trades| - 1;
    assert trades == trades[..n] + [trades[n]];
    FilterConcat(trades[..n], [trades[n]], keep);
  }

  ghost predicate SplitsExactly(trades: seq<SimTrade>, commission: real, c: Card) {
    && c.wins == |Filter(trades, Won(commission))| && c.grossWin == Sum(Filter(trades, Won(commission)), commission)
    && c.losses == |Filter(trades, Lost(commission))| && c.grossLoss == Sum(Filter(trades, Lost(commission)), commission)
    && c.timeouts == |Filter(trades, TimedOut)|
  }

  /** Wins and losses count exactly the trades that won or lost, and the gross
      points are exactly their sums. */
  lemma {:induction false} WinsAndLossesAreExact(trades: seq<SimTrade>, commission: real)
    ensures SplitsExactly(trades, commission, ScoreOf(trades, commission))
  {
    if trades == [] {
    } else {
      var n := |trades| - 1;
      WinsAndLossesAreExact(trades[..n], commission);
      FilterSnoc(trades, Won(commission));
      FilterSnoc(trades, Lost(commission));
      FilterSnoc(trades, TimedOut);
      SumSnoc(Filter(trades[..n], Won(commission)), trades[n], commission);
      SumSnoc(Filter(trades[..n], Lost(commission)), trades[n], commission);
    }
  }

  /** `top` is the largest of `sign` times the net results, and zero if none is larger. */
  ghost predicate IsExtreme(trades: seq<SimTrade>, commission: real, sign: real, top: real) {
    && (forall t :: t in trades ==> sign * Net(t, commission) <= top)
    && (top == 0.0 || exists t :: t in trades && sign * Net(t, commission) == top)
  }

  lemma {:induction false} ExtremeSnoc(trades: seq<SimTrade>, t: SimTrade, commission: real, sign: real, top: real)
    requires IsExtreme(trades, commission, sign, top)
    ensures IsExtreme(trades + [t], commission, sign, MaxReal(top, sign * Net(t, commission)))
  {
    hide Net;
    var all, next := trades + [t], MaxReal(top, sign * Net(t, commission));
    assert t in all;
    forall x | x in all
      ensures sign * Net(x, commission) <= next
    {
      if x != t {
        assert x in trades;
      }
    }
    if next == 0.0 {
    } else if next == top {
      var s :| s in trades && sign * Net(s, commission) == top;
      assert s in all;
    } else {
      assert sign * Net(t, commission) == next;
    }
  }

  lemma {:induction false} EnterExtremes(c: Card, t: SimTrade, commission: real)
    ensures var c' := Enter(c, t, commission);
      && c'.maxWin == (if Won(commission)(t) then MaxReal(c.maxWin, Net(t, commission)) else c.maxWin)
      && c'.maxLoss == (if Lost(commission)(t) then MinReal(c.maxLoss, Net(t, commission)) else c.maxLoss)
  {
  }

  ghost predicate HoldsExtremes(trades: seq<SimTrade>, commission: real, c: Card) {
    && IsExtreme(Filter(trades, Won(commission)), commission, 1.0, c.maxWin)
    && IsExtreme(Filter(trades, Lost(commission)), commission, -1.0, -c.maxLoss)
  }

  lemma {:induction false} ExtremesStep(trades: seq<SimTrade>, commission: real, c: Card)
    requires trades != [] && HoldsExtremes(trades[..|trades| - 1], commission, c)
    ensures HoldsExtremes(trades, commission, Enter(c, trades[|trades| - 1], commission))
  {
    hide Filter;
    hide IsExtreme;
    hide Enter;
    hide Net;
    hide CountsAsWin;
    var n := |trades| - 1;
    EnterExtremes(c, trades[n], commission);
    FilterSnoc(trades, Won(commission));
    FilterSnoc(trades, Lost(commission));
    ExtremeSnoc(Filter(trades[..n], Won(commission)), trades[n], commission, 1.0, c.maxWin);
    ExtremeSnoc(Filter(trades[..n], Lost(commission)), trades[n], commission, -1.0, -c.maxLoss);
  }

  /** The largest win and the largest loss are those of the winning and the
      losing trades, or zero. */
  lemma {:induction false} ExtremesAreExact(trades: seq<SimTrade>, commission: real)
    ensures HoldsExtremes(trades, commission, ScoreOf(trades, commission))
  {
    if trades == [] {
    } else {
      ExtremesAreExact(trades[..|trades| - 1], commission);
      ExtremesStep(trades, commission, ScoreOf(trades[..|trades| - 1], commission));
    }
  }

  // ----- Per-trigger and per-bucket tallies -----

  function ByTrigger(trigger: string): SimTrade -> bool {
    (t: SimTrade) => t.trigger == trigger
  }

  function Gains(commission: real): SimTrade -> bool {
    (t: SimTrade) => Net(t, commission) > 0.0
  }

  function Loses(commission: real): SimTrade -> bool {
    (t: SimTrade) => Net(t, commission) < 0.0
  }

  /** The tally a trigger should have: that of its own trades, counted by sign. */
  function TallyFor(trades: seq<SimTrade>, commission: real, trigger: string): Tally {
    var own := Filter(trades, ByTrigger(trigger));
    Tally(|own|, |Filter(own, Gains(commission))|, |Filter(own, Loses(commission))|, Sum(own, commission))
  }

  function HeldIn(b: Bucket): SimTrade -> bool {
    (t: SimTrade) => t.exit.Some? && BucketOf(HoldMinutes(t)) == b
  }

  lemma {:induction false} TallyStep(trades: seq<SimTrade>, commission: real, trigger: string)
    requires trades != []
    ensures var n := |trades| - 1;
      var before := TallyFor(trades[..n], commission, trigger);
      TallyFor(trades, commission, trigger)
      == if trades[n].trigger == trigger then Bump(before, Net(trades[n], commission)) else before
  {
    var n := |trades| - 1;
    var own, all := Filter(trades[..n], ByTrigger(trigger)), Filter(trades, ByTrigger(trigger));
    FilterSnoc(trades, ByTrigger(trigger));
    if trades[n].trigger == trigger {
      assert all == own + [trades[n]] && all[..|own|] == own;
      FilterSnoc(all, Gains(commission));
      FilterSnoc(all, Loses(commission));
      SumSnoc(own, trades[n], commission);
    }
  }

  /** Each trigger's row covers exactly its own trades, and each hold bucket
      counts exactly the trades held that long. */
  lemma {:induction false} TalliesPartition(trades: seq<SimTrade>, commission: real)
    requires AllClosed(trades)
    ensures var c := ScoreOf(trades, commission);
      && (forall trigger :: TallyOf(c.byTrigger, trigger) == TallyFor(trades, commission, trigger))
      && (forall b :: HoldsOf(c.holds, b) == |Filter(trades, HeldIn(b))|)
  {
    if trades == [] {
    } else {
      var n := |trades| - 1;
      var c := ScoreOf(trades, commission);
      TalliesPartition(trades[..n], commission);
      forall trigger
        ensures TallyOf(c.byTrigger, trigger) == TallyFor(trades, commission, trigger)
      {
        TallyStep(trades, commission, trigger);
      }
      forall b
        ensures HoldsOf(c.holds, b) == |Filter(trades, HeldIn(b))|
      {
        FilterSnoc(trades, HeldIn(b));
      }
    }
  }

  function Add(a: Tally, b: Tally): Tally {
    Tally(a.entries + b.entries, a.wins + b.wins, a.losses + b.losses, a.points + b.points)
  }

  ghost predicate Distinct<T>(s: seq<T>) {
    forall i, j :: 0 <= i < j < |s| ==> s[i] != s[j]
  }

  function SumTallies(m: map<string, Tally>, keys: seq<string>): Tally {
    if keys == [] then NO_TALLY else Add(TallyOf(m, keys[0]), SumTallies(m, keys[1..]))
  }

  lemma {:induction false} SumWithout(m: map<string, Tally>, keys: seq<string>, key: string, y: Tally)
    requires key !in keys
    ensures SumTallies(m[key := y], keys) == SumTallies(m, keys)
  {
    if keys == [] {
    } else {
      SumWithout(m, keys[1..], key, y);
    }
  }

  lemma {:induction false} BumpAdds(a: Tally, b: Tally, pnl: real)
    ensures Add(Bump(a, pnl), b) == Bump(Add(a, b), pnl) == Add(a, Bump(b, pnl))
  {
  }

  lemma {:induction false} SumAfterBump(m: map<string, Tally>, keys: seq<string>, key: string, pnl: real)
    requires Distinct(keys) && key in keys
    ensures SumTallies(m[key := Bump(TallyOf(m, key), pnl)], keys) == Bump(SumTallies(m, keys), pnl)
  {
    var y := Bump(TallyOf(m, key), pnl);
    if keys[0] == key {
      SumWithout(m, keys[1..], key, y);
      BumpAdds(TallyOf(m, key), SumTallies(m, keys[1..]), pnl);
    } else {
      SumAfterBump(m, keys[1..], key, pnl);
      BumpAdds(TallyOf(m, keys[0]), SumTallies(m, keys[1..]), pnl);
    }
  }

  /** Summed over any listing of the triggers, the per-trigger rows give the
      totals of the card. */
  lemma {:induction false} TriggersSumToTotals(trades: seq<SimTrade>, commission: real, keys: seq<string>)
    requires AllClosed(trades) && Distinct(keys)
    requires forall k :: 0 <= k < |trades| ==> trades[k].trigger in keys
    ensures var c := ScoreOf(trades, commission);
      var all := SumTallies(c.byTrigger, keys);
      all.entries == c.entries && all.points == c.total
  {
    if trades == [] {
      EmptyTallies(keys);
    } else {
      var n := |trades| - 1;
      TriggersSumToTotals(trades[..n], commission, keys);
      SumAfterBump(ScoreOf(trades[..n], commission).byTrigger, keys, trades[n].trigger, Net(trades[n], commission));
    }
  }

  lemma {:induction false} EmptyTallies(keys: seq<string>)
    ensures SumTallies(map[], keys) == NO_TALLY
  {
    if keys == [] {
    } else {
      EmptyTallies(keys[1..]);
    }
  }

  function SumHolds(h: map<Bucket, int>): int {
    HoldsOf(h, UpTo5m) + HoldsOf(h, UpTo15m) + HoldsOf(h, UpTo30m) + HoldsOf(h, UpTo60m)
    + HoldsOf(h, UpTo120m) + HoldsOf(h, UpTo240m) + HoldsOf(h, Over240m)
  }

  lemma {:induction false} SumHoldsStep(h: map<Bucket, int>, b: Bucket)
    ensures SumHolds(h[b := HoldsOf(h, b) + 1]) == SumHolds(h) + 1
  {
    var h' := h[b := HoldsOf(h, b) + 1];
    assert forall x :: HoldsOf(h', x) == HoldsOf(h, x) + if x == b then 1 else 0;
  }

  /** The hold buckets sum to the number of trades. */
  lemma {:induction false} BucketsSumToEntries(trades: seq<SimTrade>, commission: real)
    requires AllClosed(trades)
    ensures SumHolds(ScoreOf(trades, commission).holds) == ScoreOf(trades, commission).entries == |trades|
  {
    if trades == [] {
    } else {
      var n := |trades| - 1;
      BucketsSumToEntries(trades[..n], commission);
      SumHoldsStep(ScoreOf(trades[..n], commission).holds, BucketOf(HoldMinutes(trades[n])));
    }
  }

  // ----- Results in prices and buckets in seconds -----

  /** What the trades were sold for: the exits of longs and the entries of shorts. */
  function SoldFor(trades: seq<SimTrade>): real
    requires AllClosed(trades)
  {
    if trades == [] then 0.0
    else
      var n := |trades| - 1;
      SoldFor(trades[..n]) + if trades[n].direction == Long then trades[n].exit.value.price else trades[n].entryPrice
  }

  /** What they were bought for. */
  function BoughtFor(trades: seq<SimTrade>): real
    requires AllClosed(trades)
  {
    if trades == [] then 0.0
    else
      var n := |trades| - 1;
      BoughtFor(trades[..n]) + if trades[n].direction == Long then trades[n].entryPrice else trades[n].exit.value.price
  }

  lemma {:induction false} TotalSnoc(trades: seq<SimTrade>, commission: real)
    requires trades != [] && AllClosed(trades)
    ensures var n := |trades| - 1;
      var t := trades[n];
      ScoreOf(trades, commission).total == ScoreOf(trades[..n], commission).total
        + (if t.direction == Long then t.exit.value.price - t.entryPrice else t.entryPrice - t.exit.value.price) - commission
  {
    assert trades[|trades| - 1].exit.Some?;
  }

  lemma {:induction false} FlowsSnoc(trades: seq<SimTrade>)
    requires trades != [] && AllClosed(trades)
    ensures var n := |trades| - 1;
      var t := trades[n];
      SoldFor(trades) - BoughtFor(trades) == SoldFor(trades[..n]) - BoughtFor(trades[..n])
        + (if t.direction == Long then t.exit.value.price - t.entryPrice else t.entryPrice - t.exit.value.price)
  {
  }

  lemma {:induction false} OneMoreCommission(total: real, flow: real, n: nat, move: real, commission: real)
    requires total == flow - n as real * commission
    ensures total + move - commission == flow + move - (n + 1) as real * commission
  {
  }

  ghost predicate IsSalesLessPurchases(trades: seq<SimTrade>, commission: real)
    requires AllClosed(trades)
  {
    ScoreOf(trades, commission).total == SoldFor(trades) - BoughtFor(trades) - |trades| as real * commission
  }

  lemma {:induction false} OneMoreSale(trades: seq<SimTrade>, commission: real)
    requires trades != [] && AllClosed(trades) && AllClosed(trades[..|trades| - 1])
    requires IsSalesLessPurchases(trades[..|trades| - 1], commission)
    ensures IsSalesLessPurchases(trades, commission)
  {
    hide ScoreOf;
    hide SoldFor;
    hide BoughtFor;
    hide AllClosed;
    var n := |trades| - 1;
    var t, before := trades[n], trades[..n];
    TotalSnoc(trades, commission);
    FlowsSnoc(trades);
    var move := SoldFor(trades) - BoughtFor(trades) - (SoldFor(before) - BoughtFor(before));
    OneMoreCommission(ScoreOf(before, commission).total, SoldFor(before) - BoughtFor(before), n, move, commission);
  }

  /** The total is all sales less all purchases, less one commission a trade. */
  lemma {:induction false} TotalIsSalesLessPurchases(trades: seq<SimTrade>, commission: real)
    requires AllClosed(trades)
    ensures IsSalesLessPurchases(trades, commission)
  {
    if trades == [] {
    } else {
      TotalIsSalesLessPurchases(trades[..|trades| - 1], commission);
      hide IsSalesLessPurchases;
      OneMoreSale(trades, commission);
    }
  }

  /** A trade is won when it left at its target, or timed out having moved in its
      favour by at least the commission; a stop loses whatever it made. */
  lemma {:induction false} WonByReasonAndMove(t: SimTrade, commission: real)
    requires t.exit.Some?
    ensures var e := t.exit.value;
      Won(commission)(t) <==>
        || e.reason == TakeProfit
        || (e.reason == Timeout && t.direction == Long && e.price >= t.entryPrice + commission)
        || (e.reason == Timeout && t.direction == Short && e.price <= t.entryPrice - commission)
    ensures Lost(commission)(t) <==> !Won(commission)(t)
  {
  }

  /** The shortest holding time of a bucket, in seconds. */
  function BucketStart(b: Bucket): int {
    match b
    case UpTo5m => 0
    case UpTo15m => 6 * 60
    case UpTo30m => 16 * 60
    case UpTo60m => 31 * 60
    case UpTo120m => 61 * 60
    case UpTo240m => 121 * 60
    case Over240m => 241 * 60
  }

  /** The number of whole minutes decides the bucket: one with the upper bound m
      ends just before minute m + 1 of the trade is over. */
  lemma {:induction false} BucketsByHeldSeconds(t: SimTrade, b: Bucket)
    requires t.exit.Some? && t.entryTime <= t.exit.value.time
    ensures var held := t.exit.value.time - t.entryTime;
      HeldIn(b)(t) <==>
        BucketStart(b) <= held
        && forall longer: Bucket :: BucketStart(longer) > BucketStart(b) ==> held < BucketStart(longer)
  {
    var held := t.exit.value.time - t.entryTime;
    var m := held / 60;
    assert m * 60 <= held < m * 60 + 60;
    assert forall c: Bucket :: BucketStart(c) <= held <==> BucketStart(c) / 60 <= m;
    var actual := BucketOf(HoldMinutes(t));
    assert BucketStart(actual) <= held;
    assert forall longer: Bucket :: BucketStart(longer) > BucketStart(actual) ==> held < BucketStart(longer);
    assert actual == b <==> BucketStart(actual) == BucketStart(b);
  }
}
