/** The drawdown of a list of trade results
    (scripts/backtesting/backtest_engine.py, `compute_metrics`): the least
    difference between the running total and its own running maximum. */
module Metrics {
  import opened Common

  /** The running total after `n` trades. */
  function Cumulative(pnl: seq<real>, n: nat): real
    requires n <= |pnl|
  {
    if n == 0 then 0.0 else Cumulative(pnl, n - 1) + pnl[n - 1]
  }

  /** The running maximum starts at the first trade, not at zero. */
  function RunningMax(pnl: seq<real>, n: nat): real
    requires 1 <= n <= |pnl|
  {
    if n == 1 then Cumulative(pnl, 1) else MaxReal(RunningMax(pnl, n - 1), Cumulative(pnl, n))
  }

  /** The least drawdown among the first `n` trades. */
  function MaxDrawdown(pnl: seq<real>, n: nat): real
    requires 1 <= n <= |pnl|
  {
    var dip := Cumulative(pnl, n) - RunningMax(pnl, n);
    if n == 1 then dip else MinReal(MaxDrawdown(pnl, n - 1), dip)
  }

  lemma {:induction false} RunningMaxIsMax(pnl: seq<real>, n: nat)
    requires 1 <= n <= |pnl|
    ensures forall i :: 1 <= i <= n ==> Cumulative(pnl, i) <= RunningMax(pnl, n)
    ensures exists i :: 1 <= i <= n && Cumulative(pnl, i) == RunningMax(pnl, n)
  {
    if n > 1 {
      RunningMaxIsMax(pnl, n - 1);
      var p :| 1 <= p <= n - 1 && Cumulative(pnl, p) == RunningMax(pnl, n - 1);
      assert Cumulative(pnl, if RunningMax(pnl, n) == RunningMax(pnl, n - 1) then p else n) == RunningMax(pnl, n);
    } else {
      assert Cumulative(pnl, 1) == RunningMax(pnl, 1);
    }
  }

  /** `dip` is the worst change between two of the first `n` trades. */
  ghost predicate IsWorstDip(pnl: seq<real>, n: nat, dip: real)
    requires n <= |pnl|
  {
    && (forall i, j :: 1 <= i <= j <= n ==> dip <= Cumulative(pnl, j) - Cumulative(pnl, i))
    && (exists i, j :: 1 <= i <= j <= n && dip == Cumulative(pnl, j) - Cumulative(pnl, i))
  }

  lemma {:induction false} DipFromPeak(pnl: seq<real>, n: nat)
    requires 1 <= n <= |pnl|
    ensures exists i :: 1 <= i <= n && RunningMax(pnl, n) == Cumulative(pnl, i)
    ensures forall i :: 1 <= i <= n ==>
      Cumulative(pnl, n) - RunningMax(pnl, n) <= Cumulative(pnl, n) - Cumulative(pnl, i)
  {
    RunningMaxIsMax(pnl, n);
  }

  lemma {:induction false} FirstDip(pnl: seq<real>)
    requires pnl != []
    ensures IsWorstDip(pnl, 1, MaxDrawdown(pnl, 1))
  {
    assert MaxDrawdown(pnl, 1) == Cumulative(pnl, 1) - Cumulative(pnl, 1);
  }

  lemma {:induction false} NextDip(pnl: seq<real>, n: nat, before: real)
    requires 2 <= n <= |pnl| && IsWorstDip(pnl, n - 1, before)
    ensures IsWorstDip(pnl, n, MinReal(before, Cumulative(pnl, n) - RunningMax(pnl, n)))
  {
    DipFromPeak(pnl, n);
    hide RunningMax;
    hide Cumulative;
    var p :| 1 <= p <= n && RunningMax(pnl, n) == Cumulative(pnl, p);
    var dip := Cumulative(pnl, n) - RunningMax(pnl, n);
    if before > dip {
      assert dip == Cumulative(pnl, n) - Cumulative(pnl, p);
    }
  }

  /** The reported drawdown is the worst change between any two trades, and no gain. */
  lemma {:induction false} DrawdownIsWorstDip(pnl: seq<real>, n: nat)
    requires 1 <= n <= |pnl|
    ensures IsWorstDip(pnl, n, MaxDrawdown(pnl, n)) && MaxDrawdown(pnl, n) <= 0.0
  {
    hide IsWorstDip;
    hide Cumulative;
    hide RunningMax;
    if n == 1 {
      FirstDip(pnl);
      DipIsNoGain(pnl, 1);
    } else {
      DrawdownIsWorstDip(pnl, n - 1);
      NextDip(pnl, n, MaxDrawdown(pnl, n - 1));
    }
  }

  lemma {:induction false} DipIsNoGain(pnl: seq<real>, n: nat)
    requires 1 <= n <= |pnl|
    ensures Cumulative(pnl, n) - RunningMax(pnl, n) <= 0.0
  {
    RunningMaxIsMax(pnl, n);
  }

  /** No fall of the total, counted from the starting zero as well, is deeper
      than `depth`. */
  ghost predicate BoundsEveryFall(pnl: seq<real>, depth: real) {
    forall i, j :: 0 <= i <= j <= |pnl| ==> Cumulative(pnl, i) - Cumulative(pnl, j) <= depth
  }

  /** Between two trades, in order, the total falls by at least `loss`. */
  ghost predicate FallsBetweenTrades(pnl: seq<real>, loss: real) {
    exists a, b :: 1 <= a <= b <= |pnl| && Cumulative(pnl, a) - Cumulative(pnl, b) >= loss
  }

  /** Every dip below the start is matched by a fall at least as deep between two
      trades. */
  ghost predicate DipsAreMatched(pnl: seq<real>) {
    forall j :: 1 <= j <= |pnl| && Cumulative(pnl, j) < 0.0 ==> FallsBetweenTrades(pnl, -Cumulative(pnl, j))
  }

  /** Between trades the total falls by `loss` exactly when the drawdown is that deep. */
  lemma {:induction false} DeepestFall(pnl: seq<real>, loss: real)
    requires pnl != []
    ensures FallsBetweenTrades(pnl, loss) <==> -MaxDrawdown(pnl, |pnl|) >= loss
  {
    DrawdownIsWorstDip(pnl, |pnl|);
    hide MaxDrawdown;
    hide Cumulative;
    if -MaxDrawdown(pnl, |pnl|) >= loss {
      var a, b :| 1 <= a <= b <= |pnl| && MaxDrawdown(pnl, |pnl|) == Cumulative(pnl, b) - Cumulative(pnl, a);
      assert Cumulative(pnl, a) - Cumulative(pnl, b) >= loss;
    }
  }

  lemma {:induction false} CoveredDipsAreMatched(pnl: seq<real>)
    requires pnl != [] && BoundsEveryFall(pnl, -MaxDrawdown(pnl, |pnl|))
    ensures DipsAreMatched(pnl)
  {
    hide MaxDrawdown;
    hide FallsBetweenTrades;
    assert Cumulative(pnl, 0) == 0.0;
    forall j | 1 <= j <= |pnl| && Cumulative(pnl, j) < 0.0
      ensures FallsBetweenTrades(pnl, -Cumulative(pnl, j))
    {
      assert Cumulative(pnl, 0) - Cumulative(pnl, j) <= -MaxDrawdown(pnl, |pnl|);
      DeepestFall(pnl, -Cumulative(pnl, j));
    }
  }

  lemma {:induction false} MatchedDipsAreCovered(pnl: seq<real>)
    requires pnl != [] && DipsAreMatched(pnl)
    ensures BoundsEveryFall(pnl, -MaxDrawdown(pnl, |pnl|))
  {
    DrawdownIsWorstDip(pnl, |pnl|);
    hide MaxDrawdown;
    hide FallsBetweenTrades;
    assert Cumulative(pnl, 0) == 0.0;
    hide Cumulative;
    forall i, j | 0 <= i <= j <= |pnl|
      ensures Cumulative(pnl, i) - Cumulative(pnl, j) <= -MaxDrawdown(pnl, |pnl|)
    {
      if i == 0 {
        if j >= 1 && Cumulative(pnl, j) < 0.0 {
          DeepestFall(pnl, -Cumulative(pnl, j));
        }
      } else {
        assert MaxDrawdown(pnl, |pnl|) <= Cumulative(pnl, j) - Cumulative(pnl, i);
      }
    }
  }

  /** The reported drawdown bounds every fall, those from the start included,
      exactly when every dip below the start is matched between two trades. */
  lemma {:induction false} DrawdownCoversStartExactlyWhen(pnl: seq<real>)
    requires pnl != []
    ensures BoundsEveryFall(pnl, -MaxDrawdown(pnl, |pnl|)) <==> DipsAreMatched(pnl)
  {
    if BoundsEveryFall(pnl, -MaxDrawdown(pnl, |pnl|)) {
      CoveredDipsAreMatched(pnl);
    }
    if DipsAreMatched(pnl) {
      MatchedDipsAreCovered(pnl);
    }
  }

  /** A single losing trade is reported as no drawdown at all. */
  lemma {:induction false} FirstLossIsInvisible(loss: real)
    requires loss < 0.0
    ensures MaxDrawdown([loss], 1) == 0.0 && !BoundsEveryFall([loss], -MaxDrawdown([loss], 1))
  {
    assert Cumulative([loss], 1) == loss;
    assert Cumulative([loss], 0) - Cumulative([loss], 1) > 0.0;
  }
}
