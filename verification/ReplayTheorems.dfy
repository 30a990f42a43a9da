/** What the replay gate promises: the bounded forward window never changes an
    exit, concurrency never exceeds its cap, and slippage changes no decision. */
module ReplayTheorems {
  import opened Common
  import opened Scoring
  import opened Replay

  // ----- First decision -----

  /** The first decision is that of the first bar that decides anything. */
  lemma {:induction false} FirstDecisionIsFirst(t: SimTrade, cs: seq<Candle>, deadline: int, slippage: real)
    ensures var d := FirstDecided(t, cs, deadline, slippage);
      || (d == None && forall k :: 0 <= k < |cs| ==> Decide(t, cs[k], deadline, slippage) == None)
      || (exists k :: 0 <= k < |cs| && d.Some? && Decide(t, cs[k], deadline, slippage) == d
            && forall j :: 0 <= j < k ==> Decide(t, cs[j], deadline, slippage) == None)
  {
    if cs == [] {
    } else {
      var d := Decide(t, cs[0], deadline, slippage);
      if d == None {
        FirstDecisionIsFirst(t, cs[1..], deadline, slippage);
        var e := FirstDecided(t, cs[1..], deadline, slippage);
        if e.Some? {
          var k :| 0 <= k < |cs[1..]| && Decide(t, cs[1..][k], deadline, slippage) == e
            && forall j :: 0 <= j < k ==> Decide(t, cs[1..][j], deadline, slippage) == None;
          assert forall j :: 0 < j < k + 1 ==> cs[j] == cs[1..][j - 1];
          assert Decide(t, cs[k + 1], deadline, slippage) == e;
        } else {
          assert forall k :: 0 < k < |cs| ==> cs[k] == cs[1..][k - 1];
        }
      }
    }
  }

  // ----- The bounded window -----

  ghost predicate SpacedBy(rows: seq<Candle>, seconds: int) {
    forall k :: 0 < k < |rows| ==> rows[k].time - rows[k - 1].time >= seconds
  }

  lemma {:induction false} SpacedFrom(rows: seq<Candle>, seconds: int, i: nat, m: nat)
    requires SpacedBy(rows, seconds) && i + m < |rows|
    ensures rows[i + m].time >= rows[i].time + m * seconds
  {
    if m == 0 {
    } else {
      SpacedFrom(rows, seconds, i, m - 1);
      assert m * seconds == (m - 1) * seconds + seconds;
    }
  }

  lemma {:induction false} DecidedPrefix(t: SimTrade, a: seq<Candle>, b: seq<Candle>, deadline: int, slippage: real)
    requires FirstDecided(t, a, deadline, slippage).Some?
    ensures FirstDecided(t, a + b, deadline, slippage) == FirstDecided(t, a, deadline, slippage)
  {
    assert (a + b)[0] == a[0] && (a + b)[1..] == a[1..] + b;
    if Decide(t, a[0], deadline, slippage) == None {
      DecidedPrefix(t, a[1..], b, deadline, slippage);
    }
  }

  lemma {:induction false} LateBarDecides(t: SimTrade, cs: seq<Candle>, k: nat, deadline: int, slippage: real)
    requires k < |cs| && cs[k].time > t.entryTime && cs[k].time >= deadline
    ensures FirstDecided(t, cs, deadline, slippage).Some?
  {
    if k == 0 {
    } else {
      LateBarDecides(t, cs[1..], k - 1, deadline, slippage);
    }
  }

  lemma {:induction false} LessByFactor(a: int, b: int, k: int)
    requires k > 0 && a * k > b * k
    ensures a > b
  {
    assert (a - b) * k > 0;
  }

  lemma {:induction false} WindowPassesDeadline(maxHold: int, tf: int)
    requires tf > 0 && maxHold >= -tf
    ensures maxHold / tf + 2 >= 1
    ensures (maxHold / tf + 2) * (tf * 60) > maxHold * 60
  {
    var q := maxHold / tf;
    assert maxHold < q * tf + tf == (q + 1) * tf;
    LessByFactor(q + 1, -1, tf);
    assert (q + 2) * (tf * 60) == ((q + 1) * tf + tf) * 60;
  }

  /** With candles at least one timeframe apart, the exit found in the bounded
      window is the exit the whole remaining history would give, for every hold
      limit down to minus one timeframe. */
  lemma {:induction false} BoundedWindowIsEnough(t: SimTrade, rows: seq<Candle>, i: nat, p: Params)
    requires p.tfMinutes > 0 && p.maxHoldMinutes >= -p.tfMinutes
    requires i < |rows| && t.entryTime == rows[i].time && SpacedBy(rows, p.tfMinutes * 60)
    ensures ExitIn(t, Window(rows, i + 1, MaxForward(p)), p.maxHoldMinutes, p.slippage)
         == ExitIn(t, rows[i + 1..], p.maxHoldMinutes, p.slippage)
  {
    var n := MaxForward(p);
    var tail, window := rows[i + 1..], Window(rows, i + 1, n);
    WindowPassesDeadline(p.maxHoldMinutes, p.tfMinutes);
    if i + 1 + n >= |rows| {
      assert window == tail;
    } else {
      assert window[n - 1] == rows[i + n];
      SpacedFrom(rows, p.tfMinutes * 60, i, n);
      assert n * (p.tfMinutes * 60) > 0;
      LateBarDecides(t, window, n - 1, Deadline(t, p.maxHoldMinutes), p.slippage);
      assert tail == window + rows[i + 1 + n..];
      DecidedPrefix(t, window, rows[i + 1 + n..], Deadline(t, p.maxHoldMinutes), p.slippage);
    }
  }

  lemma {:induction false} AdmitAgrees(p: Params, rows: seq<Candle>, i: nat, s: Slots, sig: Signal)
    requires p.tfMinutes > 0 && p.maxHoldMinutes >= -p.tfMinutes
    requires i < |rows| && SpacedBy(rows, p.tfMinutes * 60)
    ensures AdmitOne(p, MaxForward(p), rows, i, s, sig) == AdmitOne(p, |rows|, rows, i, s, sig)
  {
    hide MaxForward;
    hide ExitIn;
    hide SpacedBy;
    if sig.stop.Some? && sig.target.Some? {
      BoundedWindowIsEnough(TradeFor(p, rows[i], sig), rows, i, p);
      assert Window(rows, i + 1, |rows|) == rows[i + 1..];
    }
  }

  lemma {:induction false} AdmitsAgree(p: Params, rows: seq<Candle>, i: nat, s: Slots, sigs: seq<Signal>, n: nat)
    requires p.tfMinutes > 0 && p.maxHoldMinutes >= -p.tfMinutes
    requires i < |rows| && SpacedBy(rows, p.tfMinutes * 60) && n <= |sigs|
    ensures Admit(p, MaxForward(p), rows, i, s, sigs, n) == Admit(p, |rows|, rows, i, s, sigs, n)
  {
    hide MaxForward;
    hide AdmitOne;
    hide SpacedBy;
    if n == 0 {
    } else {
      AdmitsAgree(p, rows, i, s, sigs, n - 1);
      AdmitAgrees(p, rows, i, Admit(p, |rows|, rows, i, s, sigs, n - 1), sigs[n - 1]);
    }
  }

  /** So the bounded scan takes the same trades, with the same exits, over the
      whole replay as a scan of all remaining candles. */
  lemma {:induction false} BoundedReplayIsFullReplay(p: Params, rows: seq<Candle>, signals: seq<seq<Signal>>, k: nat)
    requires p.tfMinutes > 0 && p.maxHoldMinutes >= -p.tfMinutes
    requires k <= |rows| == |signals| && SpacedBy(rows, p.tfMinutes * 60)
    ensures ReplayTo(p, MaxForward(p), rows, signals, k) == ReplayTo(p, |rows|, rows, signals, k)
  {
    hide MaxForward;
    hide Admit;
    hide Free;
    hide SpacedBy;
    if k > p.warmupBars {
      BoundedReplayIsFullReplay(p, rows, signals, k - 1);
      var s := Free(ReplayTo(p, |rows|, rows, signals, k - 1), rows[k - 1].time);
      AdmitsAgree(p, rows, k - 1, s, signals[k - 1], |signals[k - 1]|);
    }
  }

  // ----- Concurrency -----

  ghost predicate Increasing(rows: seq<Candle>) {
    forall i, j :: 0 <= i < j < |rows| ==> rows[i].time < rows[j].time
  }

  predicate HeldAt(t: SimTrade, time: int) {
    t.exit.Some? && t.entryTime <= time < t.exit.value.time
  }

  /** The number of trades held at an instant. */
  function Held(trades: seq<SimTrade>, time: int): nat {
    |Filter(trades, (t: SimTrade) => HeldAt(t, time))|
  }

  lemma {:induction false} DecidedIsLater(t: SimTrade, cs: seq<Candle>, deadline: int, slippage: real)
    ensures var d := FirstDecided(t, cs, deadline, slippage);
      d.Some? ==> d.value.time > t.entryTime
  {
    if cs == [] {
    } else {
      DecidedIsLater(t, cs[1..], deadline, slippage);
    }
  }

  lemma {:induction false} ExitIsLater(t: SimTrade, rows: seq<Candle>, i: nat, n: int, maxHold: int, slippage: real)
    requires i < |rows| && t.entryTime == rows[i].time && Increasing(rows)
    ensures var e := ExitIn(t, Window(rows, i + 1, n), maxHold, slippage);
      e.Some? ==> e.value.time > rows[i].time
  {
    DecidedIsLater(t, Window(rows, i + 1, n), Deadline(t, maxHold), slippage);
  }

  /** After row i the open list holds exactly the trades that exit after it, every
      trade entered by then, and the cap holds at every instant. */
  ghost predicate WithinCap(p: Params, s: Slots, time: int) {
    && s.open == Filter(s.closed, Occupies(time))
    && (forall t :: t in s.closed ==> t.exit.Some? && t.entryTime <= time)
    && (forall at :: Held(s.closed, at) <= Max(0, p.maxConcurrent))
  }

  /** From `time` on, whatever is held also occupies a slot. */
  lemma {:induction false} HeldOccupies(trades: seq<SimTrade>, time: int, at: int)
    requires time <= at && forall t :: t in trades ==> t.exit.Some?
    ensures Held(trades, at) <= |Filter(trades, Occupies(time))|
  {
    FilterMonotone(trades, (t: SimTrade) => HeldAt(t, at), Occupies(time));
  }

  lemma {:induction false} HeldSnoc(trades: seq<SimTrade>, t: SimTrade, at: int)
    ensures Held(trades + [t], at) == Held(trades, at) + if HeldAt(t, at) then 1 else 0
  {
    FilterConcat(trades, [t], (x: SimTrade) => HeldAt(x, at));
  }

  lemma {:induction false} AdmitKeepsCap(p: Params, forward: int, rows: seq<Candle>, i: nat, s: Slots, sig: Signal)
    requires i < |rows| && Increasing(rows)
    requires WithinCap(p, s, rows[i].time)
    ensures WithinCap(p, AdmitOne(p, forward, rows, i, s, sig), rows[i].time)
  {
    var s' := AdmitOne(p, forward, rows, i, s, sig);
    if s' != s {
      var bare := TradeFor(p, rows[i], sig);
      ExitIsLater(bare, rows, i, forward, p.maxHoldMinutes, p.slippage);
      var t := s'.closed[|s.closed|];
      FilterConcat(s.closed, [t], Occupies(rows[i].time));
      forall at
        ensures Held(s'.closed, at) <= Max(0, p.maxConcurrent)
      {
        HeldSnoc(s.closed, t, at);
        if rows[i].time <= at {
          HeldOccupies(s.closed, rows[i].time, at);
        }
      }
    }
  }

  lemma {:induction false} AdmitsKeepCap(p: Params, forward: int, rows: seq<Candle>, i: nat, s: Slots, sigs: seq<Signal>, n: nat)
    requires i < |rows| && Increasing(rows) && n <= |sigs|
    requires WithinCap(p, s, rows[i].time)
    ensures WithinCap(p, Admit(p, forward, rows, i, s, sigs, n), rows[i].time)
  {
    if n == 0 {
    } else {
      AdmitsKeepCap(p, forward, rows, i, s, sigs, n - 1);
      AdmitKeepsCap(p, forward, rows, i, Admit(p, forward, rows, i, s, sigs, n - 1), sigs[n - 1]);
    }
  }

  lemma {:induction false} FreeKeepsCap(p: Params, s: Slots, was: int, now: int)
    requires was <= now && WithinCap(p, s, was)
    ensures WithinCap(p, Free(s, now), now)
  {
    FilterTwice(s.closed, Occupies(was), Occupies(now), Occupies(now));
  }

  lemma {:induction false} ReplayStaysWithinCap(p: Params, forward: int, rows: seq<Candle>, signals: seq<seq<Signal>>, k: nat)
    requires k <= |rows| == |signals| && Increasing(rows)
    ensures var s := ReplayTo(p, forward, rows, signals, k);
      if k <= p.warmupBars then s == Slots([], []) else WithinCap(p, s, rows[k - 1].time)
  {
    if k > p.warmupBars {
      ReplayStaysWithinCap(p, forward, rows, signals, k - 1);
      var s := ReplayTo(p, forward, rows, signals, k - 1);
      var now := rows[k - 1].time;
      if k - 1 > p.warmupBars {
        FreeKeepsCap(p, s, rows[k - 2].time, now);
      } else {
        assert WithinCap(p, Free(s, now), now);
      }
      AdmitsKeepCap(p, forward, rows, k - 1, Free(s, now), signals[k - 1], |signals[k - 1]|);
    }
  }

  /** At every instant at most `maxConcurrent` of the trades taken are held, for
      any signals, on candles in strictly increasing time. */
  lemma {:induction false} ConcurrencyNeverExceedsCap(p: Params, forward: int, rows: seq<Candle>, signals: seq<seq<Signal>>, at: int)
    requires |rows| == |signals| && Increasing(rows)
    ensures Held(ReplayTo(p, forward, rows, signals, |rows|).closed, at) <= Max(0, p.maxConcurrent)
  {
    ReplayStaysWithinCap(p, forward, rows, signals, |rows|);
  }

  /** Every trade taken is closed, so the scorecard's identities apply to it. */
  lemma {:induction false} ReplayTradesAreClosed(p: Params, forward: int, rows: seq<Candle>, signals: seq<seq<Signal>>)
    requires |rows| == |signals| && Increasing(rows)
    ensures AllClosed(ReplayTo(p, forward, rows, signals, |rows|).closed)
  {
    ReplayStaysWithinCap(p, forward, rows, signals, |rows|);
  }

  // ----- What slippage costs -----

  /** The same exit, with slippage against the trade unless it timed out. */
  predicate SlippedExit(d: Direction, a: Option<Exit>, b: Option<Exit>, slippage: real) {
    if b == None then a == None
    else
      && a.Some? && a.value.time == b.value.time && a.value.reason == b.value.reason
      && a.value.price == if b.value.reason == Timeout then b.value.price else Slipped(d, b.value.price, slippage)
  }

  /** Trade `a` is trade `b` with slippage: the same signal, entered and left at
      the same times for the same reason, poorer by one slippage for the entry and
      one for a stop or target exit. */
  ghost predicate SlippedTrade(a: SimTrade, b: SimTrade, slippage: real) {
    && a.(entryPrice := b.entryPrice, exit := b.exit) == b
    && a.exit.Some? && b.exit.Some?
    && a.exit.value.time == b.exit.value.time && a.exit.value.reason == b.exit.value.reason
    && PnlPoints(a) == PnlPoints(b) - (if TimedOut(b) then slippage else 2.0 * slippage)
  }

  ghost predicate AllSlipped(a: seq<SimTrade>, b: seq<SimTrade>, slippage: real) {
    |a| == |b| && forall k :: 0 <= k < |a| ==> SlippedTrade(a[k], b[k], slippage)
  }

  ghost predicate SlippedSlots(a: Slots, b: Slots, slippage: real) {
    AllSlipped(a.open, b.open, slippage) && AllSlipped(a.closed, b.closed, slippage)
  }

  function NoSlippage(p: Params): Params { p.(slippage := 0.0) }

  lemma {:induction false} DecisionSlips(t: SimTrade, u: SimTrade, cs: seq<Candle>, deadline: int, slippage: real)
    requires t.(entryPrice := u.entryPrice) == u
    ensures SlippedExit(t.direction, FirstDecided(t, cs, deadline, slippage), FirstDecided(u, cs, deadline, 0.0), slippage)
  {
    if cs == [] {
    } else {
      DecisionSlips(t, u, cs[1..], deadline, slippage);
    }
  }

  lemma {:induction false} AdmitSlips(p: Params, forward: int, rows: seq<Candle>, i: nat, a: Slots, b: Slots, sig: Signal)
    requires i < |rows| && SlippedSlots(a, b, p.slippage)
    ensures SlippedSlots(AdmitOne(p, forward, rows, i, a, sig), AdmitOne(NoSlippage(p), forward, rows, i, b, sig), p.slippage)
  {
    if |a.open| < p.maxConcurrent && sig.stop.Some? && sig.target.Some? {
      var t, u := TradeFor(p, rows[i], sig), TradeFor(NoSlippage(p), rows[i], sig);
      var cs := Window(rows, i + 1, forward);
      DecisionSlips(t, u, cs, Deadline(t, p.maxHoldMinutes), p.slippage);
      var x, y := ExitIn(t, cs, p.maxHoldMinutes, p.slippage), ExitIn(u, cs, p.maxHoldMinutes, 0.0);
      assert SlippedExit(t.direction, x, y, p.slippage);
      assert y.Some? ==> SlippedTrade(t.(exit := x), u.(exit := y), p.slippage);
    }
  }

  lemma {:induction false} AdmitsSlip(p: Params, forward: int, rows: seq<Candle>, i: nat, a: Slots, b: Slots, sigs: seq<Signal>, n: nat)
    requires i < |rows| && n <= |sigs| && SlippedSlots(a, b, p.slippage)
    ensures SlippedSlots(Admit(p, forward, rows, i, a, sigs, n), Admit(NoSlippage(p), forward, rows, i, b, sigs, n), p.slippage)
  {
    hide AdmitOne;
    hide SlippedSlots;
    if n == 0 {
    } else {
      AdmitsSlip(p, forward, rows, i, a, b, sigs, n - 1);
      AdmitSlips(p, forward, rows, i, Admit(p, forward, rows, i, a, sigs, n - 1),
                 Admit(NoSlippage(p), forward, rows, i, b, sigs, n - 1), sigs[n - 1]);
    }
  }

  lemma {:induction false} FreeSlips(a: seq<SimTrade>, b: seq<SimTrade>, time: int, slippage: real)
    requires AllSlipped(a, b, slippage)
    ensures AllSlipped(Filter(a, Occupies(time)), Filter(b, Occupies(time)), slippage)
  {
    hide SlippedTrade;
    if a == [] {
    } else {
      FreeSlips(a[1..], b[1..], time, slippage);
      SameOccupancy(a[0], b[0], time, slippage);
    }
  }

  lemma {:induction false} SameOccupancy(a: SimTrade, b: SimTrade, time: int, slippage: real)
    requires SlippedTrade(a, b, slippage)
    ensures Occupies(time)(a) == Occupies(time)(b)
  {
  }

  /** Slippage changes no decision: a replay takes the same trades at the same
      times for the same reasons whatever it is, and each trade pays for it exactly
      once at the entry and once more at a stop or target. */
  lemma {:induction false} SlippageCostsExactly(p: Params, forward: int, rows: seq<Candle>, signals: seq<seq<Signal>>, k: nat)
    requires k <= |rows| == |signals|
    ensures SlippedSlots(ReplayTo(p, forward, rows, signals, k), ReplayTo(NoSlippage(p), forward, rows, signals, k), p.slippage)
  {
    if k > p.warmupBars {
      SlippageCostsExactly(p, forward, rows, signals, k - 1);
      var a, b := ReplayTo(p, forward, rows, signals, k - 1), ReplayTo(NoSlippage(p), forward, rows, signals, k - 1);
      FreeSlips(a.open, b.open, rows[k - 1].time, p.slippage);
      AdmitsSlip(p, forward, rows, k - 1, Free(a, rows[k - 1].time), Free(b, rows[k - 1].time), signals[k - 1], |signals[k - 1]|);
    }
  }
}
