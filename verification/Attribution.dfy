/** Greedy attribution of paired trades to signals
    (scripts/ops/backfill_performance_from_fills.py, `attribute_trades_to_signals`).

    Prices are in ticks of 0.25 points, so the 2.0-point window is 8 ticks; a
    signal's price need not be a whole tick. Times are whole microseconds. A
    trade's timestamp is held as the rank of its text; `clock` is the timestamp
    parser, `None` when the text does not parse. */
module Attribution {
  import opened Common
  import opened Fifo

  const PRICE_WINDOW_TICKS: real := 8.0
  const TIME_WINDOW_MICROSECONDS := 180_000_000

  type Clock = int -> Option<int>

  datatype Candidate = Candidate(
    signalId: string, direction: Direction, entryPrice: real, size: int, time: int,
    signalType: Option<string>)

  /** A trade with the signal fields it ends up with. */
  datatype Tagged = Tagged(trade: Trade, signalId: string, signalType: Option<string>)

  function TimeDelta(t: Trade, c: Candidate, clock: Clock): nat
    requires clock(t.entryTime).Some?
  {
    Abs(c.time - clock(t.entryTime).value)
  }

  function PriceDelta(t: Trade, c: Candidate): real {
    AbsReal(c.entryPrice - t.entryPrice as real)
  }

  predicate Eligible(t: Trade, c: Candidate, clock: Clock) {
    && clock(t.entryTime).Some?
    && c.direction == t.direction
    && c.size == t.size
    && PriceDelta(t, c) <= PRICE_WINDOW_TICKS
    && TimeDelta(t, c, clock) <= TIME_WINDOW_MICROSECONDS
  }

  /** Strictly nearer: by time, then by price. */
  predicate Nearer(t: Trade, a: Candidate, b: Candidate, clock: Clock)
    requires clock(t.entryTime).Some?
  {
    || TimeDelta(t, a, clock) < TimeDelta(t, b, clock)
    || (TimeDelta(t, a, clock) == TimeDelta(t, b, clock) && PriceDelta(t, a) < PriceDelta(t, b))
  }

  /** Candidate `c` is free, eligible, and least by (time, price, position). */
  ghost predicate IsBest(t: Trade, c: nat, cands: seq<Candidate>, used: set<nat>, clock: Clock) {
    && c < |cands| && c !in used && Eligible(t, cands[c], clock)
    && forall d :: 0 <= d < |cands| && d !in used && Eligible(t, cands[d], clock) && d != c ==>
         Nearer(t, cands[c], cands[d], clock) || (c < d && !Nearer(t, cands[d], cands[c], clock))
  }

  ghost predicate NoneFree(t: Trade, cands: seq<Candidate>, used: set<nat>, clock: Clock) {
    forall d :: 0 <= d < |cands| && d !in used ==> !Eligible(t, cands[d], clock)
  }

  /** The best free candidate among the first `k`. */
  function Pick(t: Trade, cands: seq<Candidate>, k: nat, used: set<nat>, clock: Clock): (r: Option<nat>)
    requires k <= |cands|
    ensures r.Some? ==> r.value < k && Eligible(t, cands[r.value], clock)
  {
    if k == 0 then None
    else
      var b := Pick(t, cands, k - 1, used, clock);
      if k - 1 !in used && Eligible(t, cands[k - 1], clock)
         && (b == None || Nearer(t, cands[k - 1], cands[b.value], clock))
      then Some(k - 1) else b
  }

  ghost function Used(choices: seq<Option<nat>>): set<nat> {
    set i | 0 <= i < |choices| && choices[i].Some? :: choices[i].value
  }

  ghost function MatchedTrades(choices: seq<Option<nat>>): set<nat> {
    set i | 0 <= i < |choices| && choices[i].Some?
  }

  /** The candidate position given to each trade, in trade order. */
  ghost function Choices(trades: seq<Trade>, cands: seq<Candidate>, clock: Clock): (r: seq<Option<nat>>)
    ensures |r| == |trades|
    ensures forall i :: 0 <= i < |r| && r[i].Some? ==> r[i].value < |cands|
  {
    if trades == [] then []
    else
      var n := |trades| - 1;
      var before := Choices(trades[..n], cands, clock);
      before + [Pick(trades[n], cands, |cands|, Used(before), clock)]
  }

  function Tag(t: Trade, c: Candidate): Tagged {
    Tagged(t, if c.signalId != "" then c.signalId else t.signalId, c.signalType)
  }

  function Attributed(trades: seq<Trade>, cands: seq<Candidate>, choices: seq<Option<nat>>): seq<Tagged>
    requires |choices| == |trades|
    requires forall i :: 0 <= i < |choices| && choices[i].Some? ==> choices[i].value < |cands|
  {
    if trades == [] then []
    else
      var n := |trades| - 1;
      Attributed(trades[..n], cands, choices[..n])
      + if choices[n].Some? then [Tag(trades[n], cands[choices[n].value])] else []
  }

  function Unattributed(trades: seq<Trade>, choices: seq<Option<nat>>): seq<Tagged>
    requires |choices| == |trades|
  {
    if trades == [] then []
    else
      var n := |trades| - 1;
      Unattributed(trades[..n], choices[..n])
      + if choices[n] == None then [Tagged(trades[n], trades[n].signalId, None)] else []
  }

  // ----- The loop -----

  /** Scans the candidates still free, in list order, for the least one. */
  method FindBest(t: Trade, cands: seq<Candidate>, remaining: seq<nat>, clock: Clock, ghost used: set<nat>)
    returns (best: Option<nat>)
    requires FreeList(remaining, |cands|, used)
    ensures best == None ==> NoneFree(t, cands, used, clock)
    ensures best.Some? ==> best.value < |remaining| && IsBest(t, remaining[best.value], cands, used, clock)
  {
    forall q | 0 <= q < |remaining|
      ensures remaining[q] < |cands| && remaining[q] !in used
    {
      assert remaining[q] in remaining;
    }
    best := None;
    for p := 0 to |remaining|
      invariant best == None ==> forall q :: 0 <= q < p ==> !Eligible(t, cands[remaining[q]], clock)
      invariant best.Some? ==> best.value < p && Eligible(t, cands[remaining[best.value]], clock)
      invariant best.Some? ==> forall q :: 0 <= q < p && q != best.value && Eligible(t, cands[remaining[q]], clock) ==>
        Nearer(t, cands[remaining[best.value]], cands[remaining[q]], clock)
        || (best.value < q && !Nearer(t, cands[remaining[q]], cands[remaining[best.value]], clock))
    {
      var c := cands[remaining[p]];
      if Eligible(t, c, clock) && (best == None || Nearer(t, c, cands[remaining[best.value]], clock)) {
        best := Some(p);
      }
    }
    forall d | 0 <= d < |cands| && d !in used
      ensures exists q :: 0 <= q < |remaining| && remaining[q] == d
    {
      assert d in remaining;
    }
  }

  /** The positions still free, in ascending order. */
  ghost predicate FreeList(remaining: seq<nat>, n: nat, used: set<nat>) {
    && Rising(remaining)
    && (forall d: nat :: d in remaining <==> d < n && d !in used)
  }

  ghost predicate Rising(s: seq<nat>) {
    forall i, j :: 0 <= i < j < |s| ==> s[i] < s[j]
  }

  function Pop(s: seq<nat>, p: nat): seq<nat>
    requires p < |s|
  {
    s[..p] + s[p + 1..]
  }

  lemma {:induction false} PopRises(s: seq<nat>, p: nat)
    requires Rising(s) && p < |s|
    ensures Rising(Pop(s, p))
  {
    var r := Pop(s, p);
    forall i, j | 0 <= i < j < |r|
      ensures r[i] < r[j]
    {
      assert r[i] == s[if i < p then i else i + 1] && r[j] == s[if j < p then j else j + 1];
    }
  }

  lemma {:induction false} PopRemovesOne(s: seq<nat>, p: nat, d: nat)
    requires Rising(s) && p < |s|
    ensures d in Pop(s, p) <==> d in s && d != s[p]
  {
    var r := Pop(s, p);
    if d in r {
      var q :| 0 <= q < |r| && r[q] == d;
      assert d == s[if q < p then q else q + 1];
    }
    if d in s && d != s[p] {
      var q :| 0 <= q < |s| && s[q] == d;
      assert r[if q < p then q else q - 1] == d;
    }
  }

  lemma {:induction false} PopKeepsFreeList(remaining: seq<nat>, p: nat, n: nat, used: set<nat>)
    requires FreeList(remaining, n, used) && p < |remaining|
    ensures FreeList(Pop(remaining, p), n, used + {remaining[p]})
  {
    var r := Pop(remaining, p);
    PopRises(remaining, p);
    forall d: nat
      ensures d in r <==> d < n && d !in used + {remaining[p]}
    {
      PopRemovesOne(remaining, p, d);
    }
  }

  /** `Pick` is the only best candidate. */
  lemma {:induction false} PickIsBest(t: Trade, cands: seq<Candidate>, used: set<nat>, clock: Clock)
    ensures match Pick(t, cands, |cands|, used, clock)
      case None => NoneFree(t, cands, used, clock)
      case Some(c) => IsBest(t, c, cands, used, clock)
    ensures forall c: nat :: IsBest(t, c, cands, used, clock) ==> Pick(t, cands, |cands|, used, clock) == Some(c)
  {
    PickPrefix(t, cands, |cands|, used, clock);
  }

  lemma {:induction false} PickPrefix(t: Trade, cands: seq<Candidate>, k: nat, used: set<nat>, clock: Clock)
    requires k <= |cands|
    ensures match Pick(t, cands, k, used, clock)
      case None => forall d :: 0 <= d < k && d !in used ==> !Eligible(t, cands[d], clock)
      case Some(c) =>
        && c !in used
        && forall d :: 0 <= d < k && d !in used && Eligible(t, cands[d], clock) && d != c ==>
             Nearer(t, cands[c], cands[d], clock) || (c < d && !Nearer(t, cands[d], cands[c], clock))
  {
    if k == 0 {
    } else {
      PickPrefix(t, cands, k - 1, used, clock);
    }
  }

  lemma {:induction false} UsedSnoc(choices: seq<Option<nat>>, c: Option<nat>)
    ensures Used(choices + [c]) == Used(choices) + if c.Some? then {c.value} else {}
  {
    var all := choices + [c];
    forall v | v in Used(choices)
      ensures v in Used(all)
    {
      var i :| 0 <= i < |choices| && choices[i].Some? && choices[i].value == v;
      assert all[i] == choices[i];
    }
    if c.Some? {
      assert all[|choices|] == c;
    }
  }

  lemma {:induction false} ChoicesSnoc(trades: seq<Trade>, k: nat, cands: seq<Candidate>, clock: Clock)
    requires k < |trades|
    ensures var before := Choices(trades[..k], cands, clock);
      Choices(trades[..k + 1], cands, clock)
      == before + [Pick(trades[k], cands, |cands|, Used(before), clock)]
  {
    assert trades[..k + 1][..k] == trades[..k];
  }

  lemma {:induction false} TagsSnoc(trades: seq<Trade>, k: nat, cands: seq<Candidate>, choices: seq<Option<nat>>, c: Option<nat>)
    requires k < |trades| && |choices| == k
    requires forall i :: 0 <= i < k && choices[i].Some? ==> choices[i].value < |cands|
    requires c.Some? ==> c.value < |cands|
    ensures Attributed(trades[..k + 1], cands, choices + [c]) ==
            Attributed(trades[..k], cands, choices) + (if c.Some? then [Tag(trades[k], cands[c.value])] else [])
    ensures Unattributed(trades[..k + 1], choices + [c]) ==
            Unattributed(trades[..k], choices) + (if c == None then [Tagged(trades[k], trades[k].signalId, None)] else [])
  {
    assert trades[..k + 1][..k] == trades[..k] && (choices + [c])[..k] == choices;
  }

  lemma {:induction false} InitialFreeList(remaining: seq<nat>, n: nat)
    requires |remaining| == n && forall i :: 0 <= i < n ==> remaining[i] == i
    ensures FreeList(remaining, n, Used([]))
  {
    forall d: nat
      ensures d in remaining <==> d < n
    {
      if d < n {
        assert remaining[d] == d;
      }
    }
  }

  /** Gives one trade its signal, if any, and drops that signal from the list. */
  method AttributeOne(t: Trade, cands: seq<Candidate>, remaining: seq<nat>, clock: Clock, ghost used: set<nat>)
    returns (choice: Option<nat>, rest: seq<nat>)
    requires FreeList(remaining, |cands|, used)
    ensures choice == Pick(t, cands, |cands|, used, clock)
    ensures FreeList(rest, |cands|, used + if choice.Some? then {choice.value} else {})
  {
    var best := FindBest(t, cands, remaining, clock, used);
    PickIsBest(t, cands, used, clock);
    if best == None {
      assert used + {} == used;
      return None, remaining;
    }
    PopKeepsFreeList(remaining, best.value, |cands|, used);
    choice := Some(remaining[best.value]);
    rest := Pop(remaining, best.value);
  }

  method AttributeTrades(trades: seq<Trade>, cands: seq<Candidate>, clock: Clock)
    returns (attributed: seq<Tagged>, unattributed: seq<Tagged>)
    ensures attributed == Attributed(trades, cands, Choices(trades, cands, clock))
    ensures unattributed == Unattributed(trades, Choices(trades, cands, clock))
  {
    var remaining: seq<nat> := seq(|cands|, i requires 0 <= i => i);
    InitialFreeList(remaining, |cands|);
    attributed, unattributed := [], [];
    ghost var choices := [];
    for k := 0 to |trades|
      invariant choices == Choices(trades[..k], cands, clock)
      invariant FreeList(remaining, |cands|, Used(choices))
      invariant attributed == Attributed(trades[..k], cands, choices)
      invariant unattributed == Unattributed(trades[..k], choices)
    {
      var t := trades[k];
      var choice, rest := AttributeOne(t, cands, remaining, clock, Used(choices));
      ChoicesSnoc(trades, k, cands, clock);
      UsedSnoc(choices, choice);
      TagsSnoc(trades, k, cands, choices, choice);
      if choice == None {
        unattributed := unattributed + [Tagged(t, t.signalId, None)];
      } else {
        attributed := attributed + [Tag(t, cands[choice.value])];
      }
      remaining := rest;
      choices := choices + [choice];
    }
    assert trades[..|trades|] == trades;
  }
}
