/** The rebuild loses no row and can be run again. */
module RebuildTheorems {
  import opened Common
  import opened StableSort
  import opened Fifo
  import opened FifoTheorems
  import opened Attribution
  import opened AttributionTheorems
  import opened Rebuild

  /** Exactly the fill rows and the unaccounted old rows are written, each as
      often as it occurs, in exit-time order. */
  lemma {:induction false} RebuildLosesNothing(fillRows: seq<Row>, prior: seq<Row>, clock: Clock)
    requires Result(fillRows, prior, clock).Written?
    ensures var rows := Result(fillRows, prior, clock).rows;
      && multiset(rows) == multiset(fillRows) + multiset(Kept(prior, Ids(fillRows)))
      && SortedBy(rows, ExitKey(clock))
      && (forall r :: r in prior && r.signalId !in Ids(fillRows) ==> Retag(r) in rows)
  {
    var kept := Kept(prior, Ids(fillRows));
    var rows := Result(fillRows, prior, clock).rows;
    SortByContract(fillRows + kept, ExitKey(clock));
    forall r | r in prior && r.signalId !in Ids(fillRows)
      ensures Retag(r) in rows
    {
      KeptMember(prior, Ids(fillRows), r);
      assert Retag(r) in multiset(rows);
    }
  }

  // ----- What a row says -----

  ghost function ChosenFor(choices: seq<Option<nat>>, cands: seq<Candidate>, i: nat): Option<Candidate>
    requires i < |choices| && (choices[i].Some? ==> choices[i].value < |cands|)
  {
    if choices[i].Some? then Some(cands[choices[i].value]) else None
  }

  /** The row's fields, from the two fills the trade joins and the signal it got. */
  ghost predicate RowStates(r: Row, t: Trade, chosen: Option<Candidate>, sorted: seq<Fill>) {
    && t.entrySrc < t.exitSrc < |sorted|
    && var entry, exit := sorted[t.entrySrc], sorted[t.exitSrc];
      && Readable(entry) && Readable(exit)
      && r.source == FillMatched && r.exitTime == exit.time
      && r.signalId == Some(
           if chosen.Some? && chosen.value.signalId != "" then chosen.value.signalId
           else "tv_" + entry.id + "_" + exit.id)
      && r.body.TradeBody?
      && r.body.signalType == (
           if chosen.Some? && chosen.value.signalType.Some? && chosen.value.signalType.value != ""
           then chosen.value.signalType.value else "pearlbot_pinescript")
      && r.body.direction == (if entry.action == Some(Buy) then Long else Short)
      && r.body.entryPrice == entry.price.value && r.body.exitPrice == exit.price.value
      && var ticks := if entry.action == Some(Buy) then exit.price.value - entry.price.value else entry.price.value - exit.price.value;
        && r.body.pnlCents == t.size * CENTS_PER_TICK * ticks
        && (r.body.isWin <==> r.body.pnlCents > 0) && (r.body.exitReason == TakeProfit <==> r.body.pnlCents > 0)
  }

  function TagAt(trades: seq<Trade>, cands: seq<Candidate>, choices: seq<Option<nat>>, i: nat): Tagged
    requires i < |trades| == |choices| && (choices[i].Some? ==> choices[i].value < |cands|)
  {
    if choices[i].Some? then Tag(trades[i], cands[choices[i].value]) else Tagged(trades[i], trades[i].signalId, None)
  }

  ghost predicate TagsTrades(tags: seq<Tagged>, trades: seq<Trade>, cands: seq<Candidate>, choices: seq<Option<nat>>)
    requires |choices| == |trades|
    requires forall i :: 0 <= i < |choices| && choices[i].Some? ==> choices[i].value < |cands|
  {
    && |tags| == |trades|
    && (forall i :: 0 <= i < |trades| ==> TagAt(trades, cands, choices, i) in tags)
    && (forall g :: g in tags ==> exists i :: 0 <= i < |trades| && g == TagAt(trades, cands, choices, i))
  }

  lemma {:induction false} OneMoreTag(
      before: seq<Tagged>, tags: seq<Tagged>, trades: seq<Trade>, cands: seq<Candidate>, choices: seq<Option<nat>>)
    requires |choices| == |trades| > 0
    requires forall i :: 0 <= i < |choices| && choices[i].Some? ==> choices[i].value < |cands|
    requires TagsTrades(before, trades[..|trades| - 1], cands, choices[..|trades| - 1])
    requires |tags| == |before| + 1
    requires forall g :: g in tags <==> g in before || g == TagAt(trades, cands, choices, |trades| - 1)
    ensures TagsTrades(tags, trades, cands, choices)
  {
    hide Tag;
    var n := |trades| - 1;
    forall i | 0 <= i < |trades|
      ensures TagAt(trades, cands, choices, i) in tags
    {
      if i < n {
        assert TagAt(trades[..n], cands, choices[..n], i) in before;
      }
    }
    forall g | g in tags
      ensures exists i :: 0 <= i < |trades| && g == TagAt(trades, cands, choices, i)
    {
      if g in before {
        var i :| 0 <= i < n && g == TagAt(trades[..n], cands, choices[..n], i);
        assert g == TagAt(trades, cands, choices, i);
      }
    }
  }

  /** Each trade is tagged once, with its own choice. */
  lemma {:induction false} TagsAreOfTrades(trades: seq<Trade>, cands: seq<Candidate>, choices: seq<Option<nat>>)
    requires |choices| == |trades|
    requires forall i :: 0 <= i < |choices| && choices[i].Some? ==> choices[i].value < |cands|
    ensures TagsTrades(Attributed(trades, cands, choices) + Unattributed(trades, choices), trades, cands, choices)
  {
    if trades == [] {
    } else {
      hide TagsTrades;
      var n := |trades| - 1;
      TagsAreOfTrades(trades[..n], cands, choices[..n]);
      var before := Attributed(trades[..n], cands, choices[..n]) + Unattributed(trades[..n], choices[..n]);
      OneMoreTag(before, Attributed(trades, cands, choices) + Unattributed(trades, choices), trades, cands, choices);
    }
  }

  /** The trade of a tag and its fills give every field of the row. */
  lemma {:induction false} RowStatesTag(trades: seq<Trade>, cands: seq<Candidate>, choices: seq<Option<nat>>, i: nat, sorted: seq<Fill>)
    requires i < |trades| == |choices| && (choices[i].Some? ==> choices[i].value < |cands|)
    requires Describes(trades[i], sorted)
    ensures RowStates(RowOf(TagAt(trades, cands, choices, i)), trades[i], ChosenFor(choices, cands, i), sorted)
  {
  }

  ghost predicate HasRow(
      rows: seq<Row>, trades: seq<Trade>, cands: seq<Candidate>, choices: seq<Option<nat>>, sorted: seq<Fill>, i: nat)
    requires i < |trades| == |choices| && (choices[i].Some? ==> choices[i].value < |cands|)
  {
    exists r :: r in rows && RowStates(r, trades[i], ChosenFor(choices, cands, i), sorted)
  }

  ghost predicate HasTrade(
      r: Row, trades: seq<Trade>, cands: seq<Candidate>, choices: seq<Option<nat>>, sorted: seq<Fill>)
    requires |choices| == |trades|
    requires forall i :: 0 <= i < |choices| && choices[i].Some? ==> choices[i].value < |cands|
  {
    exists i :: 0 <= i < |trades| && RowStates(r, trades[i], ChosenFor(choices, cands, i), sorted)
  }

  /** One row for each trade, and nothing else. */
  ghost predicate RowsState(
      rows: seq<Row>, trades: seq<Trade>, cands: seq<Candidate>, choices: seq<Option<nat>>, sorted: seq<Fill>)
    requires |choices| == |trades|
    requires forall i :: 0 <= i < |choices| && choices[i].Some? ==> choices[i].value < |cands|
  {
    && |rows| == |trades|
    && (forall i :: 0 <= i < |trades| ==> HasRow(rows, trades, cands, choices, sorted, i))
    && (forall r :: r in rows ==> HasTrade(r, trades, cands, choices, sorted))
  }

  lemma {:induction false} TaggedRowsState(
      tags: seq<Tagged>, trades: seq<Trade>, cands: seq<Candidate>, choices: seq<Option<nat>>, sorted: seq<Fill>)
    requires |choices| == |trades|
    requires forall i :: 0 <= i < |choices| && choices[i].Some? ==> choices[i].value < |cands|
    requires TagsTrades(tags, trades, cands, choices)
    requires forall i :: 0 <= i < |trades| ==> Describes(trades[i], sorted)
    ensures RowsState(MapSeq(tags, RowOf), trades, cands, choices, sorted)
  {
    hide RowStates;
    hide RowOf;
    hide TagAt;
    var rows := MapSeq(tags, RowOf);
    forall i | 0 <= i < |trades|
      ensures HasRow(rows, trades, cands, choices, sorted, i)
    {
      RowStatesTag(trades, cands, choices, i, sorted);
      var k :| 0 <= k < |tags| && tags[k] == TagAt(trades, cands, choices, i);
      assert rows[k] in rows;
    }
    forall r | r in rows
      ensures HasTrade(r, trades, cands, choices, sorted)
    {
      var k :| 0 <= k < |rows| && rows[k] == r;
      assert tags[k] in tags;
      var i :| 0 <= i < |trades| && tags[k] == TagAt(trades, cands, choices, i);
      RowStatesTag(trades, cands, choices, i, sorted);
    }
  }

  lemma {:induction false} AllDescribed(fills: seq<Fill>, trades: seq<Trade>, sorted: seq<Fill>)
    requires sorted == InTimeOrder(fills) && trades == Run(Orders(sorted)).trades
    ensures forall i :: 0 <= i < |trades| ==> Describes(trades[i], sorted)
  {
    TradesDescribeFills(fills);
  }

  /** The fill rows are one for each trade, and every field of one is that of the
      trade's two fills and of the signal the trade got. */
  lemma {:induction false} RowsStateTheirTrades(fills: seq<Fill>, cands: seq<Candidate>, clock: Clock)
    ensures var sorted := InTimeOrder(fills);
      var trades := Run(Orders(sorted)).trades;
      RowsState(FillRows(fills, cands, clock), trades, cands, Choices(trades, cands, clock), sorted)
  {
    hide RowsState;
    hide TagsTrades;
    var sorted := InTimeOrder(fills);
    var trades := Run(Orders(sorted)).trades;
    var choices := Choices(trades, cands, clock);
    AllDescribed(fills, trades, sorted);
    TagsAreOfTrades(trades, cands, choices);
    TaggedRowsState(TagAll(trades, cands, clock), trades, cands, choices, sorted);
  }

  lemma {:induction false} KeptMember(prior: seq<Row>, ids: set<Option<string>>, r: Row)
    requires r in prior && r.signalId !in ids
    ensures Retag(r) in Kept(prior, ids)
  {
    var keep := (x: Row) => x.signalId !in ids;
    FilterMembers(prior, keep);
    var f := Filter(prior, keep);
    var i :| 0 <= i < |f| && f[i] == r;
    assert MapSeq(f, Retag)[i] == Retag(r);
  }

  /** The old rows that no fill accounts for have this exit time. */
  lemma {:induction false} KeptComesFrom(prior: seq<Row>, ids: set<Option<string>>, r: Row)
    requires r in Kept(prior, ids)
    ensures exists x :: x in prior && x.signalId !in ids && Retag(x) == r
  {
    var keep := (x: Row) => x.signalId !in ids;
    var f := Filter(prior, keep);
    FilterMembers(prior, keep);
    hide Filter;
    hide Retag;
    var i :| 0 <= i < |f| && Kept(prior, ids)[i] == r;
    assert f[i] in f && Retag(f[i]) == r;
  }

  lemma {:induction false} KeptParses(prior: seq<Row>, ids: set<Option<string>>, clock: Clock, parses: bool)
    ensures (exists r :: r in Kept(prior, ids) && Parses(r, clock) == parses)
       <==> (exists r :: r in prior && r.signalId !in ids && Parses(r, clock) == parses)
  {
    hide Kept;
    if r :| r in Kept(prior, ids) && Parses(r, clock) == parses {
      KeptComesFrom(prior, ids, r);
      var x :| x in prior && x.signalId !in ids && Retag(x) == r;
      assert Parses(x, clock) == parses;
    }
    if r :| r in prior && r.signalId !in ids && Parses(r, clock) == parses {
      KeptMember(prior, ids, r);
      assert Parses(Retag(r), clock) == parses;
    }
  }

  /** A row that goes into the new file has an exit time that parses, or not. */
  ghost predicate Contributes(fillRows: seq<Row>, prior: seq<Row>, clock: Clock, parses: bool) {
    || (exists r :: r in fillRows && Parses(r, clock) == parses)
    || (exists r :: r in prior && r.signalId !in Ids(fillRows) && Parses(r, clock) == parses)
  }

  /** The rebuild writes the file exactly when the exit times that go into it do
      not mix texts that parse with texts that do not. */
  lemma {:induction false} RebuildWritesExactlyWhen(fillRows: seq<Row>, prior: seq<Row>, clock: Clock)
    ensures Result(fillRows, prior, clock).Written? <==>
      !(Contributes(fillRows, prior, clock, true) && Contributes(fillRows, prior, clock, false))
  {
    KeptParses(prior, Ids(fillRows), clock, true);
    KeptParses(prior, Ids(fillRows), clock, false);
    MixedIsIncomparable(fillRows, Kept(prior, Ids(fillRows)), clock);
  }

  lemma {:induction false} MixedIsIncomparable(a: seq<Row>, b: seq<Row>, clock: Clock)
    ensures Comparable(a + b, clock) <==>
      !(exists r, s :: (r in a || r in b) && (s in a || s in b) && Parses(r, clock) && !Parses(s, clock))
  {
  }

  // ----- Running again -----

  lemma {:induction false} RetagTwice(s: seq<Row>)
    requires forall r :: r in s ==> r == Retag(r)
    ensures MapSeq(s, Retag) == s
  {
  }

  lemma {:induction false} KeptRetagged(prior: seq<Row>, ids: set<Option<string>>)
    ensures forall r :: r in Kept(prior, ids) ==> r == Retag(r) && r.signalId !in ids
  {
    var keep := (x: Row) => x.signalId !in ids;
    FilterMembers(prior, keep);
    var f := Filter(prior, keep);
    forall r | r in Kept(prior, ids)
      ensures r == Retag(r) && r.signalId !in ids
    {
      var i :| 0 <= i < |Kept(prior, ids)| && Kept(prior, ids)[i] == r;
      assert f[i] in f;
    }
  }

  /** Dropping two sets of ids one after the other. */
  lemma {:induction false} KeptTwice(prior: seq<Row>, a: set<Option<string>>, b: set<Option<string>>)
    ensures Kept(Kept(prior, a), b) == Kept(prior, a + b)
  {
    if prior == [] {
    } else {
      var r := prior[0];
      KeptTwice(prior[1..], a, b);
      KeptCons(prior, a);
      KeptCons(prior, a + b);
      if r.signalId in a {
        assert Kept(prior, a) == Kept(prior[1..], a) && Kept(prior, a + b) == Kept(prior[1..], a + b);
      } else {
        KeptCons([Retag(r)] + Kept(prior[1..], a), b);
        assert ([Retag(r)] + Kept(prior[1..], a))[1..] == Kept(prior[1..], a);
      }
    }
  }

  lemma {:induction false} KeptCons(prior: seq<Row>, ids: set<Option<string>>)
    requires prior != []
    ensures Kept(prior, ids) == (if prior[0].signalId in ids then [] else [Retag(prior[0])]) + Kept(prior[1..], ids)
  {
    var keep := (x: Row) => x.signalId !in ids;
    var f := Filter(prior[1..], keep);
    assert Filter(prior, keep) == (if keep(prior[0]) then [prior[0]] else []) + f;
    if keep(prior[0]) {
      assert ([prior[0]] + f)[1..] == f;
    }
  }

  lemma {:induction false} KeptConcat(a: seq<Row>, b: seq<Row>, ids: set<Option<string>>)
    ensures Kept(a + b, ids) == Kept(a, ids) + Kept(b, ids)
  {
    FilterConcat(a, b, (x: Row) => x.signalId !in ids);
  }

  /** Keeping rows commutes with sorting, once the rows carry their final tag. */
  lemma {:induction false} KeptOfSorted(rows: seq<Row>, ids: set<Option<string>>, clock: Clock)
    requires forall r :: r in rows ==> r == Retag(r)
    ensures Kept(SortBy(rows, ExitKey(clock)), ids) == SortBy(Kept(rows, ids), ExitKey(clock))
  {
    var keep := (x: Row) => x.signalId !in ids;
    var key := ExitKey(clock);
    FilterOfSort(rows, key, keep);
    SortMembers(rows, key);
    FilterMembers(rows, keep);
    FilterMembers(SortBy(rows, key), keep);
    RetagTwice(Filter(rows, keep));
    RetagTwice(Filter(SortBy(rows, key), keep));
  }

  ghost predicate AllFillMatched(rows: seq<Row>) {
    forall r :: r in rows ==> r.source == FillMatched
  }

  /** A second run over the file written by a first one, in full: the second
      run's fill rows, then whatever the first run wrote and the second does not
      account for, then the old rows neither accounts for. */
  lemma {:induction false} SecondRun(first: seq<Row>, second: seq<Row>, prior: seq<Row>, clock: Clock)
    requires AllFillMatched(first)
    requires Result(first, prior, clock).Written?
    ensures Result(second, Result(first, prior, clock).rows, clock)
         == SortRows(second + (Kept(first, Ids(second)) + Kept(prior, Ids(first) + Ids(second))), clock)
  {
    var i1, i2 := Ids(first), Ids(second);
    var all := first + Kept(prior, i1);
    var key := ExitKey(clock);
    KeptRetagged(prior, i1);
    assert forall r :: r in all ==> r == Retag(r);
    KeptOfSorted(all, i2, clock);
    KeptConcat(first, Kept(prior, i1), i2);
    KeptTwice(prior, i1, i2);
    var rest := Kept(first, i2) + Kept(prior, i1 + i2);
    assert Kept(SortBy(all, key), i2) == SortBy(rest, key);
    SortTail(second, rest, key);
    SortMembers(rest, key);
    assert Comparable(second + SortBy(rest, key), clock) <==> Comparable(second + rest, clock);
  }

  /** A second run that accounts for `ids` carries over no row of the first exactly
      when it accounts for all its ids. */
  lemma {:induction false} NothingCarriedExactlyWhen(first: seq<Row>, ids: set<Option<string>>)
    ensures Kept(first, ids) == [] <==> Ids(first) <= ids
  {
    if Kept(first, ids) == [] {
      forall r | r in first
        ensures r.signalId in ids
      {
        if r.signalId !in ids {
          KeptMember(first, ids, r);
        }
      }
    } else {
      KeptRetagged(first, ids);
      var keep := (x: Row) => x.signalId !in ids;
      FilterMembers(first, keep);
      assert Filter(first, keep)[0] in first;
    }
  }

  /** A fill row whose id the second run does not produce stays in the file: a
      trade re-attributed to another signal is then listed under both ids. */
  lemma {:induction false} StaleRowSurvives(first: seq<Row>, second: seq<Row>, prior: seq<Row>, clock: Clock, r: Row)
    requires AllFillMatched(first) && r in first && r.signalId !in Ids(second)
    requires Result(first, prior, clock).Written?
    requires Result(second, Result(first, prior, clock).rows, clock).Written?
    ensures r in Result(second, Result(first, prior, clock).rows, clock).rows
  {
    var file := Result(first, prior, clock).rows;
    SortMembers(first + Kept(prior, Ids(first)), ExitKey(clock));
    assert r in file;
    RebuildLosesNothing(second, file, clock);
    assert Retag(r) == r;
  }

  /** Every fill-backed row is one the run itself produced. */
  ghost predicate NoneStale(file: seq<Row>, ids: set<Option<string>>) {
    forall r :: r in file && r.source == FillMatched ==> r.signalId in ids
  }

  lemma {:induction false} WrittenMembers(fillRows: seq<Row>, prior: seq<Row>, clock: Clock)
    requires Result(fillRows, prior, clock).Written?
    ensures forall r :: r in Result(fillRows, prior, clock).rows <==> r in fillRows || r in Kept(prior, Ids(fillRows))
  {
    SortMembers(fillRows + Kept(prior, Ids(fillRows)), ExitKey(clock));
  }

  lemma {:induction false} KeptFillRow(prior: seq<Row>, ids: set<Option<string>>, r: Row)
    requires r.source == FillMatched
    ensures r in Kept(prior, ids) <==> r in prior && r.signalId !in ids
  {
    var keep := (x: Row) => x.signalId !in ids;
    FilterMembers(prior, keep);
    if r in Kept(prior, ids) {
      var f := Filter(prior, keep);
      var i :| 0 <= i < |f| && MapSeq(f, Retag)[i] == r;
      assert f[i] in f && f[i] == r;
    }
    if r in prior && r.signalId !in ids {
      KeptMember(prior, ids, r);
    }
  }

  /** After a second run every fill-backed row belongs to that run exactly when it
      still accounts for every id of the first run, and the two runs between them
      account for every fill-backed row of the file before. */
  lemma {:induction false} NoneStaleExactlyWhen(first: seq<Row>, second: seq<Row>, prior: seq<Row>, clock: Clock)
    requires AllFillMatched(first) && AllFillMatched(second)
    requires Result(first, prior, clock).Written?
    requires Result(second, Result(first, prior, clock).rows, clock).Written?
    ensures NoneStale(Result(second, Result(first, prior, clock).rows, clock).rows, Ids(second))
       <==> Ids(first) <= Ids(second) && NoneStale(prior, Ids(first) + Ids(second))
  {
    var file := Result(first, prior, clock).rows;
    var end := Result(second, file, clock).rows;
    WrittenMembers(first, prior, clock);
    WrittenMembers(second, file, clock);
    hide Result;
    hide Kept;
    forall r: Row | r.source == FillMatched
      ensures r in end <==> r in second || (r.signalId !in Ids(second) && (r in first || (r in prior && r.signalId !in Ids(first))))
    {
      KeptFillRow(prior, Ids(first), r);
      KeptFillRow(file, Ids(second), r);
    }
    if NoneStale(end, Ids(second)) {
      forall r | r in first
        ensures r.signalId in Ids(second)
      {
        assert r in end || r.signalId in Ids(second);
      }
    }
  }

  /** When the second run still accounts for every id of the first, the first
      run leaves no trace: the file ends as if only the second had run. */
  lemma {:induction false} RunsAbsorb(first: seq<Row>, second: seq<Row>, prior: seq<Row>, clock: Clock)
    requires AllFillMatched(first) && Ids(first) <= Ids(second)
    requires Result(first, prior, clock).Written?
    ensures Result(second, Result(first, prior, clock).rows, clock) == Result(second, prior, clock)
  {
    hide Kept;
    hide Ids;
    hide SortRows;
    hide AllFillMatched;
    SecondRun(first, second, prior, clock);
    NothingCarriedExactlyWhen(first, Ids(second));
    assert Ids(first) + Ids(second) == Ids(second);
    assert [] + Kept(prior, Ids(second)) == Kept(prior, Ids(second));
  }

  lemma {:induction false} FillRowsMatched(fills: seq<Fill>, cands: seq<Candidate>, clock: Clock)
    ensures AllFillMatched(FillRows(fills, cands, clock))
  {
  }

  /** Running the rebuild again on the same fills and signals changes nothing,
      whether the first run wrote the file or failed. */
  lemma {:induction false} RebuildIsIdempotent(fills: seq<Fill>, cands: seq<Candidate>, file: seq<Row>, clock: Clock)
    ensures var rows := FillRows(fills, cands, clock);
      FileAfter(rows, FileAfter(rows, file, clock), clock) == FileAfter(rows, file, clock)
  {
    var rows := FillRows(fills, cands, clock);
    FillRowsMatched(fills, cands, clock);
    if Result(rows, file, clock).Written? {
      RunsAbsorb(rows, rows, file, clock);
    }
  }

  // ----- Running again after more fills arrived -----

  /** Later fills only add trades after the ones already paired. */
  lemma {:induction false} TradesGrow(sorted: seq<Fill>, k: nat)
    requires k <= |sorted|
    ensures Run(Orders(sorted[..k])).trades <= Run(Orders(sorted)).trades
    decreases |sorted| - k
  {
    if k == |sorted| {
      assert sorted[..k] == sorted;
    } else {
      RunStep(sorted, k);
      TradesGrow(sorted, k + 1);
    }
  }

  lemma {:induction false} TagsGrow(trades: seq<Trade>, k: nat, cands: seq<Candidate>, choices: seq<Option<nat>>)
    requires k <= |trades| == |choices|
    requires forall i :: 0 <= i < |choices| && choices[i].Some? ==> choices[i].value < |cands|
    ensures Attributed(trades[..k], cands, choices[..k]) <= Attributed(trades, cands, choices)
    ensures Unattributed(trades[..k], choices[..k]) <= Unattributed(trades, choices)
  {
    if k == |trades| {
      assert trades[..k] == trades && choices[..k] == choices;
    } else {
      var n := |trades| - 1;
      TagsGrow(trades[..n], k, cands, choices[..n]);
      assert trades[..n][..k] == trades[..k] && choices[..n][..k] == choices[..k];
    }
  }

  lemma {:induction false} TagsGrowTogether(small: seq<Trade>, all: seq<Trade>, cands: seq<Candidate>, clock: Clock)
    requires small <= all
    ensures forall g :: g in TagAll(small, cands, clock) ==> g in TagAll(all, cands, clock)
  {
    assert all[..|small|] == small;
    PrefixChoices(all, |small|, cands, clock);
    TagsGrow(all, |small|, cands, Choices(all, cands, clock));
  }

  lemma {:induction false} IdsGrow(few: seq<Tagged>, many: seq<Tagged>)
    requires forall g :: g in few ==> g in many
    ensures Ids(MapSeq(few, RowOf)) <= Ids(MapSeq(many, RowOf))
  {
    var a, b := MapSeq(few, RowOf), MapSeq(many, RowOf);
    forall r | r in a
      ensures r.signalId in Ids(b)
    {
      var i :| 0 <= i < |few| && a[i] == r;
      assert few[i] in many;
      var j :| 0 <= j < |many| && many[j] == few[i];
      assert b[j] in b && b[j] == r;
    }
  }

  lemma {:induction false} LaterFillsKeepIds(fills: seq<Fill>, more: seq<Fill>, cands: seq<Candidate>, clock: Clock)
    requires forall x, y :: x in fills && y in more ==> x.time <= y.time
    ensures Ids(FillRows(fills, cands, clock)) <= Ids(FillRows(fills + more, cands, clock))
  {
    var sorted := InTimeOrder(fills + more);
    SortInTurn(fills, more, TimeOf);
    var k := |InTimeOrder(fills)|;
    assert sorted[..k] == InTimeOrder(fills);
    TradesGrow(sorted, k);
    var small, all := Run(Orders(sorted[..k])).trades, Run(Orders(sorted)).trades;
    TagsGrowTogether(small, all, cands, clock);
    IdsGrow(TagAll(small, cands, clock), TagAll(all, cands, clock));
  }

  /** The fills of the first `k` batches. */
  function Gathered(batches: seq<seq<Fill>>, k: nat): seq<Fill>
    requires k <= |batches|
  {
    if k == 0 then [] else Gathered(batches, k - 1) + batches[k - 1]
  }

  ghost predicate InBatchOrder(batches: seq<seq<Fill>>) {
    forall i, j, x, y :: 0 <= i < j < |batches| && x in batches[i] && y in batches[j] ==> x.time <= y.time
  }

  /** The file after a rebuild over everything gathered, batch after batch. */
  ghost function FileAfterBatches(batches: seq<seq<Fill>>, k: nat, cands: seq<Candidate>, file: seq<Row>, clock: Clock): seq<Row>
    requires k <= |batches|
  {
    if k == 0 then file
    else FileAfter(FillRows(Gathered(batches, k), cands, clock), FileAfterBatches(batches, k - 1, cands, file, clock), clock)
  }

  lemma {:induction false} GatheredFrom(batches: seq<seq<Fill>>, k: nat)
    requires k <= |batches|
    ensures forall x :: x in Gathered(batches, k) ==> exists i :: 0 <= i < k && x in batches[i]
  {
    if k == 0 {
    } else {
      GatheredFrom(batches, k - 1);
    }
  }

  /** More batches keep every id. */
  lemma {:induction false} BatchesKeepIds(batches: seq<seq<Fill>>, k: nat, n: nat, cands: seq<Candidate>, clock: Clock)
    requires k <= n <= |batches| && InBatchOrder(batches)
    ensures Ids(FillRows(Gathered(batches, k), cands, clock)) <= Ids(FillRows(Gathered(batches, n), cands, clock))
  {
    hide FillRows;
    hide Ids;
    if k < n {
      BatchesKeepIds(batches, k, n - 1, cands, clock);
      GatheredFrom(batches, n - 1);
      LaterFillsKeepIds(Gathered(batches, n - 1), batches[n - 1], cands, clock);
    }
  }

  lemma {:induction false} BatchesAbsorb(
      batches: seq<seq<Fill>>, k: nat, later: seq<Row>, cands: seq<Candidate>, file: seq<Row>, clock: Clock)
    requires k <= |batches|
    requires forall i :: 0 <= i <= k ==> Ids(FillRows(Gathered(batches, i), cands, clock)) <= Ids(later)
    ensures Result(later, FileAfterBatches(batches, k, cands, file, clock), clock) == Result(later, file, clock)
  {
    hide Result;
    hide FillRows;
    hide Ids;
    hide AllFillMatched;
    if k == 0 {
    } else {
      BatchesAbsorb(batches, k - 1, later, cands, file, clock);
      var rows := FillRows(Gathered(batches, k), cands, clock);
      FillRowsMatched(Gathered(batches, k), cands, clock);
      var before := FileAfterBatches(batches, k - 1, cands, file, clock);
      if Result(rows, before, clock).Written? {
        RunsAbsorb(rows, later, before, clock);
      }
      assert FileAfterBatches(batches, k, cands, file, clock) == FileAfter(rows, before, clock);
    }
  }

  /** Rebuilding after each batch of later fills, whether or not every rebuild
      could write, ends as one rebuild over all the fills would. */
  lemma {:induction false} IncrementalRebuild(batches: seq<seq<Fill>>, cands: seq<Candidate>, file: seq<Row>, clock: Clock)
    requires batches != [] && InBatchOrder(batches)
    ensures var n := |batches|;
      var all := FillRows(Gathered(batches, n), cands, clock);
      Result(all, FileAfterBatches(batches, n - 1, cands, file, clock), clock) == Result(all, file, clock)
  {
    var n := |batches|;
    var all := FillRows(Gathered(batches, n), cands, clock);
    forall i | 0 <= i <= n - 1
      ensures Ids(FillRows(Gathered(batches, i), cands, clock)) <= Ids(all)
    {
      BatchesKeepIds(batches, i, n, cands, clock);
    }
    BatchesAbsorb(batches, n - 1, all, cands, file, clock);
  }

  // ----- Two fills for which a rebuild goes wrong -----

  const BOUGHT := Fill(0, "a", Some(Buy), Some(100), Some(1))
  const SOLD := Fill(10, "b", Some(Sell), Some(104), Some(1))

  /** The one trade they make. */
  const ROUND_TRIP := Trade("tv_a_b", Long, 1, 0, 100, 10, 104, 200, true, TakeProfit, 0, 1)

  const SIGNAL := Candidate("pearl", Long, 100.0, 1, 0, None)

  lemma {:induction false} OrderedOnce()
    ensures Orders(InTimeOrder([BOUGHT, SOLD])) == [AsLot(BOUGHT, 0), AsLot(SOLD, 1)]
  {
    SortOfSorted([BOUGHT, SOLD], TimeOf);
    hide SortBy;
    OrdersSnoc([], BOUGHT);
    OrdersSnoc([BOUGHT], SOLD);
    assert Orders([]) == [];
    hide Orders;
    hide AsLot;
    assert [] + [BOUGHT] == [BOUGHT] && [BOUGHT] + [SOLD] == [BOUGHT, SOLD];
  }

  lemma {:induction false} PairedOnce()
    ensures Run(Orders(InTimeOrder([BOUGHT, SOLD]))).trades == [ROUND_TRIP]
  {
    hide Run;
    hide Close;
    hide Orders;
    hide InTimeOrder;
    OrderedOnce();
    NothingOpen();
    RoundTrip([], AsLot(BOUGHT, 0), AsLot(SOLD, 1));
    ClosesRoundTrip();
    assert [] + [AsLot(BOUGHT, 0), AsLot(SOLD, 1)] == [AsLot(BOUGHT, 0), AsLot(SOLD, 1)];
  }

  lemma {:induction false} ClosesRoundTrip()
    ensures Close(AsLot(BOUGHT, 0), AsLot(SOLD, 1), 1) == ROUND_TRIP
  {
    assert Close(AsLot(BOUGHT, 0), AsLot(SOLD, 1), 1).signalId == "tv_a_b";
  }

  lemma {:induction false} OneChoice(t: Trade, cands: seq<Candidate>, clock: Clock)
    ensures Choices([t], cands, clock) == [Pick(t, cands, |cands|, {}, clock)]
  {
    hide Pick;
    assert [t][..0] == [];
    assert Choices([], cands, clock) == [] && Used([]) == {};
  }

  lemma {:induction false} OneTag(t: Trade, cands: seq<Candidate>, clock: Clock)
    ensures TagAll([t], cands, clock) ==
      match Pick(t, cands, |cands|, {}, clock)
      case None => [Tagged(t, t.signalId, None)]
      case Some(c) => [Tag(t, cands[c])]
  {
    hide Pick;
    hide Tag;
    OneChoice(t, cands, clock);
    hide Choices;
    var choices := [Pick(t, cands, |cands|, {}, clock)];
    assert [t][..0] == [] && choices[..0] == [];
    var none: seq<Tagged> := [];
    assert Attributed([], cands, []) == none && Unattributed([], []) == none;
    match choices[0] {
      case None =>
        assert Attributed([t], cands, choices) == none + none;
        assert Unattributed([t], choices) == none + [Tagged(t, t.signalId, None)];
      case Some(c) =>
        assert Attributed([t], cands, choices) == none + [Tag(t, cands[c])];
        assert Unattributed([t], choices) == none + none;
    }
  }

  lemma {:induction false} TaggedOnce(clock: Clock)
    requires clock(0) == Some(0)
    ensures TagAll([ROUND_TRIP], [], clock) == [Tagged(ROUND_TRIP, "tv_a_b", None)]
    ensures TagAll([ROUND_TRIP], [SIGNAL], clock) == [Tagged(ROUND_TRIP, "pearl", None)]
  {
    hide TagAll;
    OneTag(ROUND_TRIP, [], clock);
    OneTag(ROUND_TRIP, [SIGNAL], clock);
    assert Pick(ROUND_TRIP, [], 0, {}, clock) == None;
    assert Eligible(ROUND_TRIP, SIGNAL, clock);
    assert Pick(ROUND_TRIP, [SIGNAL], 0, {}, clock) == None;
    assert Pick(ROUND_TRIP, [SIGNAL], 1, {}, clock) == Some(0);
  }

  function ListedUnder(id: string): Row {
    Row(Some(id), FillMatched, 10, TradeBody(DEFAULT_SIGNAL_TYPE, Long, 100, 104, 200, true, TakeProfit))
  }

  lemma {:induction false} ListedOnce(clock: Clock)
    requires clock(0) == Some(0)
    ensures FillRows([BOUGHT, SOLD], [], clock) == [ListedUnder("tv_a_b")]
    ensures FillRows([BOUGHT, SOLD], [SIGNAL], clock) == [ListedUnder("pearl")]
  {
    PairedOnce();
    TaggedOnce(clock);
    hide Run;
    hide TagAll;
    hide Orders;
    var unmatched, matched := FillRows([BOUGHT, SOLD], [], clock), FillRows([BOUGHT, SOLD], [SIGNAL], clock);
    assert unmatched == MapSeq([Tagged(ROUND_TRIP, "tv_a_b", None)], RowOf);
    assert matched == MapSeq([Tagged(ROUND_TRIP, "pearl", None)], RowOf);
  }

  /** Rebuilt before and after its signal is known, one trade ends up in the file
      twice, under its fills' id and under the signal's. */
  lemma {:induction false} OneTradeListedTwice(clock: Clock)
    requires clock(0) == Some(0) && clock(10) == Some(10)
    ensures var first, second := FillRows([BOUGHT, SOLD], [], clock), FillRows([BOUGHT, SOLD], [SIGNAL], clock);
      && Run(Orders(InTimeOrder([BOUGHT, SOLD]))).trades == [ROUND_TRIP]
      && multiset(FileAfter(second, FileAfter(first, [], clock), clock))
         == multiset{ListedUnder("tv_a_b"), ListedUnder("pearl")}
  {
    hide FillRows;
    hide Run;
    PairedOnce();
    ListedOnce(clock);
    WriteOne([ListedUnder("tv_a_b")], [], clock);
    WriteBoth(ListedUnder("pearl"), ListedUnder("tv_a_b"), clock);
  }

  lemma {:induction false} WriteBoth(added: Row, stale: Row, clock: Clock)
    requires added.signalId != stale.signalId && Parses(added, clock) && Parses(stale, clock) && Retag(stale) == stale
    ensures multiset(FileAfter([added], [stale], clock)) == multiset{added, stale}
  {
    var rows, file, ids := [added], [stale], Ids([added]);
    var keep := (r: Row) => r.signalId !in ids;
    assert ids == {added.signalId};
    FilterAll(file, keep);
    assert MapSeq(file, Retag) == file;
    assert Kept(file, ids) == file;
    hide Kept;
    assert rows + file == [added, stale];
    assert Comparable(rows + file, clock);
    RebuildLosesNothing(rows, file, clock);
  }

  lemma {:induction false} WriteOne(rows: seq<Row>, prior: seq<Row>, clock: Clock)
    requires |rows| == 1 && prior == [] && Parses(rows[0], clock)
    ensures FileAfter(rows, prior, clock) == rows
  {
    assert Kept(prior, Ids(rows)) == [];
    assert rows + [] == rows;
    SortOfSorted(rows, ExitKey(clock));
  }

  /** The same fills, and an old row whose exit time does not parse: the sort
      raises and the file stays as it was. */
  lemma {:induction false} UnparseableRowBlocksRebuild(clock: Clock, stuck: Row)
    requires clock(0) == Some(0) && clock(10) == Some(10)
    requires stuck.signalId == None && !Parses(stuck, clock)
    ensures var rows := FillRows([BOUGHT, SOLD], [], clock);
      Result(rows, [stuck], clock) == SortRaises && FileAfter(rows, [stuck], clock) == [stuck]
  {
    ListedOnce(clock);
    var rows := [ListedUnder("tv_a_b")];
    assert Parses(rows[0], clock) && rows[0] in rows;
    assert Ids(rows) == {Some("tv_a_b")};
    assert stuck in [stuck];
    RebuildWritesExactlyWhen(rows, [stuck], clock);
  }
}
