/** Rebuilding the performance file from fills
    (scripts/ops/backfill_performance_from_fills.py, `rebuild`). */
module Rebuild {
  import opened Common
  import opened StableSort
  import opened Fifo
  import opened Attribution

  const DEFAULT_SIGNAL_TYPE := "pearlbot_pinescript"

  datatype PnlSource = FillMatched | VirtualIbkr | OtherSource(tag: string)

  /** The fields the rebuild does not look at. */
  datatype Body =
    | TradeBody(signalType: string, direction: Direction, entryPrice: int, exitPrice: int,
                pnlCents: int, isWin: bool, exitReason: ExitReason)
    | LegacyBody(fields: string)

  /** One row of performance.json; `exitTime` is the rank of the timestamp text. */
  datatype Row = Row(signalId: Option<string>, source: PnlSource, exitTime: int, body: Body)

  /** Sorting raises when a parseable and an unparseable exit time meet: the
      former is a naive datetime and the fallback for the latter is an aware
      one. The file is then left as it was. */
  datatype Outcome = SortRaises | Written(rows: seq<Row>)

  function RowOf(g: Tagged): Row {
    var signalType := if g.signalType == None || g.signalType.value == "" then DEFAULT_SIGNAL_TYPE else g.signalType.value;
    var t := g.trade;
    Row(Some(g.signalId), FillMatched, t.exitTime,
        TradeBody(signalType, t.direction, t.entryPrice, t.exitPrice, t.pnlCents, t.isWin, t.exitReason))
  }

  function Retag(r: Row): Row {
    if r.source == FillMatched then r else r.(source := VirtualIbkr)
  }

  ghost function Ids(rows: seq<Row>): set<Option<string>> {
    set r | r in rows :: r.signalId
  }

  /** The old rows that no fill accounts for, retagged. */
  function Kept(prior: seq<Row>, ids: set<Option<string>>): seq<Row> {
    MapSeq(Filter(prior, (r: Row) => r.signalId !in ids), Retag)
  }

  predicate Parses(r: Row, clock: Clock) { clock(r.exitTime).Some? }

  function ExitKey(clock: Clock): Row -> int {
    (r: Row) => clock(r.exitTime).GetOr(0)
  }

  predicate Comparable(rows: seq<Row>, clock: Clock) {
    (forall r :: r in rows ==> Parses(r, clock)) || (forall r :: r in rows ==> !Parses(r, clock))
  }

  function SortRows(rows: seq<Row>, clock: Clock): Outcome {
    if Comparable(rows, clock) then Written(SortBy(rows, ExitKey(clock))) else SortRaises
  }

  ghost function TagAll(trades: seq<Trade>, cands: seq<Candidate>, clock: Clock): seq<Tagged> {
    var choices := Choices(trades, cands, clock);
    Attributed(trades, cands, choices) + Unattributed(trades, choices)
  }

  /** The rows backed by fills: attributed trades, then the others. */
  ghost function FillRows(fills: seq<Fill>, cands: seq<Candidate>, clock: Clock): seq<Row> {
    MapSeq(TagAll(Run(Orders(InTimeOrder(fills))).trades, cands, clock), RowOf)
  }

  ghost function Result(fillRows: seq<Row>, prior: seq<Row>, clock: Clock): Outcome {
    SortRows(fillRows + Kept(prior, Ids(fillRows)), clock)
  }

  /** The performance file after a run. */
  ghost function FileAfter(fillRows: seq<Row>, file: seq<Row>, clock: Clock): seq<Row> {
    match Result(fillRows, file, clock)
    case Written(rows) => rows
    case SortRaises => file
  }

  lemma {:induction false} KeptSnoc(prior: seq<Row>, k: nat, ids: set<Option<string>>)
    requires k < |prior|
    ensures Kept(prior[..k + 1], ids) == Kept(prior[..k], ids) + if prior[k].signalId in ids then [] else [Retag(prior[k])]
  {
    var keep := (r: Row) => r.signalId !in ids;
    assert prior[..k + 1] == prior[..k] + [prior[k]];
    FilterConcat(prior[..k], [prior[k]], keep);
  }

  lemma {:induction false} IdsSnoc(rows: seq<Row>, r: Row)
    ensures Ids(rows + [r]) == Ids(rows) + {r.signalId}
  {
    assert forall x :: x in rows + [r] <==> x in rows || x == r;
  }

  method BuildFillRows(tagged: seq<Tagged>) returns (rows: seq<Row>, ids: set<Option<string>>)
    ensures rows == MapSeq(tagged, RowOf) && ids == Ids(rows)
  {
    rows, ids := [], {};
    for k := 0 to |tagged|
      invariant |rows| == k && forall j :: 0 <= j < k ==> rows[j] == RowOf(tagged[j])
      invariant ids == Ids(rows)
    {
      IdsSnoc(rows, RowOf(tagged[k]));
      rows := rows + [RowOf(tagged[k])];
      ids := ids + {Some(tagged[k].signalId)};
    }
  }

  method KeepRows(prior: seq<Row>, ids: set<Option<string>>) returns (kept: seq<Row>)
    ensures kept == Kept(prior, ids)
  {
    kept := [];
    for k := 0 to |prior|
      invariant kept == Kept(prior[..k], ids)
    {
      KeptSnoc(prior, k, ids);
      if prior[k].signalId in ids {
        continue;
      }
      kept := kept + [Retag(prior[k])];
    }
    assert prior[..|prior|] == prior;
  }

  method RebuildRows(fills: seq<Fill>, cands: seq<Candidate>, prior: seq<Row>, clock: Clock) returns (out: Outcome)
    ensures out == Result(FillRows(fills, cands, clock), prior, clock)
  {
    var paired := PairFills(fills);
    var attributed, unattributed := AttributeTrades(paired, cands, clock);
    var rows, ids := BuildFillRows(attributed + unattributed);
    var kept := KeepRows(prior, ids);
    out := SortRows(rows + kept, clock);
  }
}
