/** What one run of the backfill does with every chunk it gets to, and that a run
    in which nothing fails ends up to date. */
module BackfillProgress {
  import opened Common
  import opened Backfill

  /** The answer reaches the archive. */
  predicate Archives(o: Outcome) { o == Saved || o == Killed(true) }

  predicate Did(o: Outcome, raised: bool) {
    if raised then o == Raised else Archives(o)
  }

  /** The run gets to chunk `i`, which is `c`, and archives it (or its fetch raises). */
  ghost predicate DidAt(c: Chunk, chunks: seq<Chunk>, outcomes: seq<Outcome>, raised: bool, i: int) {
    0 <= i < |chunks| && i < |outcomes| && chunks[i] == c && AliveUntil(outcomes, i) && Did(outcomes[i], raised)
  }

  ghost predicate Handled(c: Chunk, chunks: seq<Chunk>, outcomes: seq<Outcome>, raised: bool) {
    exists i :: DidAt(c, chunks, outcomes, raised, i)
  }

  lemma {:induction false} AliveTail(outcomes: seq<Outcome>, i: nat)
    requires outcomes != []
    ensures AliveUntil(outcomes, i + 1) <==> !outcomes[0].Killed? && AliveUntil(outcomes[1..], i)
  {
    var tail := outcomes[1..];
    assert forall m :: 0 <= m < |tail| ==> tail[m] == outcomes[m + 1];
    if AliveUntil(outcomes, i + 1) {
      assert !outcomes[0].Killed?;
    }
    if !outcomes[0].Killed? && AliveUntil(tail, i) {
      forall m | 0 <= m < i + 1 && m < |outcomes|
        ensures !outcomes[m].Killed?
      {
        if m > 0 {
          assert !tail[m - 1].Killed?;
        }
      }
    }
  }

  lemma {:induction false} HandledStep(c: Chunk, chunks: seq<Chunk>, outcomes: seq<Outcome>, raised: bool)
    requires chunks != [] && outcomes != []
    ensures Handled(c, chunks, outcomes, raised) <==>
      || (c == chunks[0] && Did(outcomes[0], raised))
      || (!outcomes[0].Killed? && Handled(c, chunks[1..], outcomes[1..], raised))
  {
    hide AliveUntil;
    NoneBefore(outcomes);
    if i :| DidAt(c, chunks, outcomes, raised, i) {
      if i > 0 {
        AliveTail(outcomes, i - 1);
        assert DidAt(c, chunks[1..], outcomes[1..], raised, i - 1);
      }
    }
    if c == chunks[0] && Did(outcomes[0], raised) {
      assert DidAt(c, chunks, outcomes, raised, 0);
    }
    if !outcomes[0].Killed? && Handled(c, chunks[1..], outcomes[1..], raised) {
      var i :| DidAt(c, chunks[1..], outcomes[1..], raised, i);
      AliveTail(outcomes, i);
      assert DidAt(c, chunks, outcomes, raised, i + 1);
    }
  }

  lemma {:induction false} NoneBefore(outcomes: seq<Outcome>)
    ensures AliveUntil(outcomes, 0)
  {
  }

  /** The run adds exactly the chunks it handled. */
  ghost predicate Adds(s: Store, s': Store, chunks: seq<Chunk>, outcomes: seq<Outcome>) {
    && (forall c :: c in s'.fetched <==> c in s.fetched || Handled(c, chunks, outcomes, false))
    && (forall c :: c in s'.raised <==> c in s.raised || Handled(c, chunks, outcomes, true))
  }

  lemma {:induction false} FetchAllAdds(s: Store, chunks: seq<Chunk>, outcomes: seq<Outcome>)
    ensures Adds(s, FetchAll(s, chunks, outcomes), chunks, outcomes)
    decreases |chunks|
  {
    if chunks == [] || outcomes == [] {
    } else {
      var next := AtChunk(s, chunks[0], outcomes[0]);
      if !outcomes[0].Killed? {
        FetchAllAdds(next, chunks[1..], outcomes[1..]);
      }
      forall c, raised
        ensures Handled(c, chunks, outcomes, raised) <==>
          || (c == chunks[0] && Did(outcomes[0], raised))
          || (!outcomes[0].Killed? && Handled(c, chunks[1..], outcomes[1..], raised))
      {
        HandledStep(c, chunks, outcomes, raised);
      }
    }
  }

  /** The run saves chunk `j` and none after it. */
  ghost predicate SavesLast(chunks: seq<Chunk>, outcomes: seq<Outcome>, j: int) {
    && 0 <= j < |chunks| && j < |outcomes| && SavedAt(outcomes, j)
    && forall k :: j < k < |chunks| && k < |outcomes| ==> !SavedAt(outcomes, k)
  }

  lemma {:induction false} LastSavedStep(chunks: seq<Chunk>, outcomes: seq<Outcome>, j: nat)
    requires chunks != [] && outcomes != []
    ensures SavesLast(chunks, outcomes, j + 1) <==> !outcomes[0].Killed? && SavesLast(chunks[1..], outcomes[1..], j)
  {
    hide SavedAt;
    var rest, tail := chunks[1..], outcomes[1..];
    forall k | 0 <= k && k + 1 < |outcomes|
      ensures SavedAt(outcomes, k + 1) <==> !outcomes[0].Killed? && SavedAt(tail, k)
    {
      SavedAtTail(outcomes, k);
    }
    if !outcomes[0].Killed? && SavesLast(rest, tail, j) {
      forall k | j + 1 < k < |chunks| && k < |outcomes|
        ensures !SavedAt(outcomes, k)
      {
        assert !SavedAt(tail, k - 1);
      }
    }
    if SavesLast(chunks, outcomes, j + 1) {
      SavedAtTail(outcomes, j);
      forall k | j < k < |rest| && k < |tail|
        ensures !SavedAt(tail, k)
      {
        assert !SavedAt(outcomes, k + 1);
      }
    }
  }

  /** The checkpoint is the end of the last chunk saved, if one was. */
  ghost predicate StopsAt(s: Store, s': Store, chunks: seq<Chunk>, outcomes: seq<Outcome>) {
    && (forall j :: SavesLast(chunks, outcomes, j) ==> s'.checkpoint == Some(chunks[j].to))
    && (!SavesOne(outcomes, |chunks|) ==> s'.checkpoint == s.checkpoint)
  }

  lemma {:induction false} FetchAllStops(s: Store, chunks: seq<Chunk>, outcomes: seq<Outcome>)
    ensures StopsAt(s, FetchAll(s, chunks, outcomes), chunks, outcomes)
    decreases |chunks|
  {
    if chunks != [] && outcomes != [] {
      hide SavedAt;
      hide SavesOne;
      var rest, tail := chunks[1..], outcomes[1..];
      var next, s' := AtChunk(s, chunks[0], outcomes[0]), FetchAll(s, chunks, outcomes);
      SavesOneStep(outcomes, |chunks|);
      FirstSaved(outcomes);
      if !outcomes[0].Killed? {
        FetchAllStops(next, rest, tail);
      }
      forall j | SavesLast(chunks, outcomes, j)
        ensures s'.checkpoint == Some(chunks[j].to)
      {
        if j > 0 {
          LastSavedStep(chunks, outcomes, j - 1);
        } else {
          FirstIsOnlySaved(chunks, outcomes);
        }
      }
    }
  }

  lemma {:induction false} FirstIsOnlySaved(chunks: seq<Chunk>, outcomes: seq<Outcome>)
    requires chunks != [] && outcomes != [] && SavesLast(chunks, outcomes, 0)
    ensures !SavesOne(outcomes[1..], |chunks| - 1)
  {
    assert outcomes[0] == Saved;
    forall k | 0 <= k < |outcomes| - 1 && k < |chunks| - 1
      ensures !SavedAt(outcomes[1..], k)
    {
      SavedAtTail(outcomes, k);
    }
  }

  /** What a run works on: the chunks of its plan that end after a readable
      checkpoint. */
  function Work(s: Store, r: Run, lookback: int, size: int): seq<Chunk>
    requires size > 0
  {
    Remaining(Plan(r.now - lookback, r.now, size), if r.readable then s.checkpoint else None)
  }

  /** One run, in full: it goes through its chunks until it is killed, archives or
      marks as raised exactly those it gets to, and leaves the checkpoint at the end
      of the last one saved. */
  lemma {:induction false} RunIsExact(s: Store, r: Run, lookback: int, size: int)
    requires size > 0
    ensures var s', chunks := Resume(s, r, lookback, size), Work(s, r, lookback, size);
      Adds(s, s', chunks, r.outcomes) && StopsAt(s, s', chunks, r.outcomes)
  {
    FetchAllAdds(s, Work(s, r, lookback, size), r.outcomes);
    FetchAllStops(s, Work(s, r, lookback, size), r.outcomes);
  }

  // ----- A run in which nothing fails -----

  /** Every chunk of the plan is answered. */
  ghost predicate AllSaved(outcomes: seq<Outcome>, n: nat) {
    |outcomes| >= n && forall i :: 0 <= i < n ==> outcomes[i] == Saved
  }

  lemma {:induction false} SavedChunksAreFetched(s: Store, chunks: seq<Chunk>, outcomes: seq<Outcome>)
    requires AllSaved(outcomes, |chunks|)
    ensures var s' := FetchAll(s, chunks, outcomes);
      && (forall c :: c in chunks ==> c in s'.fetched)
      && (chunks != [] ==> s'.checkpoint == Some(chunks[|chunks| - 1].to))
      && (chunks == [] ==> s' == s)
  {
    var n := |chunks|;
    FetchAllAdds(s, chunks, outcomes);
    FetchAllStops(s, chunks, outcomes);
    forall c | c in chunks
      ensures Handled(c, chunks, outcomes, false)
    {
      var i :| 0 <= i < n && chunks[i] == c;
      assert DidAt(c, chunks, outcomes, false, i);
    }
    if n > 0 {
      assert SavedAt(outcomes, n - 1);
      assert SavesLast(chunks, outcomes, n - 1);
    }
  }

  lemma {:induction false} PointBeyond(plan: seq<Chunk>, k: nat, p: int) returns (i: nat)
    requires Contiguous(plan) && plan != [] && plan[0].from <= p <= plan[|plan| - 1].to
    requires k <= |plan| && (k > 0 ==> plan[k - 1].to < p)
    ensures k <= i < |plan| && Within(p, plan[i])
  {
    i := PointInChunk(plan, |plan|, p);
    hide Contiguous;
    if i < k - 1 {
      ChunksInOrder(plan, i, k - 1);
    }
  }

  lemma {:induction false} PlanSpans(from: int, end: int, size: int)
    requires size > 0 && from < end
    ensures var plan := Plan(from, end, size);
      Contiguous(plan) && plan != [] && plan[0].from == from && plan[|plan| - 1].to == end
  {
    PlanTiles(from, end, size);
  }

  lemma {:induction false} RemainingFrom(plan: seq<Chunk>, checkpoint: Option<int>) returns (k: nat)
    requires Contiguous(plan)
    ensures k <= |plan| && Remaining(plan, checkpoint) == plan[k..]
    ensures k > 0 ==> checkpoint.Some? && plan[k - 1].to <= checkpoint.value
  {
    hide Contiguous;
    match checkpoint {
      case None => k := 0;
      case Some(cp) => k := RemainingIsSuffix(plan, cp);
    }
  }

  /** The work is the rest of the plan: the last chunk is in it, and so is the chunk
      of any point beyond a readable checkpoint. */
  lemma {:induction false} WorkReaches(s: Store, r: Run, lookback: int, size: int, p: int) returns (c: Chunk)
    requires size > 0 && lookback > 0
    requires r.now - lookback <= p <= r.now
    requires r.readable && s.checkpoint.Some? ==> s.checkpoint.value < p
    ensures var chunks := Work(s, r, lookback, size);
      && chunks != [] && chunks[|chunks| - 1].to == r.now
      && c in chunks && Within(p, c)
  {
    hide Plan;
    hide Remaining;
    hide Contiguous;
    hide Within;
    var plan := Plan(r.now - lookback, r.now, size);
    PlanSpans(r.now - lookback, r.now, size);
    var k := RemainingFrom(plan, if r.readable then s.checkpoint else None);
    var i := PointBeyond(plan, k, p);
    c := plan[i];
    var chunks := plan[k..];
    assert chunks[i - k] == c && chunks[|chunks| - 1] == plan[|plan| - 1];
  }

  /** A run whose fetches are all answered brings the checkpoint to the present,
      and everything of its window beyond the old checkpoint has been fetched. */
  lemma {:induction false} QuietRunFinishes(s: Store, r: Run, lookback: int, size: int, p: int)
    requires size > 0 && lookback > 0 && AllSaved(r.outcomes, |Work(s, r, lookback, size)|)
    requires r.now - lookback <= p <= r.now
    requires r.readable && s.checkpoint.Some? ==> s.checkpoint.value < p
    ensures Resume(s, r, lookback, size).checkpoint == Some(r.now)
    ensures InSome(p, Resume(s, r, lookback, size).fetched)
  {
    hide FetchAll;
    hide Plan;
    hide Remaining;
    hide Contiguous;
    var c := WorkReaches(s, r, lookback, size, p);
    SavedChunksAreFetched(s, Work(s, r, lookback, size), r.outcomes);
    var s' := Resume(s, r, lookback, size);
    var j :| 0 <= j < |s'.fetched| && s'.fetched[j] == c;
    assert Within(p, s'.fetched[j]);
  }
}
