/** The checkpointed historical backfill as a crashable protocol
    (scripts/ops/backfill_ibkr_historical.py, `_plan_chunks` and `main`).

    Times are whole seconds. What the provider answers for each chunk, and when
    the process is killed, are inputs. */
module Backfill {
  import opened Common

  const DAY_SECONDS := 86400

  datatype Chunk = Chunk(from: int, to: int)

  // ----- The plan -----

  function Plan(from: int, end: int, size: int): seq<Chunk>
    requires size > 0
    decreases if from < end then end - from else 0
  {
    if from >= end then []
    else [Chunk(from, Min(from + size, end))] + Plan(Min(from + size, end), end, size)
  }

  method PlanChunks(end: int, lookbackDays: int, chunkDays: int) returns (chunks: seq<Chunk>)
    requires chunkDays > 0
    ensures chunks == Plan(end - lookbackDays * DAY_SECONDS, end, chunkDays * DAY_SECONDS)
  {
    var cur := end - lookbackDays * DAY_SECONDS;
    ghost var start := cur;
    chunks := [];
    while cur < end
      invariant Plan(start, end, chunkDays * DAY_SECONDS) == chunks + Plan(cur, end, chunkDays * DAY_SECONDS)
    {
      var next := Min(cur + chunkDays * DAY_SECONDS, end);
      ghost var rest := Plan(next, end, chunkDays * DAY_SECONDS);
      assert chunks + ([Chunk(cur, next)] + rest) == (chunks + [Chunk(cur, next)]) + rest;
      chunks := chunks + [Chunk(cur, next)];
      cur := next;
    }
    assert chunks + [] == chunks;
  }

  /** Neighbouring chunks share their boundary and every chunk moves forward. */
  ghost predicate Contiguous(chunks: seq<Chunk>) {
    && (forall i :: 0 <= i < |chunks| ==> chunks[i].from < chunks[i].to)
    && (forall i :: 0 < i < |chunks| ==> chunks[i - 1].to == chunks[i].from)
  }

  /** The plan tiles the lookback window, oldest first, in chunks no longer than
      the given size. */
  lemma {:induction false} PlanTiles(from: int, end: int, size: int)
    requires size > 0
    ensures var chunks := Plan(from, end, size);
      && Contiguous(chunks)
      && (from < end ==> chunks != [] && chunks[0].from == from && chunks[|chunks| - 1].to == end)
      && (from >= end ==> chunks == [])
      && (forall i :: 0 <= i < |chunks| ==> chunks[i].to - chunks[i].from <= size)
    decreases if from < end then end - from else 0
  {
    if from < end {
      PlanTiles(Min(from + size, end), end, size);
    }
  }

  // ----- One run -----

  /** What happens at one chunk: the answer is archived and checkpointed (an
      empty answer too), the fetch raises, or the process dies, before or after
      archiving but in any case before the checkpoint. */
  datatype Outcome = Saved | Raised | Killed(archived: bool)

  /** The checkpoint file, and which chunks were ever fetched or raised. */
  datatype Store = Store(checkpoint: Option<int>, fetched: seq<Chunk>, raised: seq<Chunk>)

  /** A run starts at `now`; its checkpoint may be unreadable; it dies after
      the listed outcomes if they do not cover all chunks. */
  datatype Run = Run(now: int, readable: bool, outcomes: seq<Outcome>)

  function AtChunk(s: Store, c: Chunk, o: Outcome): Store {
    match o
    case Saved => Store(Some(c.to), s.fetched + [c], s.raised)
    case Raised => s.(raised := s.raised + [c])
    case Killed(archived) => if archived then s.(fetched := s.fetched + [c]) else s
  }

  function FetchAll(s: Store, chunks: seq<Chunk>, outcomes: seq<Outcome>): Store
    decreases |chunks|
  {
    if chunks == [] || outcomes == [] then s
    else if outcomes[0].Killed? then AtChunk(s, chunks[0], outcomes[0])
    else FetchAll(AtChunk(s, chunks[0], outcomes[0]), chunks[1..], outcomes[1..])
  }

  function EndsAfter(cp: int): Chunk -> bool {
    (c: Chunk) => c.to > cp
  }

  /** The chunks that end after the checkpoint. */
  function Remaining(plan: seq<Chunk>, checkpoint: Option<int>): seq<Chunk> {
    match checkpoint
    case None => plan
    case Some(cp) => Filter(plan, EndsAfter(cp))
  }

  function Resume(s: Store, r: Run, lookback: int, size: int): Store
    requires size > 0
  {
    var plan := Plan(r.now - lookback, r.now, size);
    FetchAll(s, Remaining(plan, if r.readable then s.checkpoint else None), r.outcomes)
  }

  class BackfillState {
    var checkpoint: Option<int>
    var fetched: seq<Chunk>
    var raised: seq<Chunk>

    ghost function State(): Store
      reads this
    {
      Store(checkpoint, fetched, raised)
    }

    /** One invocation of the script. */
    method RunBackfill(r: Run, lookbackDays: int, chunkDays: int)
      requires chunkDays > 0
      modifies this
      ensures State() == Resume(old(State()), r, lookbackDays * DAY_SECONDS, chunkDays * DAY_SECONDS)
    {
      var chunks := PlanChunks(r.now, lookbackDays, chunkDays);
      if r.readable && checkpoint.Some? {
        chunks := Filter(chunks, EndsAfter(checkpoint.value));
      }
      var rest, outcomes := chunks, r.outcomes;
      ghost var start := State();
      while rest != [] && outcomes != []
        invariant FetchAll(start, chunks, r.outcomes) == FetchAll(State(), rest, outcomes)
        decreases |rest|
      {
        FetchOne(rest[0], outcomes[0]);
        if outcomes[0].Killed? {
          return;
        }
        rest, outcomes := rest[1..], outcomes[1..];
      }
    }

    /** One pass of the fetch loop. */
    method FetchOne(c: Chunk, o: Outcome)
      modifies this
      ensures State() == AtChunk(old(State()), c, o)
    {
      match o {
        case Saved =>
          fetched := fetched + [c];
          checkpoint := Some(c.to);
        case Raised =>
          raised := raised + [c];
        case Killed(archived) =>
          if archived {
            fetched := fetched + [c];
          }
      }
    }
  }

  // ----- Coverage over any sequence of runs -----

  predicate Within(p: int, c: Chunk) { c.from <= p <= c.to }

  ghost predicate InSome(p: int, chunks: seq<Chunk>) {
    exists i :: 0 <= i < |chunks| && Within(p, chunks[i])
  }

  ghost predicate Attempted(s: Store, p: int) {
    InSome(p, s.fetched) || InSome(p, s.raised)
  }

  /** Every point from `start` up to `end` was attempted. */
  ghost predicate AttemptedFrom(s: Store, start: int, end: int) {
    forall p :: start <= p <= end ==> Attempted(s, p)
  }

  ghost predicate Covered(s: Store, start: int) {
    s.checkpoint.Some? ==> AttemptedFrom(s, start, s.checkpoint.value)
  }

  lemma {:induction false} InSomeGrows(p: int, chunks: seq<Chunk>, c: Chunk)
    ensures InSome(p, chunks) ==> InSome(p, chunks + [c])
    ensures Within(p, c) ==> InSome(p, chunks + [c])
  {
    var all := chunks + [c];
    assert all[|chunks|] == c;
    if InSome(p, chunks) {
      var i :| 0 <= i < |chunks| && Within(p, chunks[i]);
      assert all[i] == chunks[i];
    }
  }

  lemma {:induction false} ChunkIsAttempted(s: Store, c: Chunk, o: Outcome, p: int)
    ensures Attempted(s, p) ==> Attempted(AtChunk(s, c, o), p)
    ensures Within(p, c) && !o.Killed? ==> Attempted(AtChunk(s, c, o), p)
  {
    InSomeGrows(p, s.fetched, c);
    InSomeGrows(p, s.raised, c);
  }

  /** Working through contiguous chunks keeps everything from `start` to the
      checkpoint attempted, wherever the run stops. */
  lemma {:induction false} FetchingCovers(s: Store, chunks: seq<Chunk>, outcomes: seq<Outcome>, start: int)
    requires Contiguous(chunks) && Covered(s, start)
    requires chunks != [] ==> AttemptedFrom(s, start, chunks[0].from - 1)
    ensures Covered(FetchAll(s, chunks, outcomes), start)
    decreases |chunks|
  {
    if chunks != [] && outcomes != [] {
      var c, o := chunks[0], outcomes[0];
      var s' := AtChunk(s, c, o);
      forall p
        ensures Attempted(s, p) ==> Attempted(s', p)
        ensures Within(p, c) && !o.Killed? ==> Attempted(s', p)
      {
        ChunkIsAttempted(s, c, o, p);
      }
      if !o.Killed? {
        FetchingCovers(s', chunks[1..], outcomes[1..], start);
      }
    }
  }

  lemma {:induction false} ContiguousTail(plan: seq<Chunk>)
    requires Contiguous(plan) && plan != []
    ensures Contiguous(plan[1..])
  {
  }

  /** Resuming drops exactly a prefix of the plan, all of it behind the checkpoint. */
  lemma {:induction false} RemainingIsSuffix(plan: seq<Chunk>, cp: int) returns (k: nat)
    requires Contiguous(plan)
    ensures k <= |plan| && Filter(plan, EndsAfter(cp)) == plan[k..]
    ensures k > 0 ==> plan[k - 1].to <= cp
  {
    var keep := EndsAfter(cp);
    k := 0;
    if plan == [] {
    } else {
      if plan[0].to > cp {
        ChunksAscend(plan);
        FilterAll(plan, keep);
      } else {
        ContiguousTail(plan);
        var rest := RemainingIsSuffix(plan[1..], cp);
        k := rest + 1;
        assert Filter(plan, keep) == [] + Filter(plan[1..], keep);
        assert plan[1..][rest..] == plan[k..];
      }
    }
  }

  lemma {:induction false} ChunksAscend(plan: seq<Chunk>)
    requires Contiguous(plan)
    ensures forall c :: c in plan ==> c.to >= plan[0].to
  {
    if |plan| > 1 {
      ChunksAscend(plan[1..]);
    }
  }

  lemma {:induction false} ResumeCovers(s: Store, r: Run, lookback: int, size: int, before: int)
    requires size > 0 && before <= r.now - lookback && Covered(s, before)
    ensures Covered(Resume(s, r, lookback, size), r.now - lookback)
  {
    hide FetchAll;
    hide Attempted;
    hide Filter;
    var start := r.now - lookback;
    var plan := Plan(start, r.now, size);
    PlanTiles(start, r.now, size);
    if r.readable && s.checkpoint.Some? {
      var k := RemainingIsSuffix(plan, s.checkpoint.value);
      FetchingCovers(s, plan[k..], r.outcomes, start);
    } else {
      FetchingCovers(s, plan, r.outcomes, start);
    }
  }

  function ResumeAll(s: Store, runs: seq<Run>, lookback: int, size: int): Store
    requires size > 0
  {
    if runs == [] then s
    else Resume(ResumeAll(s, runs[..|runs| - 1], lookback, size), runs[|runs| - 1], lookback, size)
  }

  ghost predicate ClockNeverFalls(runs: seq<Run>) {
    forall i, j :: 0 <= i < j < |runs| ==> runs[i].now <= runs[j].now
  }

  const NEVER_RUN := Store(None, [], [])

  /** Over any sequence of runs, killed anywhere and resumed with the same
      lookback, every point from the current window's start to the checkpoint was
      in a chunk that was fetched or whose fetch raised. */
  lemma {:induction false} CheckpointIsCovered(runs: seq<Run>, lookback: int, size: int)
    requires size > 0 && runs != [] && ClockNeverFalls(runs)
    ensures Covered(ResumeAll(NEVER_RUN, runs, lookback, size), runs[|runs| - 1].now - lookback)
  {
    var n := |runs| - 1;
    if n > 0 {
      CheckpointIsCovered(runs[..n], lookback, size);
    }
    ResumeCovers(ResumeAll(NEVER_RUN, runs[..n], lookback, size), runs[n], lookback, size,
                 if n == 0 then runs[0].now - lookback else runs[n - 1].now - lookback);
  }

  // ----- When the checkpoint means "fetched" -----

  ghost predicate NoneRaise(outcomes: seq<Outcome>) {
    forall i :: 0 <= i < |outcomes| ==> outcomes[i] != Raised
  }

  ghost predicate NoRunRaises(runs: seq<Run>) {
    forall i :: 0 <= i < |runs| ==> NoneRaise(runs[i].outcomes)
  }

  lemma {:induction false} QuietFetches(s: Store, chunks: seq<Chunk>, outcomes: seq<Outcome>)
    requires NoneRaise(outcomes)
    ensures FetchAll(s, chunks, outcomes).raised == s.raised
    decreases |chunks|
  {
    if chunks != [] && outcomes != [] && !outcomes[0].Killed? {
      QuietFetches(AtChunk(s, chunks[0], outcomes[0]), chunks[1..], outcomes[1..]);
    }
  }

  lemma {:induction false} QuietResume(s: Store, r: Run, lookback: int, size: int)
    requires size > 0 && NoneRaise(r.outcomes)
    ensures Resume(s, r, lookback, size).raised == s.raised
  {
    var plan := Plan(r.now - lookback, r.now, size);
    QuietFetches(s, Remaining(plan, if r.readable then s.checkpoint else None), r.outcomes);
  }

  lemma {:induction false} QuietRuns(runs: seq<Run>, lookback: int, size: int)
    requires size > 0 && NoRunRaises(runs)
    ensures ResumeAll(NEVER_RUN, runs, lookback, size).raised == []
  {
    if runs == [] {
    } else {
      var n := |runs| - 1;
      QuietRuns(runs[..n], lookback, size);
      QuietResume(ResumeAll(NEVER_RUN, runs[..n], lookback, size), runs[n], lookback, size);
    }
  }

  /** As long as no fetch has raised, everything up to the checkpoint was fetched. */
  lemma {:induction false} CheckpointIsFetched(runs: seq<Run>, lookback: int, size: int, p: int)
    requires size > 0 && runs != [] && ClockNeverFalls(runs) && NoRunRaises(runs)
    ensures var s := ResumeAll(NEVER_RUN, runs, lookback, size);
      s.checkpoint.Some? && runs[|runs| - 1].now - lookback <= p <= s.checkpoint.value ==> InSome(p, s.fetched)
  {
    var s := ResumeAll(NEVER_RUN, runs, lookback, size);
    CheckpointIsCovered(runs, lookback, size);
    QuietRuns(runs, lookback, size);
    if s.checkpoint.Some? && runs[|runs| - 1].now - lookback <= p <= s.checkpoint.value {
      assert Attempted(s, p);
    }
  }

  /** Everything from `start` to the checkpoint was fetched. */
  ghost predicate Complete(s: Store, start: int) {
    s.checkpoint.Some? ==> forall p :: start <= p <= s.checkpoint.value ==> InSome(p, s.fetched)
  }

  ghost predicate AliveUntil(outcomes: seq<Outcome>, j: int) {
    forall m :: 0 <= m < j && m < |outcomes| ==> !outcomes[m].Killed?
  }

  /** The run saves one of its first `n` chunks. */
  ghost predicate SavesOne(outcomes: seq<Outcome>, n: nat) {
    exists j :: 0 <= j < |outcomes| && j < n && SavedAt(outcomes, j)
  }

  ghost predicate SavedAt(outcomes: seq<Outcome>, j: nat)
    requires j < |outcomes|
  {
    outcomes[j] == Saved && AliveUntil(outcomes, j)
  }

  /** The run saves a chunk after one whose fetch raised and that was never
      fetched before. */
  ghost predicate Skips(fetched: seq<Chunk>, chunks: seq<Chunk>, outcomes: seq<Outcome>) {
    exists i, j :: 0 <= i < j < |outcomes| && j < |chunks| && SkipsAt(fetched, chunks, outcomes, i, j)
  }

  ghost predicate SkipsAt(fetched: seq<Chunk>, chunks: seq<Chunk>, outcomes: seq<Outcome>, i: nat, j: nat)
    requires i < j < |outcomes| && j < |chunks|
  {
    outcomes[i] == Raised && chunks[i] !in fetched && SavedAt(outcomes, j)
  }

  lemma {:induction false} SavedAtTail(outcomes: seq<Outcome>, j: nat)
    requires j + 1 < |outcomes|
    ensures SavedAt(outcomes, j + 1) <==> !outcomes[0].Killed? && SavedAt(outcomes[1..], j)
  {
    assert forall m :: 0 <= m < |outcomes| - 1 ==> outcomes[1..][m] == outcomes[m + 1];
    if SavedAt(outcomes, j + 1) {
      assert !outcomes[0].Killed?;
    }
    if !outcomes[0].Killed? && SavedAt(outcomes[1..], j) {
      forall m | 0 <= m < j + 1
        ensures !outcomes[m].Killed?
      {
        if m > 0 {
          assert !outcomes[1..][m - 1].Killed?;
        }
      }
    }
  }

  lemma {:induction false} SavesOneStep(outcomes: seq<Outcome>, n: nat)
    requires outcomes != [] && n > 0
    ensures SavesOne(outcomes, n) <==>
      outcomes[0] == Saved || (!outcomes[0].Killed? && SavesOne(outcomes[1..], n - 1))
  {
    hide SavedAt;
    var tail := outcomes[1..];
    FirstSaved(outcomes);
    if SavesOne(outcomes, n) {
      var j :| 0 <= j < |outcomes| && j < n && SavedAt(outcomes, j);
      if j > 0 {
        SavedAtTail(outcomes, j - 1);
      }
    }
    if !outcomes[0].Killed? && SavesOne(tail, n - 1) {
      var j :| 0 <= j < |tail| && j < n - 1 && SavedAt(tail, j);
      SavedAtTail(outcomes, j);
    }
  }

  lemma {:induction false} FirstSaved(outcomes: seq<Outcome>)
    requires outcomes != []
    ensures SavedAt(outcomes, 0) <==> outcomes[0] == Saved
  {
  }

  lemma {:induction false} SkipsStep(fetched: seq<Chunk>, chunks: seq<Chunk>, outcomes: seq<Outcome>)
    requires outcomes != [] && chunks != []
    ensures Skips(fetched, chunks, outcomes) <==>
      && !outcomes[0].Killed?
      && (|| (outcomes[0] == Raised && chunks[0] !in fetched && SavesOne(outcomes[1..], |chunks| - 1))
          || Skips(fetched, chunks[1..], outcomes[1..]))
  {
    hide SavedAt;
    var cs, os := chunks[1..], outcomes[1..];
    if Skips(fetched, chunks, outcomes) {
      var i, j :| 0 <= i < j < |outcomes| && j < |chunks| && SkipsAt(fetched, chunks, outcomes, i, j);
      SavedAtTail(outcomes, j - 1);
      if i > 0 {
        assert SkipsAt(fetched, cs, os, i - 1, j - 1);
      }
    }
    if !outcomes[0].Killed? && Skips(fetched, cs, os) {
      var i, j :| 0 <= i < j < |os| && j < |cs| && SkipsAt(fetched, cs, os, i, j);
      SavedAtTail(outcomes, j);
      assert SkipsAt(fetched, chunks, outcomes, i + 1, j + 1);
    }
    if outcomes[0] == Raised && chunks[0] !in fetched && SavesOne(os, |chunks| - 1) {
      var j :| 0 <= j < |os| && j < |chunks| - 1 && SavedAt(os, j);
      SavedAtTail(outcomes, j);
      assert SkipsAt(fetched, chunks, outcomes, 0, j + 1);
    }
  }

  // ----- The store against one plan -----

  /** The checkpoint stands after the first `q` chunks, and what was fetched is
      whole chunks of the plan, the last of those among them. */
  ghost predicate StandsAt(s: Store, plan: seq<Chunk>, q: nat) {
    && q <= |plan|
    && s.checkpoint == (if q == 0 then None else Some(plan[q - 1].to))
    && (forall c :: c in s.fetched ==> c in plan)
    && (q > 0 ==> plan[q - 1] in s.fetched)
  }

  ghost predicate AllFetched(s: Store, plan: seq<Chunk>, from: int, q: nat)
    requires 0 <= from && q <= |plan|
  {
    forall i :: from <= i < q ==> plan[i] in s.fetched
  }

  /** Chunks that come earlier end no later than a later one begins. */
  lemma {:induction false} ChunksInOrder(chunks: seq<Chunk>, i: nat, k: nat)
    requires Contiguous(chunks) && i < k < |chunks|
    ensures chunks[i].to <= chunks[k].from < chunks[k].to
  {
    if i + 1 < k {
      ChunksInOrder(chunks, i, k - 1);
    }
  }

  lemma {:induction false} PlanHasNoRepeats(plan: seq<Chunk>, i: nat, k: nat)
    requires Contiguous(plan) && i < k < |plan|
    ensures plan[i] != plan[k]
  {
    ChunksInOrder(plan, i, k);
  }

  lemma {:induction false} BehindAndAhead(plan: seq<Chunk>, q: nat)
    requires Contiguous(plan) && 0 < q <= |plan|
    ensures forall c :: c in plan[..q] ==> c.to <= plan[q - 1].to
    ensures forall c :: c in plan[q..] ==> c.from >= plan[q - 1].to && c.to > plan[q - 1].to
  {
    forall i | 0 <= i < q
      ensures plan[i].to <= plan[q - 1].to
    {
      if i < q - 1 {
        ChunksInOrder(plan, i, q - 1);
      }
    }
    forall i | q <= i < |plan|
      ensures plan[i].from >= plan[q - 1].to && plan[i].to > plan[q - 1].to
    {
      ChunksInOrder(plan, q - 1, i);
    }
  }

  /** What is left after a checkpoint at `q` is the rest of the plan. */
  lemma {:induction false} RemainingAt(s: Store, plan: seq<Chunk>, q: nat)
    requires Contiguous(plan) && StandsAt(s, plan, q)
    ensures Remaining(plan, s.checkpoint) == plan[q..]
  {
    hide Contiguous;
    hide Filter;
    if q == 0 {
      assert plan[0..] == plan;
    } else {
      var cp := s.checkpoint.value;
      BehindAndAhead(plan, q);
      FilterSplit(plan[..q], plan[q..], EndsAfter(cp));
      assert plan == plan[..q] + plan[q..];
    }
  }

  /** The chunks behind the checkpoint are all fetched. */
  ghost predicate Whole(s: Store, plan: seq<Chunk>, q: nat) {
    q <= |plan| && AllFetched(s, plan, 0, q)
  }

  /** Working on from chunk `m` with the checkpoint at `q`: the chunks behind the
      new checkpoint are all fetched exactly when those behind the old one were,
      those in between were if anything is saved, and nothing is skipped. */
  ghost predicate KeepsWhole(s: Store, plan: seq<Chunk>, q: nat, m: nat, outcomes: seq<Outcome>, s': Store, q': nat)
    requires q <= m <= |plan|
  {
    && q <= q' && StandsAt(s', plan, q')
    && (Whole(s', plan, q') <==>
          && Whole(s, plan, q)
          && (SavesOne(outcomes, |plan| - m) ==> AllFetched(s, plan, q, m))
          && !Skips(s.fetched, plan[m..], outcomes))
  }

  lemma {:induction false} StopKeepsWhole(s: Store, plan: seq<Chunk>, q: nat, m: nat, outcomes: seq<Outcome>)
    requires q <= m <= |plan| && StandsAt(s, plan, q) && (m == |plan| || outcomes == [])
    ensures KeepsWhole(s, plan, q, m, outcomes, s, q)
  {
  }

  lemma {:induction false} KillKeepsWhole(s: Store, plan: seq<Chunk>, q: nat, m: nat, outcomes: seq<Outcome>)
    requires Contiguous(plan) && q <= m < |plan| && StandsAt(s, plan, q) && outcomes != [] && outcomes[0].Killed?
    ensures KeepsWhole(s, plan, q, m, outcomes, AtChunk(s, plan[m], outcomes[0]), q)
  {
    hide Skips;
    hide SavesOne;
    SavesOneStep(outcomes, |plan| - m);
    SkipsStep(s.fetched, plan[m..], outcomes);
    var s' := AtChunk(s, plan[m], outcomes[0]);
    forall i | 0 <= i < q
      ensures plan[i] in s'.fetched <==> plan[i] in s.fetched
    {
      PlanHasNoRepeats(plan, i, m);
    }
  }

  lemma {:induction false} SaveKeepsWhole(
      s: Store, plan: seq<Chunk>, q: nat, m: nat, outcomes: seq<Outcome>, s': Store, s'': Store, q'': nat)
    requires Contiguous(plan) && q <= m < |plan| && StandsAt(s, plan, q) && outcomes != [] && outcomes[0] == Saved
    requires s' == AtChunk(s, plan[m], Saved)
    requires KeepsWhole(s', plan, m + 1, m + 1, outcomes[1..], s'', q'')
    ensures KeepsWhole(s, plan, q, m, outcomes, s'', q'')
  {
    SavesOneStep(outcomes, |plan| - m);
    SkipsStep(s.fetched, plan[m..], outcomes);
    assert plan[m..][1..] == plan[m + 1..];
    SameSkips(s.fetched, plan, m, outcomes[1..]);
    forall i | 0 <= i < m
      ensures plan[i] in s'.fetched <==> plan[i] in s.fetched
    {
      PlanHasNoRepeats(plan, i, m);
    }
    hide Skips;
    hide SavesOne;
    assert AllFetched(s', plan, 0, m + 1) <==> AllFetched(s, plan, 0, q) && AllFetched(s, plan, q, m);
  }

  /** A chunk fetched just now does not occur later in the plan. */
  lemma {:induction false} SameSkips(fetched: seq<Chunk>, plan: seq<Chunk>, m: nat, outcomes: seq<Outcome>)
    requires Contiguous(plan) && m < |plan|
    ensures Skips(fetched + [plan[m]], plan[m + 1..], outcomes) <==> Skips(fetched, plan[m + 1..], outcomes)
  {
    var cs, more := plan[m + 1..], fetched + [plan[m]];
    forall i | 0 <= i < |cs|
      ensures cs[i] in more <==> cs[i] in fetched
    {
      PlanHasNoRepeats(plan, m, m + 1 + i);
    }
    hide SavedAt;
    if Skips(more, cs, outcomes) {
      var i, j :| 0 <= i < j < |outcomes| && j < |cs| && SkipsAt(more, cs, outcomes, i, j);
      assert SkipsAt(fetched, cs, outcomes, i, j);
    }
    if Skips(fetched, cs, outcomes) {
      var i, j :| 0 <= i < j < |outcomes| && j < |cs| && SkipsAt(fetched, cs, outcomes, i, j);
      assert SkipsAt(more, cs, outcomes, i, j);
    }
  }

  lemma {:induction false} RaiseKeepsWhole(
      s: Store, plan: seq<Chunk>, q: nat, m: nat, outcomes: seq<Outcome>, s'': Store, q'': nat)
    requires Contiguous(plan) && q <= m < |plan| && StandsAt(s, plan, q) && outcomes != [] && outcomes[0] == Raised
    requires KeepsWhole(AtChunk(s, plan[m], Raised), plan, q, m + 1, outcomes[1..], s'', q'')
    ensures KeepsWhole(s, plan, q, m, outcomes, s'', q'')
  {
    SavesOneStep(outcomes, |plan| - m);
    SkipsStep(s.fetched, plan[m..], outcomes);
    assert plan[m..][1..] == plan[m + 1..];
    hide Skips;
    hide SavesOne;
    assert AllFetched(s, plan, q, m + 1) <==> AllFetched(s, plan, q, m) && plan[m] in s.fetched;
  }

  lemma {:induction false} FetchKeepsWhole(s: Store, plan: seq<Chunk>, q: nat, m: nat, outcomes: seq<Outcome>) returns (q': nat)
    requires Contiguous(plan) && q <= m <= |plan| && StandsAt(s, plan, q)
    ensures KeepsWhole(s, plan, q, m, outcomes, FetchAll(s, plan[m..], outcomes), q')
    decreases |plan| - m
  {
    hide KeepsWhole;
    hide Contiguous;
    if m == |plan| || outcomes == [] {
      q' := q;
      StopKeepsWhole(s, plan, q, m, outcomes);
    } else {
      var s' := AtChunk(s, plan[m], outcomes[0]);
      assert plan[m..][1..] == plan[m + 1..];
      match outcomes[0] {
        case Killed(_) =>
          q' := q;
          KillKeepsWhole(s, plan, q, m, outcomes);
        case Saved =>
          SaveStands(s, plan, q, m);
          q' := FetchKeepsWhole(s', plan, m + 1, m + 1, outcomes[1..]);
          SaveKeepsWhole(s, plan, q, m, outcomes, s', FetchAll(s', plan[m + 1..], outcomes[1..]), q');
        case Raised =>
          q' := FetchKeepsWhole(s', plan, q, m + 1, outcomes[1..]);
          RaiseKeepsWhole(s, plan, q, m, outcomes, FetchAll(s', plan[m + 1..], outcomes[1..]), q');
      }
    }
  }

  lemma {:induction false} SaveStands(s: Store, plan: seq<Chunk>, q: nat, m: nat)
    requires q <= m < |plan| && StandsAt(s, plan, q)
    ensures StandsAt(AtChunk(s, plan[m], Saved), plan, m + 1)
  {
  }

  // ----- Chunks and points -----

  /** Every chunk but the last has full length. */
  lemma {:induction false} FullChunks(from: int, end: int, size: int, i: nat)
    requires size > 0 && i + 1 < |Plan(from, end, size)|
    ensures Plan(from, end, size)[i].to - Plan(from, end, size)[i].from == size
    decreases i
  {
    if i > 0 {
      FullChunks(Min(from + size, end), end, size, i - 1);
    }
  }

  /** A point up to the end of chunk `q - 1` lies in one of the first `q` chunks. */
  lemma {:induction false} PointInChunk(plan: seq<Chunk>, q: nat, p: int) returns (i: nat)
    requires Contiguous(plan) && 0 < q <= |plan| && plan[0].from <= p <= plan[q - 1].to
    ensures i < q && Within(p, plan[i])
  {
    if p >= plan[q - 1].from {
      i := q - 1;
    } else {
      i := PointInChunk(plan, q - 1, p);
    }
  }

  /** A point strictly inside a chunk lies in no other. */
  lemma {:induction false} InsideOneChunk(plan: seq<Chunk>, i: nat, p: int, c: Chunk)
    requires Contiguous(plan) && i < |plan| && plan[i].from < p < plan[i].to
    requires c in plan && Within(p, c)
    ensures c == plan[i]
  {
    var k :| 0 <= k < |plan| && plan[k] == c;
    if k < i {
      ChunksInOrder(plan, k, i);
    } else if i < k {
      ChunksInOrder(plan, i, k);
    }
  }

  /** If every point is fetched, so is a chunk before the last with room inside. */
  lemma {:induction false} PointsGiveChunk(s: Store, plan: seq<Chunk>, q: nat, i: nat)
    requires Contiguous(plan) && StandsAt(s, plan, q) && i + 1 < q && plan[i].to - plan[i].from >= 2
    requires Complete(s, plan[0].from)
    ensures plan[i] in s.fetched
  {
    var p := plan[i].from + 1;
    ChunksInOrder(plan, i, q - 1);
    if i > 0 {
      ChunksInOrder(plan, 0, i);
    }
    assert InSome(p, s.fetched);
    var k :| 0 <= k < |s.fetched| && Within(p, s.fetched[k]);
    InsideOneChunk(plan, i, p, s.fetched[k]);
  }

  lemma {:induction false} ChunksGivePoint(s: Store, plan: seq<Chunk>, q: nat, p: int)
    requires Contiguous(plan) && 0 < q <= |plan| && Whole(s, plan, q) && plan[0].from <= p <= plan[q - 1].to
    ensures InSome(p, s.fetched)
  {
    var i := PointInChunk(plan, q, p);
    var k :| 0 <= k < |s.fetched| && s.fetched[k] == plan[i];
  }

  /** All points up to the checkpoint are fetched exactly when all chunks are. */
  lemma {:induction false} CompleteIsWhole(s: Store, start: int, end: int, size: int, q: nat)
    requires size >= 2 && StandsAt(s, Plan(start, end, size), q)
    ensures Complete(s, start) <==> Whole(s, Plan(start, end, size), q)
  {
    hide Plan;
    hide InSome;
    var plan := Plan(start, end, size);
    PlanTiles(start, end, size);
    if Complete(s, start) {
      forall i | 0 <= i < q
        ensures plan[i] in s.fetched
      {
        if i < q - 1 {
          FullChunks(start, end, size, i);
          PointsGiveChunk(s, plan, q, i);
        }
      }
    }
    if Whole(s, plan, q) && q > 0 {
      forall p | start <= p <= s.checkpoint.value
        ensures InSome(p, s.fetched)
      {
        ChunksGivePoint(s, plan, q, p);
      }
    }
  }

  // ----- Re-runs -----

  /** Re-runs at one time, with the checkpoint readable. */
  ghost predicate Reruns(runs: seq<Run>, now: int) {
    forall k :: 0 <= k < |runs| ==> runs[k].now == now && runs[k].readable
  }

  /** Run `k` saves a chunk after one whose fetch raised and that no run had fetched. */
  ghost predicate RunSkips(runs: seq<Run>, k: nat, lookback: int, size: int)
    requires size > 0 && k < |runs|
  {
    var s := ResumeAll(NEVER_RUN, runs[..k], lookback, size);
    Skips(s.fetched, Remaining(Plan(runs[k].now - lookback, runs[k].now, size), s.checkpoint), runs[k].outcomes)
  }

  ghost predicate SomeRunSkips(runs: seq<Run>, lookback: int, size: int)
    requires size > 0
  {
    exists k :: 0 <= k < |runs| && RunSkips(runs, k, lookback, size)
  }

  lemma {:induction false} OneMoreRun(runs: seq<Run>, lookback: int, size: int)
    requires size > 0 && runs != []
    ensures var n := |runs| - 1;
      SomeRunSkips(runs, lookback, size) <==> SomeRunSkips(runs[..n], lookback, size) || RunSkips(runs, n, lookback, size)
  {
    hide ResumeAll;
    hide Skips;
    hide Plan;
    var n := |runs| - 1;
    forall k | 0 <= k < n
      ensures RunSkips(runs, k, lookback, size) <==> RunSkips(runs[..n], k, lookback, size)
    {
      assert runs[..n][..k] == runs[..k] && runs[..n][k] == runs[k];
    }
  }

  ghost predicate TracksSkips(s: Store, plan: seq<Chunk>, q: nat, skipped: bool) {
    StandsAt(s, plan, q) && (Whole(s, plan, q) <==> !skipped)
  }

  lemma {:induction false} FetchTracks(s: Store, plan: seq<Chunk>, outcomes: seq<Outcome>, q: nat, skipped: bool) returns (q': nat)
    requires Contiguous(plan) && TracksSkips(s, plan, q, skipped)
    ensures var chunks := Remaining(plan, s.checkpoint);
      TracksSkips(FetchAll(s, chunks, outcomes), plan, q', skipped || Skips(s.fetched, chunks, outcomes))
  {
    hide FetchAll;
    hide Skips;
    hide Contiguous;
    hide Remaining;
    RemainingAt(s, plan, q);
    q' := FetchKeepsWhole(s, plan, q, q, outcomes);
  }

  lemma {:induction false} ResumeTracks(s: Store, r: Run, lookback: int, size: int, q: nat, skipped: bool) returns (q': nat)
    requires size > 0 && r.readable && TracksSkips(s, Plan(r.now - lookback, r.now, size), q, skipped)
    ensures var plan := Plan(r.now - lookback, r.now, size);
      TracksSkips(Resume(s, r, lookback, size), plan, q', skipped || Skips(s.fetched, Remaining(plan, s.checkpoint), r.outcomes))
  {
    hide Plan;
    hide FetchAll;
    hide Skips;
    hide TracksSkips;
    hide Remaining;
    PlanTiles(r.now - lookback, r.now, size);
    q' := FetchTracks(s, Plan(r.now - lookback, r.now, size), r.outcomes, q, skipped);
  }

  lemma {:induction false} NeverRunTracks(plan: seq<Chunk>, lookback: int, size: int)
    requires size > 0
    ensures TracksSkips(NEVER_RUN, plan, 0, SomeRunSkips([], lookback, size))
    ensures TracksSkips(NEVER_RUN, plan, 0, false)
  {
  }

  lemma {:induction false} RerunsTrack(runs: seq<Run>, now: int, lookback: int, size: int) returns (q: nat)
    requires size > 0 && Reruns(runs, now)
    ensures TracksSkips(ResumeAll(NEVER_RUN, runs, lookback, size), Plan(now - lookback, now, size), q, SomeRunSkips(runs, lookback, size))
  {
    hide Plan;
    hide Resume;
    hide TracksSkips;
    hide SomeRunSkips;
    if runs == [] {
      q := 0;
      NeverRunTracks(Plan(now - lookback, now, size), lookback, size);
    } else {
      var n := |runs| - 1;
      var before := RerunsTrack(runs[..n], now, lookback, size);
      OneMoreRun(runs, lookback, size);
      q := ResumeTracks(ResumeAll(NEVER_RUN, runs[..n], lookback, size), runs[n], lookback, size, before,
                        SomeRunSkips(runs[..n], lookback, size));
    }
  }

  /** However often the script is run again at one time, everything up to the
      checkpoint was fetched exactly when no run saved a chunk after one whose
      fetch had raised and that no run had fetched. */
  lemma {:induction false} RerunsAreCompleteExactlyWhen(runs: seq<Run>, now: int, lookback: int, size: int)
    requires size >= 2 && Reruns(runs, now)
    ensures Complete(ResumeAll(NEVER_RUN, runs, lookback, size), now - lookback) <==> !SomeRunSkips(runs, lookback, size)
  {
    hide Plan;
    hide ResumeAll;
    hide SomeRunSkips;
    hide StandsAt;
    hide Whole;
    hide Complete;
    var q := RerunsTrack(runs, now, lookback, size);
    CompleteIsWhole(ResumeAll(NEVER_RUN, runs, lookback, size), now - lookback, now, size, q);
  }

  /** Among the first `n` chunks a fetch raised and a later chunk was still saved. */
  ghost predicate SavedAfterRaise(outcomes: seq<Outcome>, n: nat) {
    exists i, j :: 0 <= i < j < |outcomes| && j < n && outcomes[i] == Raised && SavedAt(outcomes, j)
  }

  lemma {:induction false} FirstRunSkips(chunks: seq<Chunk>, outcomes: seq<Outcome>)
    ensures Skips([], chunks, outcomes) <==> SavedAfterRaise(outcomes, |chunks|)
  {
    hide SavedAt;
    if SavedAfterRaise(outcomes, |chunks|) {
      var i, j :| 0 <= i < j < |outcomes| && j < |chunks| && outcomes[i] == Raised && SavedAt(outcomes, j);
      assert SkipsAt([], chunks, outcomes, i, j);
    }
    if Skips([], chunks, outcomes) {
      var i, j :| 0 <= i < j < |outcomes| && j < |chunks| && SkipsAt([], chunks, outcomes, i, j);
    }
  }

  /** A first run leaves everything up to its checkpoint fetched exactly when it
      saved no chunk after one whose fetch had raised. */
  lemma {:induction false} FirstRunIsCompleteExactlyWhen(r: Run, lookback: int, size: int)
    requires size >= 2
    ensures Complete(Resume(NEVER_RUN, r, lookback, size), r.now - lookback)
       <==> !SavedAfterRaise(r.outcomes, |Plan(r.now - lookback, r.now, size)|)
  {
    hide Plan;
    hide FetchAll;
    hide Skips;
    hide SavedAfterRaise;
    hide StandsAt;
    hide Whole;
    hide Complete;
    var start := r.now - lookback;
    var plan := Plan(start, r.now, size);
    PlanTiles(start, r.now, size);
    NeverRunTracks(plan, lookback, size);
    var q := FetchTracks(NEVER_RUN, plan, r.outcomes, 0, false);
    FirstRunSkips(plan, r.outcomes);
    CompleteIsWhole(Resume(NEVER_RUN, r, lookback, size), start, r.now, size, q);
  }

  // ----- A gap is for good -----

  /** A point inside no chunk that is not raised is never fetched. */
  lemma {:induction false} NeverFetched(s: Store, chunks: seq<Chunk>, outcomes: seq<Outcome>, p: int)
    requires !InSome(p, s.fetched) && forall k :: 0 <= k < |chunks| ==> !Within(p, chunks[k])
    ensures !InSome(p, FetchAll(s, chunks, outcomes).fetched)
    decreases |chunks|
  {
    if chunks != [] && outcomes != [] {
      assert !Within(p, chunks[0]);
      if !outcomes[0].Killed? {
        NeverFetched(AtChunk(s, chunks[0], outcomes[0]), chunks[1..], outcomes[1..], p);
      }
    }
  }

  /** Working on chunks beyond the checkpoint never moves it back. */
  lemma {:induction false} CheckpointRises(s: Store, chunks: seq<Chunk>, outcomes: seq<Outcome>, floor: int)
    requires s.checkpoint.Some? && s.checkpoint.value >= floor
    requires forall k :: 0 <= k < |chunks| ==> chunks[k].to >= floor
    ensures var cp := FetchAll(s, chunks, outcomes).checkpoint;
      cp.Some? && cp.value >= floor
    decreases |chunks|
  {
    if chunks != [] && outcomes != [] && !outcomes[0].Killed? {
      CheckpointRises(AtChunk(s, chunks[0], outcomes[0]), chunks[1..], outcomes[1..], floor);
    }
  }

  /** `p` lies at least a chunk's length behind the checkpoint and was not fetched. */
  ghost predicate Missed(s: Store, p: int, size: int) {
    s.checkpoint.Some? && p <= s.checkpoint.value - size && !InSome(p, s.fetched)
  }

  lemma {:induction false} RemainingIsBeyond(plan: seq<Chunk>, cp: int, size: int)
    requires forall i :: 0 <= i < |plan| ==> plan[i].to - plan[i].from <= size
    ensures forall c :: c in Remaining(plan, Some(cp)) ==> c.to > cp && c.from > cp - size
  {
    FilterMembers(plan, EndsAfter(cp));
  }

  lemma {:induction false} MissedStays(s: Store, r: Run, lookback: int, size: int, p: int)
    requires size > 0 && r.readable && Missed(s, p, size)
    ensures Missed(Resume(s, r, lookback, size), p, size)
  {
    hide Plan;
    hide Remaining;
    hide FetchAll;
    hide InSome;
    var plan := Plan(r.now - lookback, r.now, size);
    var chunks := Remaining(plan, s.checkpoint);
    PlanTiles(r.now - lookback, r.now, size);
    RemainingIsBeyond(plan, s.checkpoint.value, size);
    assert forall k :: 0 <= k < |chunks| ==> chunks[k] in chunks;
    NeverFetched(s, chunks, r.outcomes, p);
    CheckpointRises(s, chunks, r.outcomes, s.checkpoint.value);
  }

  /** A point a chunk's length behind the checkpoint that was not fetched stays
      missing however often the script is run again, at whatever times. */
  lemma {:induction false} GapIsForGood(s: Store, runs: seq<Run>, lookback: int, size: int, p: int)
    requires size > 0 && Missed(s, p, size)
    requires forall k :: 0 <= k < |runs| ==> runs[k].readable
    ensures !InSome(p, ResumeAll(s, runs, lookback, size).fetched)
    ensures Missed(ResumeAll(s, runs, lookback, size), p, size)
  {
    hide Resume;
    if runs == [] {
    } else {
      var n := |runs| - 1;
      GapIsForGood(s, runs[..n], lookback, size, p);
      MissedStays(ResumeAll(s, runs[..n], lookback, size), runs[n], lookback, size, p);
    }
  }

  ghost predicate MissedAt(s: Store, plan: seq<Chunk>, p: int) {
    s.checkpoint.Some? && p < s.checkpoint.value && !InSome(p, s.fetched) && Stands(s, plan)
  }

  ghost predicate Stands(s: Store, plan: seq<Chunk>) {
    exists q: nat :: StandsAt(s, plan, q)
  }

  lemma {:induction false} FetchStands(s: Store, plan: seq<Chunk>, q: nat, outcomes: seq<Outcome>)
    requires Contiguous(plan) && StandsAt(s, plan, q)
    ensures Stands(FetchAll(s, plan[q..], outcomes), plan)
  {
    hide FetchAll;
    hide Contiguous;
    hide Skips;
    var q' := FetchKeepsWhole(s, plan, q, q, outcomes);
  }

  /** The rest of the plan neither reaches back to `p` nor moves the checkpoint back. */
  lemma {:induction false} MissedAtFetches(s: Store, plan: seq<Chunk>, q: nat, outcomes: seq<Outcome>, p: int)
    requires Contiguous(plan) && StandsAt(s, plan, q) && MissedAt(s, plan, p)
    ensures MissedAt(FetchAll(s, plan[q..], outcomes), plan, p)
  {
    BehindAndAhead(plan, q);
    FetchStands(s, plan, q, outcomes);
    hide Contiguous;
    hide StandsAt;
    hide FetchAll;
    var chunks, cp := plan[q..], s.checkpoint.value;
    forall k | 0 <= k < |chunks|
      ensures !Within(p, chunks[k]) && chunks[k].to >= cp
    {
      assert chunks[k] in chunks;
    }
    NeverFetched(s, chunks, outcomes, p);
    CheckpointRises(s, chunks, outcomes, cp);
  }

  lemma {:induction false} MissedAtStays(s: Store, r: Run, lookback: int, size: int, p: int)
    requires size > 0 && r.readable && MissedAt(s, Plan(r.now - lookback, r.now, size), p)
    ensures MissedAt(Resume(s, r, lookback, size), Plan(r.now - lookback, r.now, size), p)
  {
    hide Plan;
    hide StandsAt;
    hide FetchAll;
    hide Remaining;
    hide InSome;
    var plan := Plan(r.now - lookback, r.now, size);
    PlanTiles(r.now - lookback, r.now, size);
    var q: nat :| StandsAt(s, plan, q);
    RemainingAt(s, plan, q);
    MissedAtFetches(s, plan, q, r.outcomes, p);
  }

  lemma {:induction false} MissedAtForGood(s: Store, more: seq<Run>, now: int, lookback: int, size: int, p: int)
    requires size > 0 && Reruns(more, now) && MissedAt(s, Plan(now - lookback, now, size), p)
    ensures MissedAt(ResumeAll(s, more, lookback, size), Plan(now - lookback, now, size), p)
  {
    hide Resume;
    hide Plan;
    hide MissedAt;
    if more == [] {
    } else {
      var n := |more| - 1;
      MissedAtForGood(s, more[..n], now, lookback, size, p);
      MissedAtStays(ResumeAll(s, more[..n], lookback, size), more[n], lookback, size, p);
    }
  }

  /** At one time nothing behind the checkpoint is ever caught up on: a point the
      runs so far have passed without fetching it is fetched by no re-run. */
  lemma {:induction false} PassedPointIsNeverFetched(runs: seq<Run>, more: seq<Run>, now: int, lookback: int, size: int, p: int)
    requires size > 0 && Reruns(runs, now) && Reruns(more, now)
    requires var s := ResumeAll(NEVER_RUN, runs, lookback, size);
      s.checkpoint.Some? && p < s.checkpoint.value && !InSome(p, s.fetched)
    ensures !InSome(p, ResumeAll(ResumeAll(NEVER_RUN, runs, lookback, size), more, lookback, size).fetched)
  {
    var q := RerunsTrack(runs, now, lookback, size);
    MissedAtForGood(ResumeAll(NEVER_RUN, runs, lookback, size), more, now, lookback, size, p);
  }

  /** A chunk behind the checkpoint is not planned again. */
  lemma {:induction false} FailedChunkIsNotRetried(s: Store, r: Run, lookback: int, size: int, c: Chunk)
    requires size > 0 && r.readable && s.checkpoint.Some? && c.to <= s.checkpoint.value
    ensures c !in Remaining(Plan(r.now - lookback, r.now, size), s.checkpoint)
  {
    FilterMembers(Plan(r.now - lookback, r.now, size), EndsAfter(s.checkpoint.value));
  }

  /** Two days in one-day chunks, the first fetch raising and the second saved: the
      checkpoint passes points that were never fetched. */
  lemma {:induction false} RaisedChunkLeavesGap() returns (runs: seq<Run>, lookback: int, size: int, p: int)
    ensures lookback == 2 * DAY_SECONDS && size == DAY_SECONDS && runs != [] && ClockNeverFalls(runs)
    ensures var s := ResumeAll(NEVER_RUN, runs, lookback, size);
      && s.checkpoint.Some? && runs[|runs| - 1].now - lookback <= p <= s.checkpoint.value
      && !InSome(p, s.fetched)
  {
    var day := DAY_SECONDS;
    runs, lookback, size, p := [Run(2 * day, true, [Raised, Saved])], 2 * day, day, 5;
    var plan := Plan(0, 2 * day, day);
    assert plan == [Chunk(0, day)] + Plan(day, 2 * day, day);
    assert Plan(day, 2 * day, day) == [Chunk(day, 2 * day)] + Plan(2 * day, 2 * day, day);
    assert plan == [Chunk(0, day), Chunk(day, 2 * day)];
    var s1 := AtChunk(NEVER_RUN, Chunk(0, day), Raised);
    var s2 := AtChunk(s1, Chunk(day, 2 * day), Saved);
    assert plan[1..] == [Chunk(day, 2 * day)] && runs[0].outcomes[1..] == [Saved];
    assert FetchAll(s1, plan[1..], [Saved]) == s2;
    assert runs[..0] == [];
    assert ResumeAll(NEVER_RUN, runs[..0], lookback, size) == NEVER_RUN;
    assert ResumeAll(NEVER_RUN, runs, lookback, size) == s2;
    assert s2.fetched == [Chunk(day, 2 * day)];
  }
}
