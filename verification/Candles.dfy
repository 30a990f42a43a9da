/** Candle pages merged into the chart: `mergeOlderBars` and the lazy loader of
    apps/pearl-algo-app/hooks/useLazyLoadCandles.ts, `prependCandles` of
    apps/pearl-algo-app/stores/chartStore.ts, and the archive query they page
    through (src/pearlalgo/persistence/candle_archive.py, `query_range`). */
module Candles {
  import opened Common
  import opened StableSort

  datatype Candle = Candle(time: int, open: real, high: real, low: real, close: real, volume: Option<real>)

  function TimeOf(c: Candle): int { c.time }

  /** The candles whose time is not in `seen`, first occurrences only. */
  function Dedupe(s: seq<Candle>, seen: set<int>): seq<Candle> {
    if s == [] then []
    else if s[0].time in seen then Dedupe(s[1..], seen)
    else [s[0]] + Dedupe(s[1..], seen + {s[0].time})
  }

  function Merge(existing: seq<Candle>, older: seq<Candle>): seq<Candle> {
    if older == [] then existing else SortBy(Dedupe(older + existing, {}), TimeOf)
  }

  /** One of the two loops: appends the candles whose time is new. */
  method AppendNew(merged: seq<Candle>, seen: set<int>, page: seq<Candle>, ghost rest: seq<Candle>)
    returns (merged': seq<Candle>, seen': set<int>)
    ensures merged + Dedupe(page + rest, seen) == merged' + Dedupe(rest, seen')
  {
    merged', seen' := merged, seen;
    for k := 0 to |page|
      invariant merged + Dedupe(page + rest, seen) == merged' + Dedupe(page[k..] + rest, seen')
    {
      var b := page[k];
      ghost var tail := page[k..] + rest;
      assert tail[0] == b && tail[1..] == page[k + 1..] + rest;
      if b.time in seen' {
        continue;
      }
      assert merged' + ([b] + Dedupe(tail[1..], seen' + {b.time})) == (merged' + [b]) + Dedupe(tail[1..], seen' + {b.time});
      merged', seen' := merged' + [b], seen' + {b.time};
    }
    assert page[|page|..] + rest == rest;
    assert page[0..] == page;
  }

  method MergeOlderBars(existing: seq<Candle>, older: seq<Candle>) returns (merged: seq<Candle>)
    ensures merged == Merge(existing, older)
  {
    if older == [] {
      return existing;
    }
    var seen: set<int>;
    merged, seen := AppendNew([], {}, older, existing);
    merged, seen := AppendNew(merged, seen, existing, []);
    assert existing + [] == existing;
    assert merged == Dedupe(older + existing, {}) by {
      assert merged + Dedupe([], seen) == merged;
    }
    merged := SortBy(merged, TimeOf);
  }

  /** The store's own copy of the same merge. */
  class ChartStore {
    var candles: seq<Candle>

    constructor ()
      ensures candles == []
    {
      candles := [];
    }

    method PrependCandles(older: seq<Candle>)
      modifies this
      ensures candles == Merge(old(candles), older)
    {
      if older == [] {
        return;
      }
      var merged, seen := AppendNew([], {}, older, candles);
      merged, seen := AppendNew(merged, seen, candles, []);
      assert merged == Dedupe(older + candles, {}) by {
        assert candles + [] == candles;
        assert merged + Dedupe([], seen) == merged;
      }
      candles := SortBy(merged, TimeOf);
    }
  }

  // ----- Merging is sorted map union -----

  ghost predicate Ascending(s: seq<Candle>) {
    forall i, j :: 0 <= i < j < |s| ==> s[i].time < s[j].time
  }

  /** The candle a list holds for a time: the first one. */
  function At(s: seq<Candle>, t: int): Option<Candle> {
    if s == [] then None
    else if s[0].time == t then Some(s[0])
    else At(s[1..], t)
  }

  ghost predicate OncePerTime(s: seq<Candle>) {
    forall t :: |WithKey(s, TimeOf, t)| <= 1
  }

  lemma {:induction false} AtIsHead(s: seq<Candle>, t: int)
    ensures At(s, t) == if WithKey(s, TimeOf, t) == [] then None else Some(WithKey(s, TimeOf, t)[0])
  {
    if s == [] {
    } else {
      AtIsHead(s[1..], t);
      WithKeyStep(s, TimeOf, t);
    }
  }

  lemma {:induction false} AtConcat(a: seq<Candle>, b: seq<Candle>, t: int)
    ensures At(a + b, t) == if At(a, t).Some? then At(a, t) else At(b, t)
  {
    if a == [] {
      assert a + b == b;
    } else {
      assert (a + b)[0] == a[0] && (a + b)[1..] == a[1..] + b;
      AtConcat(a[1..], b, t);
    }
  }

  lemma {:induction false} DedupeKeepsFirst(s: seq<Candle>, seen: set<int>, t: int)
    ensures |WithKey(Dedupe(s, seen), TimeOf, t)| <= 1
    ensures t in seen ==> WithKey(Dedupe(s, seen), TimeOf, t) == []
    ensures t !in seen ==> At(Dedupe(s, seen), t) == At(s, t)
  {
    if s == [] {
    } else {
      if s[0].time in seen {
        DedupeKeepsFirst(s[1..], seen, t);
      } else {
        var d := Dedupe(s, seen);
        DedupeKeepsFirst(s[1..], seen + {s[0].time}, t);
        assert d[1..] == Dedupe(s[1..], seen + {s[0].time});
        WithKeyStep(d, TimeOf, t);
      }
    }
  }

  lemma {:induction false} KeyIsListed(s: seq<Candle>, i: nat)
    requires i < |s|
    ensures WithKey(s, TimeOf, s[i].time) != []
  {
    WithKeyMembers(s, TimeOf, s[i].time);
    assert TimeOf(s[i]) == s[i].time && s[i] in s;
    assert s[i] in WithKey(s, TimeOf, s[i].time);
  }

  lemma {:induction false} SortedOnceIsAscending(s: seq<Candle>)
    requires SortedBy(s, TimeOf) && OncePerTime(s)
    ensures Ascending(s)
  {
    forall i, j | 0 <= i < j < |s|
      ensures s[i].time < s[j].time
    {
      var head, tail, t := s[..j], s[j..], s[j].time;
      assert TimeOf(s[i]) <= TimeOf(s[j]);
      assert head + tail == s;
      WithKeyConcat(head, tail, TimeOf, t);
      KeyIsListed(tail, 0);
      if head[i].time == t {
        KeyIsListed(head, i);
      }
      assert |WithKey(s, TimeOf, t)| <= 1;
    }
  }

  lemma {:induction false} AscendingIsSortedOnce(s: seq<Candle>)
    requires Ascending(s)
    ensures SortedBy(s, TimeOf) && OncePerTime(s)
  {
    forall t
      ensures |WithKey(s, TimeOf, t)| <= 1
    {
      AscendingOnce(s, t);
    }
  }

  lemma {:induction false} NoneLaterAt(s: seq<Candle>, c: Candle)
    requires Ascending(s) && s != [] && c in s[1..]
    ensures s[0].time < c.time
  {
    var i :| 0 <= i < |s[1..]| && s[1..][i] == c;
    assert s[i + 1] == c;
  }

  lemma {:induction false} AscendingOnce(s: seq<Candle>, t: int)
    requires Ascending(s)
    ensures |WithKey(s, TimeOf, t)| <= 1
  {
    if s == [] {
    } else {
      AscendingOnce(s[1..], t);
      WithKeyStep(s, TimeOf, t);
      if s[0].time == t {
        var later := WithKey(s[1..], TimeOf, t);
        WithKeyMembers(s[1..], TimeOf, t);
        if later != [] {
          NoneLaterAt(s, later[0]);
        }
      }
    }
  }

  /** Ascending lists with the same candle at every time are the same list. */
  lemma {:induction false} AscendingIsDetermined(a: seq<Candle>, b: seq<Candle>)
    requires Ascending(a) && Ascending(b)
    requires forall t :: At(a, t) == At(b, t)
    ensures a == b
  {
    AscendingIsSortedOnce(a);
    AscendingIsSortedOnce(b);
    forall t
      ensures WithKey(a, TimeOf, t) == WithKey(b, TimeOf, t)
    {
      AtIsHead(a, t);
      AtIsHead(b, t);
      assert At(a, t) == At(b, t);
    }
    StableSortIsUnique(a, b, TimeOf);
  }

  /** The merge is strictly ascending and holds, at every time, the incoming
      page's candle if it has one and the existing candle otherwise. */
  lemma {:induction false} MergeIsUnion(existing: seq<Candle>, older: seq<Candle>)
    requires older != [] || Ascending(existing)
    ensures Ascending(Merge(existing, older))
    ensures forall t :: At(Merge(existing, older), t) == if At(older, t).Some? then At(older, t) else At(existing, t)
  {
    if older != [] {
      var d := Dedupe(older + existing, {});
      SortByContract(d, TimeOf);
      forall t
        ensures |WithKey(Merge(existing, older), TimeOf, t)| <= 1
        ensures At(Merge(existing, older), t) == if At(older, t).Some? then At(older, t) else At(existing, t)
      {
        assert WithKey(SortBy(d, TimeOf), TimeOf, t) == WithKey(d, TimeOf, t);
        DedupeKeepsFirst(older + existing, {}, t);
        AtIsHead(d, t);
        AtIsHead(SortBy(d, TimeOf), t);
        AtConcat(older, existing, t);
      }
      SortedOnceIsAscending(Merge(existing, older));
    }
  }

  /** The latest page first. */
  function LatestFirst(pages: seq<seq<Candle>>): seq<Candle> {
    if pages == [] then [] else pages[|pages| - 1] + LatestFirst(pages[..|pages| - 1])
  }

  function MergeAll(existing: seq<Candle>, pages: seq<seq<Candle>>): seq<Candle> {
    if pages == [] then existing
    else Merge(MergeAll(existing, pages[..|pages| - 1]), pages[|pages| - 1])
  }

  /** Merging pages one by one is one merge of the pages, latest first. */
  lemma {:induction false} PagesMergeAtOnce(existing: seq<Candle>, pages: seq<seq<Candle>>)
    requires Ascending(existing)
    ensures Ascending(MergeAll(existing, pages))
    ensures MergeAll(existing, pages) == Merge(existing, LatestFirst(pages))
  {
    if pages == [] {
    } else {
      var n := |pages| - 1;
      var before, page := MergeAll(existing, pages[..n]), pages[n];
      PagesMergeAtOnce(existing, pages[..n]);
      MergeIsUnion(before, page);
      MergeIsUnion(existing, LatestFirst(pages[..n]));
      MergeIsUnion(existing, LatestFirst(pages));
      forall t
        ensures At(MergeAll(existing, pages), t) == At(Merge(existing, LatestFirst(pages)), t)
      {
        AtConcat(page, LatestFirst(pages[..n]), t);
      }
      AscendingIsDetermined(MergeAll(existing, pages), Merge(existing, LatestFirst(pages)));
    }
  }

  /** Merging a page again changes nothing. */
  lemma {:induction false} MergeAgain(existing: seq<Candle>, page: seq<Candle>)
    requires Ascending(existing)
    ensures Merge(Merge(existing, page), page) == Merge(existing, page)
  {
    var once := Merge(existing, page);
    MergeIsUnion(existing, page);
    MergeIsUnion(once, page);
    forall t
      ensures At(Merge(once, page), t) == At(once, t)
    {
    }
    AscendingIsDetermined(Merge(once, page), once);
  }

  // ----- Paging to the start of history -----

  /** `ORDER BY ts ASC LIMIT limit` over the bars up to `to`: the oldest ones. */
  function QueryRange(archive: seq<Candle>, to: int, limit: nat): seq<Candle> {
    var upTo := Filter(archive, (c: Candle) => c.time <= to);
    if |upTo| <= limit then upTo else upTo[..limit]
  }

  datatype Loader = Loader(candles: seq<Candle>, exhausted: bool, lastCursor: Option<int>)

  /** One lazy-load attempt; `fails` says whether the request errors. */
  function TryFetch(l: Loader, archive: seq<Candle>, limit: nat, fails: bool): Loader {
    if l.exhausted || l.candles == [] || l.lastCursor == Some(l.candles[0].time) then l
    else
      var asked := l.(lastCursor := Some(l.candles[0].time));
      var page := QueryRange(archive, l.candles[0].time - 1, limit);
      if fails then asked.(lastCursor := None)
      else if page == [] then asked.(exhausted := true)
      else asked.(candles := Merge(l.candles, page))
  }

  class LazyLoadCandles {
    var candles: seq<Candle>
    var exhaustedRef: bool
    var lastFetchedCursorRef: Option<int>

    ghost function State(): Loader
      reads this
    {
      Loader(candles, exhaustedRef, lastFetchedCursorRef)
    }

    method TryFetchOlder(archive: seq<Candle>, pageSize: nat, fails: bool)
      modifies this
      ensures State() == TryFetch(old(State()), archive, pageSize, fails)
    {
      if exhaustedRef || candles == [] {
        return;
      }
      var leftmost := candles[0].time;
      if lastFetchedCursorRef == Some(leftmost) {
        return;
      }
      lastFetchedCursorRef := Some(leftmost);
      if fails {
        lastFetchedCursorRef := None;
        return;
      }
      var older := QueryRange(archive, leftmost - 1, pageSize);
      if older == [] {
        exhaustedRef := true;
        return;
      }
      candles := MergeOlderBars(candles, older);
    }
  }

  function FetchTimes(l: Loader, archive: seq<Candle>, limit: nat, n: nat): Loader {
    if n == 0 then l else TryFetch(FetchTimes(l, archive, limit, n - 1), archive, limit, false)
  }

  lemma {:induction false} OlderThan(archive: seq<Candle>, k: nat)
    requires Ascending(archive) && k < |archive|
    ensures Filter(archive, (c: Candle) => c.time <= archive[k].time - 1) == archive[..k]
  {
    var p := (c: Candle) => c.time <= archive[k].time - 1;
    assert archive == archive[..k] + archive[k..];
    FilterConcat(archive[..k], archive[k..], p);
    FilterAll(archive[..k], p);
    FilterNone(archive[k..], p);
  }

  lemma {:induction false} AtOutside(s: seq<Candle>, t: int)
    requires forall c :: c in s ==> c.time != t
    ensures At(s, t) == None
  {
    if s == [] {
    } else {
      AtOutside(s[1..], t);
    }
  }

  /** A page that lies wholly before the loaded bars is put in front of them. */
  lemma {:induction false} MergeInFront(page: seq<Candle>, loaded: seq<Candle>)
    requires Ascending(page + loaded) && page != []
    ensures Merge(loaded, page) == page + loaded
  {
    MergeIsUnion(loaded, page);
    forall t
      ensures At(Merge(loaded, page), t) == At(page + loaded, t)
    {
      AtConcat(page, loaded, t);
    }
    AscendingIsDetermined(Merge(loaded, page), page + loaded);
  }

  lemma {:induction false} PageBefore(archive: seq<Candle>, k: nat, limit: nat)
    requires Ascending(archive) && k < |archive|
    ensures QueryRange(archive, archive[k].time - 1, limit) == archive[..Min(k, limit)]
  {
    OlderThan(archive, k);
  }

  /** The first fetch puts the oldest page in front, or finds none. */
  lemma {:induction false} FirstFetch(archive: seq<Candle>, k: nat, limit: nat)
    requires Ascending(archive) && k < |archive| && limit >= 1
    ensures var l := TryFetch(Loader(archive[k..], false, None), archive, limit, false);
      && l.candles == archive[..Min(k, limit)] + archive[k..]
      && l.exhausted == (k == 0) && l.lastCursor == Some(archive[k].time)
  {
    hide Merge;
    hide QueryRange;
    var page := archive[..Min(k, limit)];
    PageBefore(archive, k, limit);
    if k > 0 {
      MergeInFront(page, archive[k..]);
    } else {
      assert page + archive[k..] == archive[k..];
    }
  }

  /** A loader that shows the oldest bar finds nothing older. */
  lemma {:induction false} FetchFromStart(l: Loader, archive: seq<Candle>, limit: nat)
    requires Ascending(archive) && archive != [] && l.candles != [] && l.candles[0] == archive[0]
    requires l.exhausted || l.lastCursor != Some(archive[0].time)
    ensures var l' := TryFetch(l, archive, limit, false);
      l'.exhausted && l'.candles == l.candles
  {
    PageBefore(archive, 0, limit);
  }

  /** Where paging ends when the newest part `archive[k..]` is on the chart: the
      oldest page and the loaded bars, and nothing in between. */
  lemma {:induction false} PagingEnds(archive: seq<Candle>, k: nat, limit: nat, n: nat)
    requires Ascending(archive) && k < |archive| && limit >= 1 && n >= 2
    ensures var l := FetchTimes(Loader(archive[k..], false, None), archive, limit, n);
      l.exhausted && l.candles == archive[..Min(k, limit)] + archive[k..]
  {
    hide TryFetch;
    var l0 := Loader(archive[k..], false, None);
    var l1 := TryFetch(l0, archive, limit, false);
    FirstFetch(archive, k, limit);
    FetchFromStart(l1, archive, limit);
    assert FetchTimes(l0, archive, limit, 1) == l1;
    assert FetchTimes(l0, archive, limit, 2) == TryFetch(l1, archive, limit, false);
    ExhaustedStays(l0, archive, limit, 2, n);
  }

  lemma {:induction false} ExhaustedStays(l: Loader, archive: seq<Candle>, limit: nat, m: nat, n: nat)
    requires m <= n && FetchTimes(l, archive, limit, m).exhausted
    ensures FetchTimes(l, archive, limit, n) == FetchTimes(l, archive, limit, m)
  {
    if m < n {
      ExhaustedStays(l, archive, limit, m, n - 1);
    }
  }

  // ----- Attempts that fail -----

  /** One attempt after another; an attempt fails or is answered. */
  function Attempts(l: Loader, archive: seq<Candle>, limit: nat, fails: seq<bool>): Loader {
    if fails == [] then l
    else TryFetch(Attempts(l, archive, limit, fails[..|fails| - 1]), archive, limit, fails[|fails| - 1])
  }

  function Answered(fails: seq<bool>): nat {
    if fails == [] then 0 else Answered(fails[..|fails| - 1]) + if fails[|fails| - 1] then 0 else 1
  }

  /** The next attempt will ask the archive, or there is nothing more to ask. */
  predicate CanAsk(l: Loader) {
    l.exhausted || l.candles == [] || l.lastCursor != Some(l.candles[0].time)
  }

  ghost predicate Alike(a: Loader, b: Loader) {
    a.candles == b.candles && a.exhausted == b.exhausted && CanAsk(a) && CanAsk(b)
  }

  /** After any number of answered attempts the hook asks again. */
  lemma {:induction false} NeverStuck(archive: seq<Candle>, k: nat, limit: nat, n: nat)
    requires Ascending(archive) && k < |archive| && limit >= 1
    ensures CanAsk(FetchTimes(Loader(archive[k..], false, None), archive, limit, n))
  {
    hide TryFetch;
    var l0 := Loader(archive[k..], false, None);
    if n >= 2 {
      PagingEnds(archive, k, limit, n);
    } else if n == 1 {
      FirstFetch(archive, k, limit);
      assert FetchTimes(l0, archive, limit, 1) == TryFetch(l0, archive, limit, false);
      if k > 0 {
        assert (archive[..Min(k, limit)] + archive[k..])[0] == archive[0];
      }
    }
  }

  /** Failed attempts change nothing that is shown: what is loaded is what the
      answered attempts alone would have loaded. */
  lemma {:induction false} FailuresAreRetried(archive: seq<Candle>, k: nat, limit: nat, fails: seq<bool>)
    requires Ascending(archive) && k < |archive| && limit >= 1
    ensures var l0 := Loader(archive[k..], false, None);
      Alike(Attempts(l0, archive, limit, fails), FetchTimes(l0, archive, limit, Answered(fails)))
  {
    hide Merge;
    hide QueryRange;
    if fails != [] {
      FailuresAreRetried(archive, k, limit, fails[..|fails| - 1]);
    }
    NeverStuck(archive, k, limit, Answered(fails));
  }

  /** Panning left loads the whole history exactly when the bars older than the
      chart fit in one page: the archive answers with its oldest bars, not with
      the ones next to the chart, so a longer history leaves a gap for good. */
  lemma {:induction false} PagingIsCompleteExactlyWhen(archive: seq<Candle>, k: nat, limit: nat, n: nat)
    requires Ascending(archive) && k < |archive| && limit >= 1 && n >= 2
    ensures FetchTimes(Loader(archive[k..], false, None), archive, limit, n).candles == archive <==> k <= limit
  {
    PagingEnds(archive, k, limit, n);
    var loaded := archive[..Min(k, limit)] + archive[k..];
    if k <= limit {
      assert loaded == archive;
    } else {
      assert |loaded| < |archive|;
    }
  }
}
