/** The duplicate filter of the TradingView bridge
    (alerts/tv_to_discord.py, `_is_duplicate`).

    The ordered map `_seen` is a sequence of entries in insertion order. Times
    are readings of a monotonic clock, in seconds. */
module Dedup {
  import opened Common

  const CAPACITY := 2048

  datatype Entry = Entry(key: string, stamp: real)

  datatype Call = Call(key: string, now: real)

  // ----- What the filter should do -----

  /** Was `key` accepted at most `ttl` ago, among the last 2048 acceptances? */
  ghost predicate Suppressed(log: seq<Entry>, key: string, now: real, ttl: real) {
    exists i :: 0 <= i < |log| && i >= |log| - CAPACITY && log[i].key == key && log[i].stamp >= now - ttl
  }

  ghost function Accept(log: seq<Entry>, c: Call, ttl: real): seq<Entry> {
    if Suppressed(log, c.key, c.now, ttl) then log else log + [Entry(c.key, c.now)]
  }

  /** The acceptances after a list of calls. */
  ghost function LogOf(calls: seq<Call>, ttl: real): seq<Entry> {
    if calls == [] then []
    else Accept(LogOf(calls[..|calls| - 1], ttl), calls[|calls| - 1], ttl)
  }

  // ----- The map against the log -----

  /** Stamps never fall, and none is later than `last`. */
  ghost predicate Ordered(log: seq<Entry>, last: real) {
    log == [] || (log[|log| - 1].stamp <= last && Ordered(log[..|log| - 1], log[|log| - 1].stamp))
  }

  lemma {:induction false} OrderedBound(log: seq<Entry>, last: real, i: nat)
    requires Ordered(log, last) && i < |log|
    ensures log[i].stamp <= last
  {
    if i < |log| - 1 {
      OrderedBound(log[..|log| - 1], log[|log| - 1].stamp, i);
    }
  }

  lemma {:induction false} OrderedPair(log: seq<Entry>, last: real, i: nat, j: nat)
    requires Ordered(log, last) && i <= j < |log|
    ensures log[i].stamp <= log[j].stamp
  {
    if j < |log| - 1 {
      OrderedPair(log[..|log| - 1], log[|log| - 1].stamp, i, j);
    } else if i < j {
      OrderedBound(log[..|log| - 1], log[|log| - 1].stamp, i);
    }
  }

  /** `lo` splits the log where the remembered part starts: what follows is
      fresh and at most 2048 entries, and the entry before is expired or one too
      many. */
  ghost predicate Splits(log: seq<Entry>, lo: int, cutoff: real) {
    && 0 <= lo <= |log| <= lo + CAPACITY
    && (lo < |log| ==> log[lo].stamp >= cutoff)
    && (lo > 0 ==> |log| == lo + CAPACITY || log[lo - 1].stamp < cutoff)
  }

  /** So the remembered part is exactly what is both fresh and recent. */
  lemma {:induction false} SplitIsExact(log: seq<Entry>, last: real, lo: int, cutoff: real, i: nat)
    requires Ordered(log, last) && Splits(log, lo, cutoff) && i < |log|
    ensures lo <= i <==> i >= |log| - CAPACITY && log[i].stamp >= cutoff
  {
    if lo <= i {
      OrderedPair(log, last, lo, i);
    } else {
      OrderedPair(log, last, i, lo - 1);
    }
  }

  ghost predicate Knows(seen: seq<Entry>, key: string, cutoff: real) {
    exists i :: 0 <= i < |seen| && seen[i].key == key && seen[i].stamp >= cutoff
  }

  /** Looking a key up in the remembered entries answers the specification. */
  lemma {:induction false} LookupDecides(log: seq<Entry>, last: real, lo: int, key: string, now: real, ttl: real)
    requires Ordered(log, last) && Splits(log, lo, now - ttl)
    ensures Knows(log[lo..], key, now - ttl) <==> Suppressed(log, key, now, ttl)
  {
    var seen := log[lo..];
    if Suppressed(log, key, now, ttl) {
      var i :| 0 <= i < |log| && i >= |log| - CAPACITY && log[i].key == key && log[i].stamp >= now - ttl;
      SplitIsExact(log, last, lo, now - ttl, i);
      assert seen[i - lo] == log[i];
    }
    if Knows(seen, key, now - ttl) {
      var j :| 0 <= j < |seen| && seen[j].key == key && seen[j].stamp >= now - ttl;
      assert log[lo + j] == seen[j];
    }
  }

  /** Every remembered entry is fresh, so an unknown key is not in the map. */
  lemma {:induction false} UnknownIsAbsent(log: seq<Entry>, last: real, lo: int, key: string, cutoff: real)
    requires Ordered(log, last) && Splits(log, lo, cutoff) && !Knows(log[lo..], key, cutoff)
    ensures Without(log[lo..], key) == log[lo..]
  {
    var seen := log[lo..];
    forall e | e in seen
      ensures e.key != key
    {
      var j :| 0 <= j < |seen| && seen[j] == e;
      SplitIsExact(log, last, lo, cutoff, lo + j);
    }
    FilterAll(seen, (e: Entry) => e.key != key);
  }

  function Without(seen: seq<Entry>, key: string): seq<Entry> {
    Filter(seen, (e: Entry) => e.key != key)
  }

  /** The entries from the first one that is not expired. */
  function FromFresh(seen: seq<Entry>, cutoff: real): seq<Entry> {
    if seen == [] || seen[0].stamp >= cutoff then seen else FromFresh(seen[1..], cutoff)
  }

  method EvictExpired(seen: seq<Entry>, cutoff: real, ghost log: seq<Entry>, ghost from: int, ghost was: real)
    returns (rest: seq<Entry>, ghost lo: int)
    requires Splits(log, from, was) && seen == log[from..] && (log != [] ==> was <= cutoff)
    ensures Splits(log, lo, cutoff) && rest == log[lo..]
    ensures rest == FromFresh(seen, cutoff)
  {
    rest, lo := seen, from;
    while rest != [] && rest[0].stamp < cutoff
      invariant FromFresh(rest, cutoff) == FromFresh(seen, cutoff)
      invariant 0 <= lo <= |log| <= lo + CAPACITY && rest == log[lo..]
      invariant lo > 0 ==> |log| == lo + CAPACITY || log[lo - 1].stamp < cutoff
      decreases |rest|
    {
      rest, lo := rest[1..], lo + 1;
    }
  }

  method Lookup(seen: seq<Entry>, key: string, cutoff: real) returns (found: bool)
    ensures found == Knows(seen, key, cutoff)
  {
    found := false;
    for k := 0 to |seen|
      invariant forall i :: 0 <= i < k ==> !(seen[i].key == key && seen[i].stamp >= cutoff)
    {
      if seen[k].key == key && seen[k].stamp >= cutoff {
        return true;
      }
    }
  }

  method EvictSurplus(seen: seq<Entry>) returns (rest: seq<Entry>)
    ensures rest == LastN(seen, CAPACITY)
  {
    rest := seen;
    while |rest| > CAPACITY
      invariant |rest| <= |seen| && rest == seen[|seen| - |rest|..]
      invariant |seen| > CAPACITY ==> |rest| >= CAPACITY
      invariant |seen| <= CAPACITY ==> rest == seen
    {
      rest := rest[1..];
    }
  }

  lemma {:induction false} AddingSplits(log: seq<Entry>, last: real, lo: int, e: Entry, cutoff: real)
    requires Ordered(log, last) && Splits(log, lo, cutoff) && e.stamp >= cutoff
    ensures var lo' := if |log| - lo == CAPACITY then lo + 1 else lo;
      Splits(log + [e], lo', cutoff) && LastN(log[lo..] + [e], CAPACITY) == (log + [e])[lo'..]
  {
    assert log[lo..] + [e] == (log + [e])[lo..];
    if lo + 1 < |log| {
      OrderedPair(log, last, lo, lo + 1);
    }
  }

  lemma {:induction false} AcceptStaysOrdered(log: seq<Entry>, last: real, c: Call, ttl: real)
    requires Ordered(log, last) && (log != [] ==> last <= c.now)
    ensures Ordered(log, c.now) && Ordered(log + [Entry(c.key, c.now)], c.now)
    ensures Ordered(Accept(log, c, ttl), c.now)
  {
    assert (log + [Entry(c.key, c.now)])[..|log|] == log;
  }

  /** The body of the check once the expired entries are gone. */
  method Judge(seen: seq<Entry>, key: string, now: real, ttl: real, ghost log: seq<Entry>, ghost lo: int)
    returns (duplicate: bool, rest: seq<Entry>, ghost lo': int)
    requires ttl >= 0.0 && Ordered(log, now) && Splits(log, lo, now - ttl) && seen == log[lo..]
    ensures duplicate == Suppressed(log, key, now, ttl)
    ensures var log' := if duplicate then log else log + [Entry(key, now)];
      Splits(log', lo', now - ttl) && rest == log'[lo'..]
  {
    LookupDecides(log, now, lo, key, now, ttl);
    duplicate := Lookup(seen, key, now - ttl);
    if duplicate {
      return duplicate, seen, lo;
    }
    UnknownIsAbsent(log, now, lo, key, now - ttl);
    AddingSplits(log, now, lo, Entry(key, now), now - ttl);
    rest := EvictSurplus(Without(seen, key) + [Entry(key, now)]);
    lo' := if |log| - lo == CAPACITY then lo + 1 else lo;
  }

  class DedupCache {
    const ttl: real
    var seen: seq<Entry>
    ghost var log: seq<Entry>
    ghost var lo: int
    ghost var last: real

    constructor (ttl: real)
      requires ttl >= 0.0
      ensures Valid() && log == [] && this.ttl == ttl
    {
      this.ttl := ttl;
      seen, log, lo, last := [], [], 0, 0.0;
    }

    /** The map is exactly the part of the acceptance log that is both within the
        TTL of the last call and among the last 2048 acceptances. */
    ghost predicate Valid()
      reads this
    {
      ttl >= 0.0 && Ordered(log, last) && Splits(log, lo, last - ttl) && seen == log[lo..]
    }

    /** True exactly for a key accepted at most `ttl` ago among the last 2048
        acceptances; any other key is accepted and remembered. */
    method IsDuplicate(key: string, now: real) returns (duplicate: bool)
      requires Valid() && (log != [] ==> last <= now)
      modifies this
      ensures Valid() && last == now
      ensures duplicate == Suppressed(old(log), key, now, ttl)
      ensures log == Accept(old(log), Call(key, now), ttl)
    {
      hide Ordered;
      hide Splits;
      hide Suppressed;
      AcceptStaysOrdered(log, last, Call(key, now), ttl);
      seen, lo := EvictExpired(seen, now - ttl, log, lo, last - ttl);
      duplicate, seen, lo := Judge(seen, key, now, ttl, log, lo);
      log, last := if duplicate then log else log + [Entry(key, now)], now;
    }
  }

  // ----- Over any sequence of calls -----

  ghost predicate ClockNeverFalls(calls: seq<Call>) {
    forall i, j :: 0 <= i < j < |calls| ==> calls[i].now <= calls[j].now
  }

  /** Two acceptances of one key are more than the TTL apart, or have at least
      2048 acceptances between them. */
  ghost predicate FarApart(log: seq<Entry>, ttl: real) {
    forall i, j :: 0 <= i < j < |log| && log[i].key == log[j].key ==>
      log[j].stamp - log[i].stamp > ttl || j - i > CAPACITY
  }

  lemma {:induction false} AcceptancesFarApart(calls: seq<Call>, ttl: real)
    ensures FarApart(LogOf(calls, ttl), ttl)
  {
    if calls == [] {
    } else {
      AcceptancesFarApart(calls[..|calls| - 1], ttl);
      var before, c := LogOf(calls[..|calls| - 1], ttl), calls[|calls| - 1];
      var log := LogOf(calls, ttl);
      if log != before {
        forall i | 0 <= i < |before| && before[i].key == c.key
          ensures c.now - before[i].stamp > ttl || |before| - i > CAPACITY
        {
        }
      }
    }
  }

  lemma {:induction false} LogIsOrdered(calls: seq<Call>, ttl: real)
    requires ClockNeverFalls(calls)
    ensures calls == [] ==> LogOf(calls, ttl) == []
    ensures calls != [] ==> Ordered(LogOf(calls, ttl), calls[|calls| - 1].now)
  {
    if calls == [] {
    } else {
      var n := |calls| - 1;
      LogIsOrdered(calls[..n], ttl);
      AcceptStaysOrdered(LogOf(calls[..n], ttl), if n == 0 then calls[n].now else calls[n - 1].now, calls[n], ttl);
    }
  }

  /** Nothing is dropped without cause: at every call its key has been accepted,
      then or at most the TTL before. */
  lemma {:induction false} EveryCallIsCovered(calls: seq<Call>, ttl: real, k: nat)
    requires ttl >= 0.0 && ClockNeverFalls(calls) && k < |calls|
    ensures exists i :: 0 <= i < |LogOf(calls, ttl)| && LogOf(calls, ttl)[i].key == calls[k].key
              && calls[k].now - ttl <= LogOf(calls, ttl)[i].stamp <= calls[k].now
  {
    var n := |calls| - 1;
    var before, log := LogOf(calls[..n], ttl), LogOf(calls, ttl);
    if k < n {
      EveryCallIsCovered(calls[..n], ttl, k);
      var i :| 0 <= i < |before| && before[i].key == calls[k].key
        && calls[k].now - ttl <= before[i].stamp <= calls[k].now;
      assert log[i] == before[i];
    } else if Suppressed(before, calls[n].key, calls[n].now, ttl) {
      LogIsOrdered(calls[..n], ttl);
      var i :| 0 <= i < |before| && i >= |before| - CAPACITY && before[i].key == calls[n].key
        && before[i].stamp >= calls[n].now - ttl;
      OrderedBound(before, calls[n - 1].now, i);
    } else {
      assert log[|before|] == Entry(calls[n].key, calls[n].now);
    }
  }
}
