/** When the WebSocket hook does retry: what a close sets, what `attempts` counts,
    and how many retries follow one another. */
module ReconnectProgress {
  import opened Common
  import opened Reconnect

  /** The hook starts out mounted; after that the last mount or unmount decides. */
  function IsMounted(events: seq<Event>): bool {
    if events == [] then true
    else
      var e := events[|events| - 1];
      if e.Mount? then true else if e.Unmount? then false else IsMounted(events[..|events| - 1])
  }

  /** Does the event set the retries back: a manual reconnect, or a socket that was
      connecting opens while mounted? */
  predicate StartsOver(h: Hook, e: Event) {
    || e.ManualReconnect?
    || (e.SocketOpens? && h.mounted && e.id < |h.sockets| && h.sockets[e.id] == Connecting)
  }

  /** The automatic connects since the retries were last set back. */
  function SinceReset(p: Params, events: seq<Event>): nat {
    if events == [] then 0
    else
      var n := |events| - 1;
      var h := After(p, INITIAL, events[..n]);
      if StartsOver(h, events[n]) then 0
      else SinceReset(p, events[..n]) + if Connects(h, events[n]) then 1 else 0
  }

  lemma {:induction false} StepCountsAttempts(p: Params, h: Hook, e: Event)
    ensures Step(p, h, e).attempts == if StartsOver(h, e) then 0 else h.attempts + if Connects(h, e) then 1 else 0
    ensures Step(p, h, e).mounted == if e.Mount? then true else if e.Unmount? then false else h.mounted
  {
  }

  /** `attempts` is the number of automatic connects since the last reset. */
  lemma {:induction false} AttemptsAreSinceReset(p: Params, events: seq<Event>)
    ensures After(p, INITIAL, events).attempts == SinceReset(p, events)
    ensures After(p, INITIAL, events).mounted == IsMounted(events)
  {
    if events != [] {
      hide Step;
      hide StartsOver;
      hide Connects;
      var n := |events| - 1;
      AttemptsAreSinceReset(p, events[..n]);
      StepCountsAttempts(p, After(p, INITIAL, events[..n]), events[n]);
    }
  }

  /** After any events, the first close of a socket of a mounted hook leaves a new
      timer as the only one if retries are on and not used up, and none otherwise. */
  lemma {:induction false} CloseArmsExactlyWhen(p: Params, before: seq<Event>, id: nat)
    requires IsMounted(before)
    requires var h := After(p, INITIAL, before); id < |h.sockets| && h.sockets[id] != Closed
    ensures var h, h' := After(p, INITIAL, before), After(p, INITIAL, before + [SocketCloses(id)]);
      h'.reconnectTimers == if p.shouldReconnect && SinceReset(p, before) < p.maxAttempts then {h.nextTimer} else {}
  {
    AttemptsAreSinceReset(p, before);
    AlwaysSafe(p, before);
    AfterSnoc(p, INITIAL, before, SocketCloses(id));
    var h := After(p, INITIAL, before);
    assert ClearTimers(h.(sockets := h.sockets[id := Closed])).reconnectTimers == {};
  }

  lemma {:induction false} ReconnectStarts(p: Params, h: Hook)
    requires h.reconnectTimers <= RefSet(h.reconnectRef)
    ensures var h' := Step(p, h, ManualReconnect(false));
      && h'.current == Some(|h.sockets|) && h'.attempts == 0 && h'.reconnectTimers == {}
      && |h'.sockets| == |h.sockets| + 1 && h'.sockets[|h.sockets|] == Connecting
      && (h.current.Some? && Live(h, h.current.value) ==> h'.sockets[h.current.value] == Closing)
  {
  }

  /** A manual reconnect gives a new connecting socket whatever happened before, and
      drops the waiting retry. */
  lemma {:induction false} ReconnectAlwaysStarts(p: Params, before: seq<Event>)
    ensures var h, h' := After(p, INITIAL, before), After(p, INITIAL, before + [ManualReconnect(false)]);
      && h'.current == Some(|h.sockets|) && h'.attempts == 0 && h'.reconnectTimers == {}
      && |h'.sockets| == |h.sockets| + 1 && h'.sockets[|h.sockets|] == Connecting
      && (h.current.Some? && Live(h, h.current.value) ==> h'.sockets[h.current.value] == Closing)
  {
    hide Step;
    AlwaysSafe(p, before);
    AfterSnoc(p, INITIAL, before, ManualReconnect(false));
    ReconnectStarts(p, After(p, INITIAL, before));
  }

  /** A socket that opens while the hook is mounted sets a new ping timer, keeps the
      others, and sets the retries back. */
  lemma {:induction false} OpenStartsPing(p: Params, before: seq<Event>, id: nat)
    requires IsMounted(before)
    requires var h := After(p, INITIAL, before); id < |h.sockets| && h.sockets[id] == Connecting
    ensures var h, h' := After(p, INITIAL, before), After(p, INITIAL, before + [SocketOpens(id)]);
      && h'.pingTimers == h.pingTimers + {h.nextTimer} && h'.pingRef == Some(h.nextTimer)
      && h.nextTimer !in h.pingTimers && h'.attempts == 0
  {
    AttemptsAreSinceReset(p, before);
    RunTracks(p, before);
    AfterSnoc(p, INITIAL, before, SocketOpens(id));
  }

  /** Does the event call `connect`, with a constructor that does not raise? */
  predicate StartsSocket(h: Hook, e: Event) {
    match e
    case Mount(throws) => !throws
    case ManualReconnect(throws) => !throws
    case TimerFires(_, throws) => !throws && Connects(h, e)
    case Unmount | SocketOpens(_) | SocketCloses(_) | CloseCalled => false
  }

  /** After a mount, a retry or a manual reconnect the hook has a socket: the open
      one it had, or a new connecting one with no retry waiting beside it. */
  lemma {:induction false} ConnectGivesSocket(p: Params, before: seq<Event>, e: Event)
    requires StartsSocket(After(p, INITIAL, before), e)
    ensures var h, h' := After(p, INITIAL, before), After(p, INITIAL, before + [e]);
      h'.current.Some? && Live(h', h'.current.value)
      && (if h.current.Some? && Live(h, h.current.value) && h.sockets[h.current.value] == Open && !e.ManualReconnect?
          then h'.current == h.current && h'.sockets == h.sockets
          else h'.current == Some(|h.sockets|) && |h'.sockets| == |h.sockets| + 1 && h'.sockets[|h.sockets|] == Connecting
               && h'.reconnectTimers == {})
  {
    AlwaysSafe(p, before);
    AfterSnoc(p, INITIAL, before, e);
  }

  // ----- A connection that keeps failing -----

  /** The socket in use after `n` failed rounds. */
  function SocketOf(h: Hook, n: nat): nat
    requires h.current.Some?
  {
    if n == 0 then h.current.value else |h.sockets| + n - 1
  }

  /** `n` times: the socket in use closes, and the timer this set fires. */
  function Rounds(h: Hook, n: nat): seq<Event>
    requires h.current.Some?
  {
    if n == 0 then []
    else Rounds(h, n - 1) + [SocketCloses(SocketOf(h, n - 1)), TimerFires(h.nextTimer + n - 1, false)]
  }

  /** Mounted, with a socket that has not closed. */
  predicate InUse(h: Hook) {
    h.mounted && h.current.Some? && h.current.value < |h.sockets| && h.sockets[h.current.value] != Closed
  }

  lemma {:induction false} RoundRetries(p: Params, h: Hook)
    requires InUse(h) && p.shouldReconnect && h.attempts < p.maxAttempts
    ensures var closed := Step(p, h, SocketCloses(h.current.value));
      var h' := Step(p, closed, TimerFires(h.nextTimer, false));
      && !Connects(h, SocketCloses(h.current.value)) && Connects(closed, TimerFires(h.nextTimer, false))
      && InUse(h') && h'.attempts == h.attempts + 1 && h'.nextTimer == h.nextTimer + 1
      && h'.current == Some(|h.sockets|) && |h'.sockets| == |h.sockets| + 1
  {
  }

  lemma {:induction false} AutoConnectsSnoc(p: Params, h: Hook, events: seq<Event>, e: Event)
    ensures AutoConnects(p, h, events + [e]) == AutoConnects(p, h, events) + if Connects(After(p, h, events), e) then 1 else 0
  {
    assert (events + [e])[..|events|] == events;
  }

  ghost predicate Retried(p: Params, h: Hook, n: nat)
    requires h.current.Some?
  {
    var h' := After(p, h, Rounds(h, n));
    && InUse(h') && h'.attempts == h.attempts + n && h'.nextTimer == h.nextTimer + n
    && h'.current == Some(SocketOf(h, n)) && |h'.sockets| == |h.sockets| + n
    && AutoConnects(p, h, Rounds(h, n)) == n
  }

  lemma {:induction false} OneMoreRound(p: Params, h: Hook, n: nat)
    requires InUse(h) && p.shouldReconnect && h.attempts + n < p.maxAttempts && Retried(p, h, n)
    ensures Retried(p, h, n + 1)
  {
    hide Step;
    hide Connects;
    hide After;
    hide AutoConnects;
    var events, h1 := Rounds(h, n), After(p, h, Rounds(h, n));
    var closes, fires := SocketCloses(SocketOf(h, n)), TimerFires(h.nextTimer + n, false);
    assert Rounds(h, n + 1) == events + [closes] + [fires];
    RoundRetries(p, h1);
    AfterSnoc(p, h, events, closes);
    AfterSnoc(p, h, events + [closes], fires);
    AutoConnectsSnoc(p, h, events, closes);
    AutoConnectsSnoc(p, h, events + [closes], fires);
  }

  lemma {:induction false} RoundsRetry(p: Params, h: Hook, n: nat)
    requires InUse(h) && p.shouldReconnect && h.attempts + n <= p.maxAttempts
    ensures Retried(p, h, n)
  {
    if n > 0 {
      hide Retried;
      RoundsRetry(p, h, n - 1);
      OneMoreRound(p, h, n - 1);
    }
  }

  lemma {:induction false} RoundsDoNotReset(h: Hook, n: nat)
    requires h.current.Some?
    ensures NoReset(Rounds(h, n))
  {
    if n > 0 {
      RoundsDoNotReset(h, n - 1);
    }
  }

  /** After any events, a hook whose socket is in use retries as long as attempts
      are left: `n` rounds of close and timer connect `n` times, and the next close
      sets a timer exactly when one more attempt is left. */
  lemma {:induction false} RetriesUntilMaximum(p: Params, before: seq<Event>, n: nat)
    requires p.shouldReconnect && SinceReset(p, before) + n <= p.maxAttempts
    requires InUse(After(p, INITIAL, before))
    ensures var h := After(p, INITIAL, before);
      && AutoConnects(p, h, Rounds(h, n)) == n && NoReset(Rounds(h, n))
      && var closed := After(p, h, Rounds(h, n) + [SocketCloses(SocketOf(h, n))]);
        |closed.reconnectTimers| == if SinceReset(p, before) + n < p.maxAttempts then 1 else 0
  {
    var h := After(p, INITIAL, before);
    AlwaysSafe(p, before);
    AttemptsAreSinceReset(p, before);
    RoundsRetry(p, h, n);
    RoundsDoNotReset(h, n);
    AttemptsCountConnects(p, h, Rounds(h, n));
    AfterSnoc(p, h, Rounds(h, n), SocketCloses(SocketOf(h, n)));
    CloseSetsOneTimer(p, After(p, h, Rounds(h, n)));
  }

  lemma {:induction false} CloseSetsOneTimer(p: Params, h: Hook)
    requires Safe(p, h) && InUse(h)
    ensures |Step(p, h, SocketCloses(h.current.value)).reconnectTimers|
         == if p.shouldReconnect && h.attempts < p.maxAttempts then 1 else 0
  {
    assert ClearTimers(h.(sockets := h.sockets[h.current.value := Closed])).reconnectTimers == {};
  }

  /** From its mount, a connection that always fails is retried exactly
      `maxAttempts` times. */
  lemma {:induction false} FreshHookRetries(p: Params, n: nat)
    requires p.shouldReconnect && n <= p.maxAttempts
    ensures var h := After(p, INITIAL, [Mount(false)]);
      && h.current == Some(0)
      && AutoConnects(p, h, Rounds(h, n)) == n
      && var closed := After(p, h, Rounds(h, n) + [SocketCloses(SocketOf(h, n))]);
        |closed.reconnectTimers| == if n < p.maxAttempts then 1 else 0
  {
    assert [Mount(false)][..0] == [];
    assert After(p, INITIAL, []) == INITIAL;
    assert After(p, INITIAL, [Mount(false)]) == Step(p, INITIAL, Mount(false));
    RetriesUntilMaximum(p, [Mount(false)], n);
  }
}
