/** The reconnect protocol of the dashboard's WebSocket hook
    (apps/pearl-algo-app/hooks/useWebSocket.ts).

    Every handler is one event; any order of events is allowed, late closes of
    replaced sockets included. An event that its environment could not produce
    (a second close of a socket, a cleared timer firing) changes nothing. */
module Reconnect {
  import opened Common

  datatype Params = Params(shouldReconnect: bool, maxAttempts: int)

  datatype SocketState = Connecting | Open | Closing | Closed

  /** The hook's refs, the sockets it ever created (by number) and the timers
      that are still set. */
  datatype Hook = Hook(
    mounted: bool, attempts: int,
    sockets: seq<SocketState>, current: Option<nat>,
    reconnectRef: Option<nat>, reconnectTimers: set<nat>,
    pingRef: Option<nat>, pingTimers: set<nat>, nextTimer: nat)

  /** `throws` says whether the WebSocket constructor raises. */
  datatype Event =
    | Mount(throws: bool) | Unmount
    | SocketOpens(id: nat) | SocketCloses(id: nat)
    | TimerFires(timer: nat, throws: bool)
    | ManualReconnect(throws: bool) | CloseCalled

  const INITIAL := Hook(true, 0, [], None, None, {}, None, {}, 0)

  function RefSet(r: Option<nat>): set<nat> {
    match r
    case None => {}
    case Some(t) => {t}
  }

  function ClearTimers(h: Hook): Hook {
    h.(reconnectTimers := h.reconnectTimers - RefSet(h.reconnectRef), reconnectRef := None,
       pingTimers := h.pingTimers - RefSet(h.pingRef), pingRef := None)
  }

  predicate IsOpen(h: Hook) {
    h.current.Some? && h.current.value < |h.sockets| && h.sockets[h.current.value] == Open
  }

  function Connect(h: Hook, throws: bool): Hook {
    if IsOpen(h) then h
    else
      var c := ClearTimers(h);
      if throws then c
      else c.(sockets := c.sockets + [Connecting], current := Some(|c.sockets|))
  }

  /** `ws.close()` on the current socket. */
  function CloseCurrent(h: Hook): Hook {
    if h.current.Some? && h.current.value < |h.sockets| && h.sockets[h.current.value] in {Connecting, Open} then
      h.(sockets := h.sockets[h.current.value := Closing])
    else h
  }

  function OnOpen(h: Hook, id: nat): Hook {
    if id >= |h.sockets| || h.sockets[id] != Connecting then h
    else
      var o := h.(sockets := h.sockets[id := Open]);
      if !o.mounted then o
      else o.(attempts := 0, pingRef := Some(o.nextTimer), pingTimers := o.pingTimers + {o.nextTimer}, nextTimer := o.nextTimer + 1)
  }

  function OnClose(p: Params, h: Hook, id: nat): Hook {
    if id >= |h.sockets| || h.sockets[id] == Closed then h
    else
      var o := h.(sockets := h.sockets[id := Closed]);
      if !o.mounted then o
      else
        var c := ClearTimers(o);
        if p.shouldReconnect && c.attempts < p.maxAttempts then
          c.(reconnectRef := Some(c.nextTimer), reconnectTimers := c.reconnectTimers + {c.nextTimer}, nextTimer := c.nextTimer + 1)
        else c
  }

  function OnTimer(h: Hook, timer: nat, throws: bool): Hook {
    if timer !in h.reconnectTimers then h
    else
      var f := h.(reconnectTimers := h.reconnectTimers - {timer});
      if !f.mounted then f
      else Connect(f.(attempts := f.attempts + 1), throws)
  }

  function Step(p: Params, h: Hook, e: Event): Hook {
    match e
    case Mount(throws) => Connect(h.(mounted := true), throws)
    case Unmount => CloseCurrent(ClearTimers(h.(mounted := false))).(current := None)
    case SocketOpens(id) => OnOpen(h, id)
    case SocketCloses(id) => OnClose(p, h, id)
    case TimerFires(timer, throws) => OnTimer(h, timer, throws)
    case ManualReconnect(throws) => Connect(CloseCurrent(h.(attempts := 0)), throws)
    case CloseCalled => CloseCurrent(ClearTimers(h)).(current := None)
  }

  function After(p: Params, h: Hook, events: seq<Event>): Hook {
    if events == [] then h
    else Step(p, After(p, h, events[..|events| - 1]), events[|events| - 1])
  }

  // ----- The hook -----

  class UseWebSocket {
    const p: Params
    var mounted: bool
    var attempts: int
    var sockets: seq<SocketState>
    var current: Option<nat>
    var reconnectRef: Option<nat>
    var reconnectTimers: set<nat>
    var pingRef: Option<nat>
    var pingTimers: set<nat>
    var nextTimer: nat

    constructor (p: Params)
      ensures this.p == p && State() == INITIAL
    {
      this.p := p;
      mounted, attempts, sockets, current := true, 0, [], None;
      reconnectRef, reconnectTimers, pingRef, pingTimers, nextTimer := None, {}, None, {}, 0;
    }

    ghost function State(): Hook
      reads this
    {
      Hook(mounted, attempts, sockets, current, reconnectRef, reconnectTimers, pingRef, pingTimers, nextTimer)
    }

    method Clear()
      modifies `reconnectRef, `reconnectTimers, `pingRef, `pingTimers
      ensures State() == ClearTimers(old(State()))
    {
      if reconnectRef.Some? {
        reconnectTimers := reconnectTimers - {reconnectRef.value};
        reconnectRef := None;
      }
      if pingRef.Some? {
        pingTimers := pingTimers - {pingRef.value};
        pingRef := None;
      }
    }

    method StartSocket(throws: bool)
      modifies `reconnectRef, `reconnectTimers, `pingRef, `pingTimers, `sockets, `current
      ensures State() == Connect(old(State()), throws)
    {
      if current.Some? && current.value < |sockets| && sockets[current.value] == Open {
        return;
      }
      Clear();
      if !throws {
        current := Some(|sockets|);
        sockets := sockets + [Connecting];
      }
    }

    method CloseSocket()
      modifies `sockets
      ensures State() == CloseCurrent(old(State()))
    {
      if current.Some? && current.value < |sockets|
         && (sockets[current.value] == Connecting || sockets[current.value] == Open) {
        sockets := sockets[current.value := Closing];
      }
    }

    method HandleOpen(id: nat)
      modifies this
      ensures State() == Step(p, old(State()), SocketOpens(id))
    {
      if id >= |sockets| || sockets[id] != Connecting {
        return;
      }
      sockets := sockets[id := Open];
      if !mounted {
        return;
      }
      attempts := 0;
      pingRef, pingTimers, nextTimer := Some(nextTimer), pingTimers + {nextTimer}, nextTimer + 1;
    }

    method HandleClose(id: nat)
      modifies this
      ensures State() == Step(p, old(State()), SocketCloses(id))
    {
      if id >= |sockets| || sockets[id] == Closed {
        return;
      }
      sockets := sockets[id := Closed];
      if !mounted {
        return;
      }
      Clear();
      if p.shouldReconnect && attempts < p.maxAttempts {
        reconnectRef, reconnectTimers, nextTimer := Some(nextTimer), reconnectTimers + {nextTimer}, nextTimer + 1;
      }
    }

    method HandleTimer(timer: nat, throws: bool)
      modifies this
      ensures State() == Step(p, old(State()), TimerFires(timer, throws))
    {
      if timer !in reconnectTimers {
        return;
      }
      reconnectTimers := reconnectTimers - {timer};
      if mounted {
        attempts := attempts + 1;
        StartSocket(throws);
      }
    }

    method Reconnect(throws: bool)
      modifies this
      ensures State() == Step(p, old(State()), Event.ManualReconnect(throws))
    {
      attempts := 0;
      CloseSocket();
      StartSocket(throws);
    }

    method Close()
      modifies this
      ensures State() == Step(p, old(State()), CloseCalled)
    {
      Clear();
      CloseSocket();
      current := None;
    }

    method MountEffect(throws: bool)
      modifies this
      ensures State() == Step(p, old(State()), Mount(throws))
    {
      mounted := true;
      StartSocket(throws);
    }

    method Cleanup()
      modifies this
      ensures State() == Step(p, old(State()), Unmount)
    {
      mounted := false;
      Clear();
      CloseSocket();
      current := None;
    }
  }

  // ----- Under every interleaving -----

  /** At most the referenced reconnect timer is set, only while mounted and only
      with attempts to spare; attempts stay within the maximum. */
  ghost predicate Safe(p: Params, h: Hook) {
    && h.reconnectTimers <= RefSet(h.reconnectRef)
    && (h.reconnectTimers != {} ==> h.mounted && h.attempts < p.maxAttempts)
    && 0 <= h.attempts <= Max(0, p.maxAttempts)
  }

  lemma {:induction false} StepIsSafe(p: Params, h: Hook, e: Event)
    requires Safe(p, h)
    ensures Safe(p, Step(p, h, e))
  {
    assert ClearTimers(h).reconnectTimers == {};
  }

  /** Under every interleaving at most one reconnect timer is set and attempts
      never exceed the maximum. */
  lemma {:induction false} AlwaysSafe(p: Params, events: seq<Event>)
    ensures Safe(p, After(p, INITIAL, events))
    ensures |After(p, INITIAL, events).reconnectTimers| <= 1
  {
    if events == [] {
    } else {
      AlwaysSafe(p, events[..|events| - 1]);
      StepIsSafe(p, After(p, INITIAL, events[..|events| - 1]), events[|events| - 1]);
    }
    var h := After(p, INITIAL, events);
    if h.reconnectTimers != {} {
      assert h.reconnectTimers == RefSet(h.reconnectRef);
    }
  }

  predicate Resets(e: Event) {
    e.SocketOpens? || e.ManualReconnect?
  }

  /** Does the event fire a live timer of a mounted hook? */
  predicate Connects(h: Hook, e: Event) {
    e.TimerFires? && e.timer in h.reconnectTimers && h.mounted
  }

  /** The automatic connects in `events`. */
  function AutoConnects(p: Params, h: Hook, events: seq<Event>): nat {
    if events == [] then 0
    else
      var n := |events| - 1;
      AutoConnects(p, h, events[..n]) + if Connects(After(p, h, events[..n]), events[n]) then 1 else 0
  }

  ghost predicate NoReset(events: seq<Event>) {
    forall i :: 0 <= i < |events| ==> !Resets(events[i])
  }

  lemma {:induction false} StepCounts(p: Params, h: Hook, e: Event)
    requires !Resets(e)
    ensures Step(p, h, e).attempts == h.attempts + if Connects(h, e) then 1 else 0
  {
  }

  lemma {:induction false} AttemptsCountConnects(p: Params, h: Hook, events: seq<Event>)
    requires Safe(p, h) && NoReset(events)
    ensures Safe(p, After(p, h, events))
    ensures After(p, h, events).attempts == h.attempts + AutoConnects(p, h, events)
  {
    if events == [] {
    } else {
      var n := |events| - 1;
      AttemptsCountConnects(p, h, events[..n]);
      StepIsSafe(p, After(p, h, events[..n]), events[n]);
      StepCounts(p, After(p, h, events[..n]), events[n]);
    }
  }

  /** Between two resets (an open, or a manual reconnect) there are at most
      maxAttempts automatic connects, whatever happened before. */
  lemma {:induction false} ConnectsBetweenResets(p: Params, before: seq<Event>, events: seq<Event>)
    requires NoReset(events)
    ensures AutoConnects(p, After(p, INITIAL, before), events) <= Max(0, p.maxAttempts)
  {
    AlwaysSafe(p, before);
    AttemptsCountConnects(p, After(p, INITIAL, before), events);
  }

  ghost predicate NoMount(events: seq<Event>) {
    forall i :: 0 <= i < |events| ==> !events[i].Mount?
  }

  lemma {:induction false} StaysUnmounted(p: Params, h: Hook, events: seq<Event>)
    requires Safe(p, h) && !h.mounted && NoMount(events)
    ensures !After(p, h, events).mounted && After(p, h, events).reconnectTimers == {}
  {
    if events == [] {
    } else {
      var n := |events| - 1;
      StaysUnmounted(p, h, events[..n]);
    }
  }

  /** After a final unmount no reconnect timer is ever set again. */
  lemma {:induction false} UnmountIsFinal(p: Params, before: seq<Event>, after: seq<Event>)
    requires NoMount(after)
    ensures After(p, Step(p, After(p, INITIAL, before), Unmount), after).reconnectTimers == {}
  {
    var h := After(p, INITIAL, before);
    AlwaysSafe(p, before);
    StepIsSafe(p, h, Unmount);
    StaysUnmounted(p, Step(p, h, Unmount), after);
  }

  // ----- Ping timers -----

  /** An open handler that starts a ping timer while another is still set. */
  predicate Overwrites(h: Hook, e: Event) {
    && e.SocketOpens? && h.mounted && h.pingRef.Some?
    && e.id < |h.sockets| && h.sockets[e.id] == Connecting
  }

  ghost predicate NeverOverwritten(p: Params, events: seq<Event>) {
    forall k :: 0 <= k < |events| ==> !Overwrites(After(p, INITIAL, events[..k]), events[k])
  }

  /** The referenced ping timer is set, and timers are numbered in turn. */
  ghost predicate Numbered(h: Hook) {
    RefSet(h.pingRef) <= h.pingTimers && forall t :: t in h.pingTimers ==> t < h.nextTimer
  }

  /** No ping timer is set but the referenced one. */
  ghost predicate Tracked(h: Hook) {
    h.pingTimers <= RefSet(h.pingRef)
  }

  lemma {:induction false} StepTracks(p: Params, h: Hook, e: Event)
    requires Numbered(h)
    ensures Numbered(Step(p, h, e))
    ensures Tracked(Step(p, h, e)) <==> Tracked(h) && !Overwrites(h, e)
  {
    if e.SocketOpens? {
      OpenTracks(h, e.id);
    } else {
      var h' := Step(p, h, e);
      assert || (h'.pingRef == h.pingRef && h'.pingTimers == h.pingTimers)
             || (h'.pingRef == None && h'.pingTimers == h.pingTimers - RefSet(h.pingRef));
    }
  }

  lemma {:induction false} OpenTracks(h: Hook, id: nat)
    requires Numbered(h)
    ensures Numbered(OnOpen(h, id))
    ensures Tracked(OnOpen(h, id)) <==> Tracked(h) && !Overwrites(h, SocketOpens(id))
  {
    var h' := OnOpen(h, id);
    if h'.pingTimers != h.pingTimers {
      assert h'.pingTimers == h.pingTimers + {h.nextTimer};
      if t :| t in h.pingTimers {
        assert t in h'.pingTimers && t != h.nextTimer;
      }
    }
  }

  lemma {:induction false} OneMoreEvent(p: Params, events: seq<Event>)
    requires events != []
    ensures var n := |events| - 1;
      NeverOverwritten(p, events) <==>
        NeverOverwritten(p, events[..n]) && !Overwrites(After(p, INITIAL, events[..n]), events[n])
  {
    hide After;
    hide Overwrites;
    var n := |events| - 1;
    assert forall k :: 0 <= k < n ==> events[..n][..k] == events[..k] && events[..n][k] == events[k];
  }

  lemma {:induction false} NothingYet(p: Params)
    ensures Numbered(After(p, INITIAL, [])) && Tracked(After(p, INITIAL, []))
  {
  }

  lemma {:induction false} RunTracks(p: Params, events: seq<Event>)
    ensures Numbered(After(p, INITIAL, events))
    ensures Tracked(After(p, INITIAL, events)) <==> NeverOverwritten(p, events)
  {
    hide Step;
    hide Overwrites;
    hide Numbered;
    hide Tracked;
    if events == [] {
      NothingYet(p);
    } else {
      var n := |events| - 1;
      RunTracks(p, events[..n]);
      StepTracks(p, After(p, INITIAL, events[..n]), events[n]);
      hide NeverOverwritten;
      OneMoreEvent(p, events);
    }
  }

  lemma {:induction false} PingsStayAsLeft(p: Params, h: Hook, events: seq<Event>)
    requires !h.mounted && h.pingRef == None && h.reconnectTimers == {} && NoMount(events)
    ensures var r := After(p, h, events);
      !r.mounted && r.pingRef == None && r.reconnectTimers == {} && r.pingTimers == h.pingTimers
  {
    if events == [] {
    } else {
      PingsStayAsLeft(p, h, events[..|events| - 1]);
    }
  }

  /** After a final unmount no ping timer is left exactly when no open handler
      ever ran while a ping timer was already set. */
  lemma {:induction false} PingsStopExactlyWhen(p: Params, before: seq<Event>, after: seq<Event>)
    requires NoMount(after)
    ensures After(p, Step(p, After(p, INITIAL, before), Unmount), after).pingTimers == {} <==> NeverOverwritten(p, before)
  {
    var h := After(p, INITIAL, before);
    AlwaysSafe(p, before);
    StepIsSafe(p, h, Unmount);
    RunTracks(p, before);
    PingsStayAsLeft(p, Step(p, h, Unmount), after);
    assert Step(p, h, Unmount).pingTimers == h.pingTimers - RefSet(h.pingRef);
  }

  // ----- Sockets -----

  predicate Live(h: Hook, id: nat) {
    id < |h.sockets| && h.sockets[id] in {Connecting, Open}
  }

  /** A live socket the hook no longer refers to. */
  predicate Stray(h: Hook, id: nat) {
    Live(h, id) && h.current != Some(id)
  }

  /** A connect, on mount or by the timer, while the current socket is still
      connecting: it is replaced without being closed. */
  predicate Replaces(h: Hook, e: Event) {
    && (match e
        case Mount(throws) => !throws
        case TimerFires(timer, throws) => !throws && timer in h.reconnectTimers && h.mounted
        case _ => false)
    && h.current.Some? && h.current.value < |h.sockets| && h.sockets[h.current.value] == Connecting
  }

  /** Event `k` replaces socket `id`, and no later event closes it. */
  ghost predicate Abandons(p: Params, events: seq<Event>, k: nat, id: nat)
    requires k < |events|
  {
    var h := After(p, INITIAL, events[..k]);
    && Replaces(h, events[k]) && h.current == Some(id)
    && forall m :: k < m < |events| ==> events[m] != SocketCloses(id)
  }

  ghost predicate Abandoned(p: Params, events: seq<Event>, id: nat) {
    exists k :: 0 <= k < |events| && Abandons(p, events, k, id)
  }

  ghost predicate CurrentExists(h: Hook) {
    h.current.Some? ==> h.current.value < |h.sockets|
  }

  lemma {:induction false} ConnectStrays(h: Hook, throws: bool, id: nat)
    requires CurrentExists(h)
    ensures CurrentExists(Connect(h, throws))
    ensures Stray(Connect(h, throws), id) <==>
      Stray(h, id) || (!throws && h.current == Some(id) && h.sockets[id] == Connecting)
  {
  }

  lemma {:induction false} CloseStrays(h: Hook, id: nat)
    requires CurrentExists(h)
    ensures CurrentExists(CloseCurrent(h)) && (Stray(CloseCurrent(h), id) <==> Stray(h, id))
    ensures CloseCurrent(h).current == h.current
    ensures h.current.Some? ==> CloseCurrent(h).sockets[h.current.value] !in {Connecting, Open}
  {
  }

  lemma {:induction false} OpenStrays(h: Hook, socket: nat, id: nat)
    requires CurrentExists(h)
    ensures CurrentExists(OnOpen(h, socket)) && (Stray(OnOpen(h, socket), id) <==> Stray(h, id))
  {
  }

  lemma {:induction false} ClosedStrays(p: Params, h: Hook, socket: nat, id: nat)
    requires CurrentExists(h)
    ensures CurrentExists(OnClose(p, h, socket))
    ensures Stray(OnClose(p, h, socket), id) <==> Stray(h, id) && socket != id
  {
  }

  lemma {:induction false} TimerStrays(h: Hook, timer: nat, throws: bool, id: nat)
    requires CurrentExists(h)
    ensures CurrentExists(OnTimer(h, timer, throws))
    ensures Stray(OnTimer(h, timer, throws), id) <==>
      Stray(h, id) || (Replaces(h, TimerFires(timer, throws)) && h.current == Some(id))
  {
    hide Connect;
    var f := h.(reconnectTimers := h.reconnectTimers - {timer});
    ConnectStrays(f.(attempts := f.attempts + 1), throws, id);
  }

  /** A socket strays when a connect replaces it, and stops when it closes. */
  lemma {:induction false} StepStrays(p: Params, h: Hook, e: Event, id: nat)
    requires CurrentExists(h)
    ensures CurrentExists(Step(p, h, e))
    ensures Stray(Step(p, h, e), id) <==>
      (Stray(h, id) && e != SocketCloses(id)) || (Replaces(h, e) && h.current == Some(id))
  {
    hide Connect;
    hide CloseCurrent;
    hide OnOpen;
    hide OnClose;
    hide OnTimer;
    match e {
      case Mount(throws) =>
        ConnectStrays(h.(mounted := true), throws, id);
      case TimerFires(timer, throws) =>
        TimerStrays(h, timer, throws, id);
      case ManualReconnect(throws) =>
        CloseStrays(h.(attempts := 0), id);
        ConnectStrays(CloseCurrent(h.(attempts := 0)), throws, id);
      case Unmount =>
        CloseStrays(ClearTimers(h.(mounted := false)), id);
      case CloseCalled =>
        CloseStrays(ClearTimers(h), id);
      case SocketOpens(socket) =>
        OpenStrays(h, socket, id);
      case SocketCloses(socket) =>
        ClosedStrays(p, h, socket, id);
    }
  }

  /** One more event abandons a socket, or leaves it abandoned unless it closes. */
  lemma {:induction false} AbandonedStep(p: Params, events: seq<Event>, id: nat)
    requires events != []
    ensures var n := |events| - 1;
      var h := After(p, INITIAL, events[..n]);
      Abandoned(p, events, id) <==>
        (Abandoned(p, events[..n], id) && events[n] != SocketCloses(id)) || (Replaces(h, events[n]) && h.current == Some(id))
  {
    hide After;
    hide Replaces;
    var n := |events| - 1;
    assert forall k :: 0 <= k < n ==> events[..n][..k] == events[..k] && events[..n][k] == events[k];
    if Abandoned(p, events[..n], id) && events[n] != SocketCloses(id) {
      var k :| 0 <= k < n && Abandons(p, events[..n], k, id);
      assert Abandons(p, events, k, id);
    }
    if Replaces(After(p, INITIAL, events[..n]), events[n]) && After(p, INITIAL, events[..n]).current == Some(id) {
      assert Abandons(p, events, n, id);
    }
    if Abandoned(p, events, id) {
      var k :| 0 <= k < |events| && Abandons(p, events, k, id);
      if k < n {
        assert Abandons(p, events[..n], k, id);
      }
    }
  }

  lemma {:induction false} RunStrays(p: Params, events: seq<Event>, id: nat)
    ensures CurrentExists(After(p, INITIAL, events))
    ensures Stray(After(p, INITIAL, events), id) <==> Abandoned(p, events, id)
  {
    hide Step;
    hide Replaces;
    hide Stray;
    hide Abandoned;
    if events == [] {
      NoneStray(p, id);
    } else {
      var n := |events| - 1;
      RunStrays(p, events[..n], id);
      StepStrays(p, After(p, INITIAL, events[..n]), events[n], id);
      AbandonedStep(p, events, id);
    }
  }

  lemma {:induction false} NoneStray(p: Params, id: nat)
    ensures CurrentExists(After(p, INITIAL, []))
    ensures !Stray(After(p, INITIAL, []), id) && !Abandoned(p, [], id)
  {
  }

  lemma {:induction false} UnmountLeavesStrays(p: Params, h: Hook, id: nat)
    requires CurrentExists(h)
    ensures Live(Step(p, h, Unmount), id) <==> Stray(h, id)
  {
    CloseStrays(ClearTimers(h.(mounted := false)), id);
  }

  /** A socket is still connecting or open after the unmount exactly when some
      event replaced it while it was connecting and none closed it since. */
  lemma {:induction false} SocketOutlivesExactlyWhen(p: Params, before: seq<Event>, id: nat)
    ensures Live(After(p, INITIAL, before + [Unmount]), id) <==> Abandoned(p, before, id)
  {
    AfterSnoc(p, INITIAL, before, Unmount);
    RunStrays(p, before, id);
    UnmountLeavesStrays(p, After(p, INITIAL, before), id);
  }

  // ----- What the protocol does not guarantee -----

  lemma {:induction false} AfterSnoc(p: Params, h: Hook, events: seq<Event>, e: Event)
    ensures After(p, h, events + [e]) == Step(p, After(p, h, events), e)
  {
    assert (events + [e])[..|events|] == events;
  }

  const ORPHANING := [Mount(false), ManualReconnect(false), SocketCloses(0), TimerFires(0, false), SocketOpens(1), SocketOpens(2)]

  const REPLACED := Hook(true, 0, [Closing, Connecting], Some(1), None, {}, None, {}, 0)
  const ARMED := Hook(true, 0, [Closed, Connecting], Some(1), Some(0), {0}, None, {}, 1)
  const DOUBLED := Hook(true, 1, [Closed, Connecting, Connecting], Some(2), None, {}, None, {}, 1)
  const BOTH_OPEN := Hook(true, 0, [Closed, Open, Open], Some(2), None, {}, Some(2), {1, 2}, 3)

  lemma {:induction false} MountThenReplace(p: Params)
    ensures Step(p, Step(p, INITIAL, Mount(false)), ManualReconnect(false)) == REPLACED
  {
    var h1 := Step(p, INITIAL, Mount(false));
    assert h1.sockets == [Connecting] && h1.reconnectTimers == {} && h1.pingTimers == {};
    var h2 := Step(p, h1, ManualReconnect(false));
    assert h2.sockets == [Closing, Connecting] && h2.reconnectTimers == {} && h2.pingTimers == {};
  }

  lemma {:induction false} LateCloseArms(p: Params)
    requires p.shouldReconnect && p.maxAttempts > 0
    ensures Step(p, REPLACED, SocketCloses(0)) == ARMED
  {
    var h := OnClose(p, REPLACED, 0);
    assert h.sockets == [Closed, Connecting];
    assert h.reconnectTimers == {0} && h.pingTimers == {};
  }

  lemma {:induction false} TimerDoubles(p: Params)
    ensures Step(p, ARMED, TimerFires(0, false)) == DOUBLED
  {
    var h := OnTimer(ARMED, 0, false);
    assert h.sockets == [Closed, Connecting, Connecting];
    assert h.reconnectTimers == {} && h.pingTimers == {};
  }

  lemma {:induction false} BothOpen(p: Params)
    ensures Step(p, Step(p, DOUBLED, SocketOpens(1)), SocketOpens(2)) == BOTH_OPEN
  {
    var h := OnOpen(DOUBLED, 1);
    assert h.sockets == [Closed, Open, Connecting] && h.pingTimers == {1};
    assert OnOpen(h, 2).sockets == [Closed, Open, Open] && OnOpen(h, 2).pingTimers == {1, 2};
  }

  /** A late close of a replaced socket can make the hook replace a socket that is
      still connecting without closing it. Both then open: the first one's ping
      timer is lost, and it and its socket outlive the unmount. */
  lemma {:induction false} OrphanOutlivesUnmount(p: Params)
    requires p.shouldReconnect && p.maxAttempts > 0
    ensures var h := After(p, INITIAL, ORPHANING + [Unmount]);
      !h.mounted && h.pingTimers != {} && exists id :: 0 <= id < |h.sockets| && h.sockets[id] == Open
  {
    var e := ORPHANING;
    for k := 0 to |e|
      invariant After(p, INITIAL, e[..k]) == AfterFirst(p, INITIAL, e, k)
    {
      assert e[..k + 1] == e[..k] + [e[k]];
      AfterSnoc(p, INITIAL, e[..k], e[k]);
    }
    assert e[..|e|] == e;
    MountThenReplace(p);
    LateCloseArms(p);
    TimerDoubles(p);
    BothOpen(p);
    assert AfterFirst(p, INITIAL, e, 2) == REPLACED;
    assert AfterFirst(p, INITIAL, e, 4) == DOUBLED;
    assert AfterFirst(p, INITIAL, e, 6) == BOTH_OPEN;
    AfterSnoc(p, INITIAL, e, Unmount);
    var h := Step(p, BOTH_OPEN, Unmount);
    assert h.sockets[1] == Open && 1 in h.pingTimers;
  }

  function AfterFirst(p: Params, h: Hook, events: seq<Event>, k: nat): Hook
    requires k <= |events|
  {
    if k == 0 then h else Step(p, AfterFirst(p, h, events, k - 1), events[k - 1])
  }
}
