/** The browser side of the push channel (client/src/lib/websocket.ts): the
    module-level `ws` and `reconnectAttempts` and the socket's event handlers.
    The socket is abstract: only whether one is held matters. A `setTimeout`
    call is recorded by its delay in `scheduled`; when such a timer fires it
    calls `connectWebSocket` again, which is a ConnectCall event here. A call to
    `invalidateQueries` is counted in `refreshes`. */
module LiveUpdates {
  import ServerSocket

  const MaxReconnectAttempts: nat := 5

  function Pow2(n: nat): (r: nat)
    ensures r >= 1
  {
    if n == 0 then 1 else 2 * Pow2(n - 1)
  }

  lemma {:induction false} Pow2Monotone(a: nat, b: nat)
    requires a <= b
    ensures Pow2(a) <= Pow2(b)
    decreases b
  {
    if a < b {
      Pow2Monotone(a, b - 1);
    }
  }

  /** The delay before the next reconnect, given the already incremented
      attempt count: `Math.min(1000 * Math.pow(2, attempts), 10000)`. */
  function ReconnectDelay(attempts: nat): (ms: nat)
    ensures 1000 <= ms <= 10000
  {
    if 1000 * Pow2(attempts) < 10000 then 1000 * Pow2(attempts) else 10000
  }

  /** A later attempt never waits less. */
  lemma ReconnectDelayMonotone(a: nat, b: nat)
    requires a <= b
    ensures ReconnectDelay(a) <= ReconnectDelay(b)
  {
    Pow2Monotone(a, b);
  }

  /** From the fourth attempt on, the delay is the 10 s cap. */
  lemma ReconnectDelayCapped(a: nat)
    requires a >= 4
    ensures ReconnectDelay(a) == 10000
  {
    Pow2Monotone(4, a);
  }

  /** The five delays the counter can reach: 2, 4, 8, 10 and 10 seconds. */
  lemma ReconnectDelays()
    ensures ReconnectDelay(1) == 2000 && ReconnectDelay(2) == 4000 && ReconnectDelay(3) == 8000
    ensures ReconnectDelay(4) == 10000 && ReconnectDelay(5) == 10000
  {
  }

  /** An incoming message: JSON that does not parse (or has no readable
      `type`), or a parsed message with its `type` field. */
  datatype Incoming = Unparsable | Parsed(msgType: string)

  /** Only the two listing events refresh the listings query. */
  predicate TriggersRefresh(m: Incoming)
  {
    m.Parsed? && (m.msgType == "listing_accepted" || m.msgType == "listing_expired")
  }

  /** Every message the server broadcasts makes a client refresh. */
  lemma BroadcastsRefresh(m: ServerSocket.WSMessage)
    ensures TriggersRefresh(Parsed(ServerSocket.TypeText(m.msgType)))
  {
  }

  /** The client's state: whether `ws` is set, the attempt counter, the delays of
      the reconnects scheduled so far, and the number of refreshes. */
  datatype Conn = Conn(socketHeld: bool, reconnectAttempts: nat, scheduled: seq<nat>, refreshes: nat)

  const Initial := Conn(false, 0, [], 0)

  /** `connectWebSocket`: nothing happens while a socket is held. If the
      `WebSocket` constructor throws, the error is logged and `ws` stays null. */
  function Connect(c: Conn, constructorThrows: bool): (r: Conn)
    ensures c.socketHeld ==> r == c
    ensures !c.socketHeld ==> r.socketHeld == !constructorThrows
    ensures r.reconnectAttempts == c.reconnectAttempts && r.scheduled == c.scheduled && r.refreshes == c.refreshes
  {
    if c.socketHeld || constructorThrows then c else c.(socketHeld := true)
  }

  /** `onopen`: the attempt counter starts over. */
  function Opened(c: Conn): (r: Conn)
    ensures r.reconnectAttempts == 0
    ensures r.socketHeld == c.socketHeld && r.scheduled == c.scheduled && r.refreshes == c.refreshes
  {
    c.(reconnectAttempts := 0)
  }

  /** `onmessage`: one refresh for a listing event, nothing for anything else. */
  function Received(c: Conn, m: Incoming): (r: Conn)
    ensures r.refreshes == c.refreshes + (if TriggersRefresh(m) then 1 else 0)
    ensures r.socketHeld == c.socketHeld && r.reconnectAttempts == c.reconnectAttempts
    ensures r.scheduled == c.scheduled
  {
    if TriggersRefresh(m) then c.(refreshes := c.refreshes + 1) else c
  }

  /** `onclose`: `ws` is cleared; below the limit, the counter goes up and one
      reconnect is scheduled with the delay for the new count. */
  function Closed(c: Conn): (r: Conn)
    ensures !r.socketHeld && r.refreshes == c.refreshes
    ensures c.reconnectAttempts < MaxReconnectAttempts ==>
              && r.reconnectAttempts == c.reconnectAttempts + 1
              && r.scheduled == c.scheduled + [ReconnectDelay(r.reconnectAttempts)]
    ensures c.reconnectAttempts >= MaxReconnectAttempts ==>
              r.reconnectAttempts == c.reconnectAttempts && r.scheduled == c.scheduled
    ensures c.reconnectAttempts <= MaxReconnectAttempts ==> r.reconnectAttempts <= MaxReconnectAttempts
  {
    if c.reconnectAttempts < MaxReconnectAttempts then
      var attempts := c.reconnectAttempts + 1;
      c.(socketHeld := false, reconnectAttempts := attempts, scheduled := c.scheduled + [ReconnectDelay(attempts)])
    else
      c.(socketHeld := false)
  }

  datatype Event = ConnectCall(constructorThrows: bool) | OpenEvent | MessageEvent(m: Incoming) | CloseEvent

  function Step(c: Conn, e: Event): Conn
  {
    match e
    case ConnectCall(throws) => Connect(c, throws)
    case OpenEvent => Opened(c)
    case MessageEvent(m) => Received(c, m)
    case CloseEvent => Closed(c)
  }

  function RunEvents(c: Conn, es: seq<Event>): Conn
    decreases |es|
  {
    if es == [] then c else RunEvents(Step(c, es[0]), es[1..])
  }

  function CountCloses(es: seq<Event>): nat
    decreases |es|
  {
    if es == [] then 0 else (if es[0].CloseEvent? then 1 else 0) + CountCloses(es[1..])
  }

  function Min(a: int, b: int): int
  {
    if a <= b then a else b
  }

  /** The counter never passes the limit, whatever happens. */
  lemma {:induction false} AttemptsBounded(c: Conn, es: seq<Event>)
    requires c.reconnectAttempts <= MaxReconnectAttempts
    ensures RunEvents(c, es).reconnectAttempts <= MaxReconnectAttempts
    decreases |es|
  {
    if es != [] {
      AttemptsBounded(Step(c, es[0]), es[1..]);
    }
  }

  /** With no open in between, k closes schedule exactly min(k, 5 - attempts)
      reconnects, and the counter ends at min(attempts + k, 5). */
  lemma {:induction false} RetriesWithoutOpen(c: Conn, es: seq<Event>)
    requires c.reconnectAttempts <= MaxReconnectAttempts
    requires forall i :: 0 <= i < |es| ==> !es[i].OpenEvent?
    ensures RunEvents(c, es).reconnectAttempts
            == Min(c.reconnectAttempts + CountCloses(es), MaxReconnectAttempts)
    ensures |RunEvents(c, es).scheduled|
            == |c.scheduled| + Min(CountCloses(es), MaxReconnectAttempts - c.reconnectAttempts)
    decreases |es|
  {
    if es != [] {
      RetriesWithoutOpen(Step(c, es[0]), es[1..]);
    }
  }

  /** After five closes with no open in between, the client has given up: a
      further run of events without an open schedules nothing. */
  lemma GivesUpAfterFiveCloses(c: Conn, closes: seq<Event>, later: seq<Event>)
    requires c.reconnectAttempts <= MaxReconnectAttempts
    requires forall i :: 0 <= i < |closes| ==> !closes[i].OpenEvent?
    requires forall i :: 0 <= i < |later| ==> !later[i].OpenEvent?
    requires CountCloses(closes) >= MaxReconnectAttempts
    ensures RunEvents(RunEvents(c, closes), later).scheduled == RunEvents(c, closes).scheduled
  {
    RetriesWithoutOpen(c, closes);
    var mid := RunEvents(c, closes);
    RetriesWithoutOpen(mid, later);
    ScheduledOnlyGrows(mid, later);
  }

  /** Events only ever append to the scheduled reconnects. */
  lemma {:induction false} ScheduledOnlyGrows(c: Conn, es: seq<Event>)
    ensures c.scheduled <= RunEvents(c, es).scheduled
    decreases |es|
  {
    if es != [] {
      ScheduledOnlyGrows(Step(c, es[0]), es[1..]);
    }
  }

  /** The module-level state of the client's socket code. */
  class LiveSocket {
    var socketHeld: bool
    var reconnectAttempts: nat
    var scheduled: seq<nat>
    var refreshes: nat

    function State(): Conn
      reads this
    {
      Conn(socketHeld, reconnectAttempts, scheduled, refreshes)
    }

    ghost predicate Valid()
      reads this
    {
      reconnectAttempts <= MaxReconnectAttempts
    }

    constructor ()
      ensures Valid() && State() == Initial
    {
      socketHeld := false;
      reconnectAttempts := 0;
      scheduled := [];
      refreshes := 0;
    }

    method ConnectWebSocket(constructorThrows: bool)
      requires Valid()
      modifies this
      ensures Valid()
      ensures State() == Connect(old(State()), constructorThrows)
    {
      if socketHeld {
        return;
      }
      if !constructorThrows {
        socketHeld := true;
      }
    }

    method OnOpen()
      requires Valid()
      modifies this
      ensures Valid()
      ensures State() == Opened(old(State()))
    {
      reconnectAttempts := 0;
    }

    method OnMessage(m: Incoming)
      requires Valid()
      modifies this
      ensures Valid()
      ensures State() == Received(old(State()), m)
    {
      if TriggersRefresh(m) {
        refreshes := refreshes + 1;
      }
    }

    method OnClose()
      requires Valid()
      modifies this
      ensures Valid()
      ensures State() == Closed(old(State()))
    {
      socketHeld := false;
      if reconnectAttempts < MaxReconnectAttempts {
        reconnectAttempts := reconnectAttempts + 1;
        scheduled := scheduled + [ReconnectDelay(reconnectAttempts)];
      }
    }
  }
}
