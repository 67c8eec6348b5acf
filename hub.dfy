/** The server side of the push channel (server/websocket.ts): the set of
    connected sockets and `broadcast`. A socket is an abstract handle with a
    ready state and the list of messages sent on it; the `ws` library, the HTTP
    upgrade and JSON serialisation are not part of this model. */
module ServerSocket {
  import opened Schema

  /** The `type` tag of a pushed message. */
  datatype MessageType = ListingAccepted | ListingExpired

  /** `WSMessage`: a tag and a full listing record. */
  datatype WSMessage = WSMessage(msgType: MessageType, listing: Listing)

  /** The `type` field as it appears in the serialised message. */
  function TypeText(k: MessageType): (s: string)
    ensures s == "listing_accepted" || s == "listing_expired"
    ensures s == "listing_accepted" <==> k == ListingAccepted
  {
    match k
    case ListingAccepted => "listing_accepted"
    case ListingExpired => "listing_expired"
  }

  /** `WebSocket.readyState`. */
  datatype ReadyState = Connecting | Open | Closing | Closed

  /** A connected client's socket, as the server holds it. */
  class Socket {
    var readyState: ReadyState
    /** What `send` has put on this socket, oldest first. */
    var sent: seq<WSMessage>

    constructor (state: ReadyState)
      ensures readyState == state && sent == []
    {
      readyState := state;
      sent := [];
    }
  }

  /** The value `setupWebSocket` returns, together with the `clients` set its
      event handlers maintain. */
  class Hub {
    var clients: set<Socket>
    /** Every message passed to `broadcast`, oldest first. */
    ghost var history: seq<WSMessage>

    constructor ()
      ensures clients == {} && history == []
    {
      clients := {};
      history := [];
    }

    /** The "connection" handler. */
    method OnConnection(ws: Socket)
      modifies this
      ensures clients == old(clients) + {ws}
      ensures history == old(history)
    {
      clients := clients + {ws};
    }

    /** The socket's "close" handler. */
    method OnClose(ws: Socket)
      modifies this
      ensures clients == old(clients) - {ws}
      ensures history == old(history)
    {
      clients := clients - {ws};
    }

    /** `broadcast`: one send to every registered socket that is open, none to
        any other socket; no socket is added or removed. */
    method Broadcast(message: WSMessage)
      modifies this, clients
      ensures clients == old(clients)
      ensures history == old(history) + [message]
      ensures forall c :: c in clients ==>
                && c.readyState == old(c.readyState)
                && c.sent == old(c.sent) + (if old(c.readyState) == Open then [message] else [])
    {
      var pending := clients;
      while pending != {}
        invariant pending <= clients
        invariant clients == old(clients) && history == old(history)
        invariant forall c :: c in pending ==> c.readyState == old(c.readyState) && c.sent == old(c.sent)
        invariant forall c :: c in clients - pending ==>
                    && c.readyState == old(c.readyState)
                    && c.sent == old(c.sent) + (if old(c.readyState) == Open then [message] else [])
        decreases pending
      {
        var client :| client in pending;
        if client.readyState == Open {
          client.sent := client.sent + [message];
        }
        pending := pending - {client};
      }
      history := history + [message];
    }
  }
}
