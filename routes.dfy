/** The listing handlers of server/routes.ts as methods over the repository
    object and the broadcast hub. Authentication is a parameter: the session's
    user, or None when the request is not authenticated. A response is a status
    code and a body.

    The accept handler awaits `getListing` before it looks at the listing, and
    other requests may run while it waits. With the in-memory store every
    awaited promise is already resolved, so the handler finishes within one
    drain of the microtask queue and no other request gets in; a store whose
    calls do real I/O opens that window. Its later awaits come after a storage
    call has already completed, so they cannot change what it decides, what it
    stores or what message it sends; which sockets are registered and open when
    the broadcast runs may differ. So it is modelled in two halves:
    AcceptBegin up to the first await, and AcceptResume after it, which acts on
    whatever the store holds by then but still decides on the listing as it was
    read. AcceptContinue is the value-level meaning of the second half, used by
    the lemmas about interleavings. */
module Routes {
  import opened Schema
  import Repo
  import opened Storage
  import opened ServerSocket

  datatype Body =
    | StatusOnly
    | Text(text: string)
    | Record(listing: Listing)
    | Records(listings: seq<Listing>)
    | ValidationError

  datatype Response = Response(code: int, body: Body)

  const Unauthorized := Response(401, StatusOnly)
  const Forbidden := Response(403, StatusOnly)
  const InvalidBody := Response(400, ValidationError)
  const NotFound := Response(404, Text("Listing not found"))
  const NotAvailable := Response(400, Text("Listing not available"))
  const ExpiredAnswer := Response(400, Text("Listing expired"))
  const AcceptFailed := Response(400, Text("Failed to accept listing"))

  /** GET /api/listings. The handler passes the sort query parameters on, but
      `getActiveListings` ignores them, so they are not modelled. */
  method GetListings(store: MemStorage, session: Option<User>, now: int) returns (resp: Response)
    requires store.Valid()
    ensures session.None? ==> resp == Unauthorized
    ensures session.Some? ==> resp == Response(200, Records(Repo.ActiveListings(store.State(), now)))
  {
    if session.None? {
      return Unauthorized;
    }
    var listings := store.GetActiveListings(now);
    resp := Response(200, Records(listings));
  }

  /** POST /api/listings. `body` is the outcome of `insertListingSchema.safeParse`:
      None when the request body does not parse, otherwise the seven fields a
      caller may supply. Nothing is broadcast. */
  method PostListing(store: MemStorage, session: Option<User>, body: Option<ListingInput>, now: int)
    returns (resp: Response)
    requires store.Valid()
    modifies store
    ensures store.Valid()
    ensures session.None? ==> resp == Unauthorized && unchanged(store)
    ensures session.Some? && session.value.role != Helper ==> resp == Forbidden && unchanged(store)
    ensures session.Some? && session.value.role == Helper && body.None? ==> resp == InvalidBody && unchanged(store)
    ensures session.Some? && session.value.role == Helper && body.Some? ==>
              && resp.code == 201 && resp.body.Record?
              && resp.body.listing.createdBy == session.value.id
              && resp.body.listing.status == Available
              && (store.State(), resp.body.listing)
                 == Repo.CreateListing(old(store.State()), body.value, session.value.id, now)
  {
    if session.None? {
      return Unauthorized;
    }
    if session.value.role != Helper {
      return Forbidden;
    }
    if body.None? {
      return InvalidBody;
    }
    var listing := store.CreateListing(body.value, session.value.id, now);
    resp := Response(201, Record(listing));
  }

  /** Where the accept handler stands at its await: answered already, or waiting
      with the caller and the listing as `getListing` returned it. */
  datatype Pending = Answered(resp: Response) | Awaiting(caller: User, snapshot: Option<Listing>)

  /** POST /api/listings/:id/accept up to its await: authentication, role, and
      the read of the listing. Nothing is changed. */
  method AcceptBegin(store: MemStorage, session: Option<User>, id: int) returns (p: Pending)
    ensures session.None? ==> p == Answered(Unauthorized)
    ensures session.Some? && session.value.role != Ngo ==> p == Answered(Forbidden)
    ensures session.Some? && session.value.role == Ngo ==>
              p == Awaiting(session.value, Repo.GetListing(store.State(), id))
  {
    if session.None? {
      return Answered(Unauthorized);
    }
    if session.value.role != Ngo {
      return Answered(Forbidden);
    }
    var listing := store.GetListing(id);
    p := Awaiting(session.value, listing);
  }

  /** What the rest of the accept handler does to a store `t`, given the caller,
      the listing it read earlier and the clock: its answer, the store it
      leaves, and the messages it broadcasts. */
  datatype AcceptOutcome = AcceptOutcome(resp: Response, after: Repo.Tables, events: seq<WSMessage>)

  /** The guards run in order on the listing as read: missing, not available,
      expired (`expiresAt < now`); only then is the store asked to accept. At
      most one message is broadcast, and only on the expiry and success paths. */
  function AcceptContinue(t: Repo.Tables, caller: User, snapshot: Option<Listing>, now: int): (o: AcceptOutcome)
    ensures snapshot.None? ==> o == AcceptOutcome(NotFound, t, [])
    ensures snapshot.Some? && snapshot.value.status != Available ==> o == AcceptOutcome(NotAvailable, t, [])
    ensures o.resp == ExpiredAnswer <==>
              snapshot.Some? && snapshot.value.status == Available && snapshot.value.expiresAt < now
    ensures o.resp == ExpiredAnswer ==>
              && o.after == Repo.UpdateListingStatus(t, snapshot.value.id)
              && o.events == [WSMessage(ListingExpired, snapshot.value)]
    ensures o.resp.code == 200 <==>
              && snapshot.Some? && snapshot.value.status == Available && now <= snapshot.value.expiresAt
              && Repo.AcceptListing(t, snapshot.value.id, caller.id).1.Some?
    ensures o.resp.code == 200 ==>
              && o.resp.body.Record?
              && o.resp.body.listing.status == Accepted
              && o.resp.body.listing.acceptedBy == Some(caller.id)
              && o.events == [WSMessage(ListingAccepted, o.resp.body.listing)]
              && (o.after, Some(o.resp.body.listing)) == Repo.AcceptListing(t, snapshot.value.id, caller.id)
    ensures snapshot.Some? && snapshot.value.status == Available && now <= snapshot.value.expiresAt
            && Repo.AcceptListing(t, snapshot.value.id, caller.id).1.None? ==>
              o == AcceptOutcome(AcceptFailed, t, [])
    ensures o.resp == NotFound ==> snapshot.None?
    ensures o.resp == NotAvailable ==> snapshot.Some? && snapshot.value.status != Available
    ensures o.resp.code != 200 && o.resp != ExpiredAnswer ==> o.after == t && o.events == []
    ensures o.resp in {NotFound, NotAvailable, ExpiredAnswer, AcceptFailed} || o.resp.code == 200
  {
    match snapshot
    case None => AcceptOutcome(NotFound, t, [])
    case Some(listing) =>
      if listing.status != Available then AcceptOutcome(NotAvailable, t, [])
      else if listing.expiresAt < now then
        AcceptOutcome(ExpiredAnswer, Repo.UpdateListingStatus(t, listing.id), [WSMessage(ListingExpired, listing)])
      else
        var (t', updated) := Repo.AcceptListing(t, listing.id, caller.id);
        match updated
        case None => AcceptOutcome(AcceptFailed, t', [])
        case Some(u) => AcceptOutcome(Response(200, Record(u)), t', [WSMessage(ListingAccepted, u)])
  }

  /** POST /api/listings/:id/accept after its await. */
  method AcceptResume(store: MemStorage, hub: Hub, caller: User, snapshot: Option<Listing>, now: int)
    returns (resp: Response)
    requires store.Valid()
    modifies store, hub, hub.clients
    ensures store.Valid()
    ensures hub.clients == old(hub.clients)
    ensures var o := AcceptContinue(old(store.State()), caller, snapshot, now);
      && resp == o.resp
      && store.State() == o.after
      && hub.history == old(hub.history) + o.events
      && forall c :: c in hub.clients ==>
           && c.readyState == old(c.readyState)
           && c.sent == old(c.sent) + (if old(c.readyState) == Open then o.events else [])
  {
    if snapshot.None? {
      return NotFound;
    }
    var listing := snapshot.value;
    if listing.status != Available {
      return NotAvailable;
    }
    if listing.expiresAt < now {
      store.UpdateListingStatus(listing.id);
      hub.Broadcast(WSMessage(ListingExpired, listing));
      return ExpiredAnswer;
    }
    var updated := store.AcceptListing(listing.id, caller.id);
    if updated.None? {
      return AcceptFailed;
    }
    hub.Broadcast(WSMessage(ListingAccepted, updated.value));
    resp := Response(200, Record(updated.value));
  }

  /** With no other request between the read and the rest, the guards decide
      everything: "Failed to accept listing" cannot occur and an accepted
      listing is never expired. */
  lemma AcceptWithFreshSnapshot(t: Repo.Tables, caller: User, id: int, now: int)
    requires Repo.Valid(t)
    ensures var o := AcceptContinue(t, caller, Repo.GetListing(t, id), now);
      && (id !in t.listings ==> o.resp == NotFound)
      && (id in t.listings && t.listings[id].status != Available ==> o.resp == NotAvailable)
      && (id in t.listings && t.listings[id].status == Available && t.listings[id].expiresAt < now ==>
            o.resp == ExpiredAnswer)
      && (id in t.listings && t.listings[id].status == Available && now <= t.listings[id].expiresAt ==>
            o.resp.code == 200 && o.resp.body.listing.id == id)
      && o.resp != AcceptFailed
      && (forall k :: k in t.listings && t.listings[k].status != Available ==> o.after.listings[k] == t.listings[k])
  {
  }

  /** The whole accept handler when nothing else runs during its await. */
  method PostAccept(store: MemStorage, hub: Hub, session: Option<User>, id: int, now: int)
    returns (resp: Response)
    requires store.Valid()
    modifies store, hub, hub.clients
    ensures store.Valid()
    ensures hub.clients == old(hub.clients)
    ensures session.None? ==> resp == Unauthorized && unchanged(store) && hub.history == old(hub.history)
    ensures session.Some? && session.value.role != Ngo ==>
              resp == Forbidden && unchanged(store) && hub.history == old(hub.history)
    ensures session.None? || session.value.role != Ngo ==>
              forall c :: c in hub.clients ==> c.readyState == old(c.readyState) && c.sent == old(c.sent)
    ensures session.Some? && session.value.role == Ngo ==>
              var o := AcceptContinue(old(store.State()), session.value, Repo.GetListing(old(store.State()), id), now);
              && resp == o.resp && resp != AcceptFailed
              && store.State() == o.after
              && hub.history == old(hub.history) + o.events
              && forall c :: c in hub.clients ==>
                   && c.readyState == old(c.readyState)
                   && c.sent == old(c.sent) + (if old(c.readyState) == Open then o.events else [])
  {
    var p := AcceptBegin(store, session, id);
    match p
    case Answered(r) =>
      resp := r;
    case Awaiting(caller, snapshot) =>
      AcceptWithFreshSnapshot(store.State(), caller, id, now);
      resp := AcceptResume(store, hub, caller, snapshot, now);
  }

  /** At `expiresAt == now` the listing is no longer active, yet the accept
      handler does not treat it as expired: the two tests differ at the boundary. */
  lemma ExpiryBoundary(t: Repo.Tables, caller: User, id: int)
    requires Repo.Valid(t) && id in t.listings && t.listings[id].status == Available
    ensures var now := t.listings[id].expiresAt;
      && t.listings[id] !in Repo.ActiveListings(t, now)
      && AcceptContinue(t, caller, Repo.GetListing(t, id), now).resp.code == 200
  {
  }

  /** The storage calls the second half of the accept handler makes. */
  function ContinueCalls(caller: User, snapshot: Option<Listing>, now: int): (calls: seq<Repo.Call>)
    ensures |calls| <= 1
    ensures calls != [] <==> snapshot.Some? && snapshot.value.status == Available
    ensures forall c :: c in calls ==>
              && snapshot.Some? && (c.ExpireCall? || c.AcceptCall?)
              && c.id == snapshot.value.id
              && (c.ExpireCall? <==> snapshot.value.expiresAt < now)
              && (c.AcceptCall? ==> c.acceptedBy == caller.id)
  {
    match snapshot
    case None => []
    case Some(listing) =>
      if listing.status != Available then []
      else if listing.expiresAt < now then [Repo.ExpireCall(listing.id)]
      else [Repo.AcceptCall(listing.id, caller.id)]
  }

  /** The second half of the accept handler touches the store only through its
      storage calls, and it answers 200 exactly when its accept call wins. So
      however handlers and other requests interleave, the store sees one
      sequence of calls, and by Repo.SingleWinner at most one handler answers
      200 for a given listing. */
  lemma ContinueIsItsCalls(t: Repo.Tables, caller: User, snapshot: Option<Listing>, now: int)
    ensures var o := AcceptContinue(t, caller, snapshot, now);
      var calls := ContinueCalls(caller, snapshot, now);
      && o.after == Repo.Run(t, calls)
      && (o.resp.code == 200 <==> snapshot.Some? && Repo.Wins(t, calls, snapshot.value.id) == 1)
  {
    var calls := ContinueCalls(caller, snapshot, now);
    if calls != [] {
      assert calls[1..] == [];
    }
  }

  /** Two accept handlers that read the same listing: whatever storage calls run
      between the first one's second half and the second one's, at most one of
      them answers 200. */
  lemma HandlersOneWinner(t: Repo.Tables, a: User, b: User, snapshot: Option<Listing>,
                          mid: seq<Repo.Call>, now1: int, now2: int)
    requires Repo.Valid(t)
    ensures var o1 := AcceptContinue(t, a, snapshot, now1);
      var o2 := AcceptContinue(Repo.Run(o1.after, mid), b, snapshot, now2);
      !(o1.resp.code == 200 && o2.resp.code == 200)
  {
    var o1 := AcceptContinue(t, a, snapshot, now1);
    if o1.resp.code == 200 {
      var id := snapshot.value.id;
      Repo.NeverAvailableAgain(o1.after, mid, id);
    }
  }

  /** Two ngo users read the same available listing and resume one after the
      other before it expires: the first wins, the second is told the accept
      failed, the listing keeps the first acceptor, and exactly one
      `listing_accepted` message is broadcast. */
  lemma TwoAcceptorsOneWinner(t: Repo.Tables, first: User, second: User, id: int, now1: int, now2: int)
    requires Repo.Valid(t) && id in t.listings && t.listings[id].status == Available
    requires now1 <= t.listings[id].expiresAt && now2 <= t.listings[id].expiresAt
    ensures var snapshot := Repo.GetListing(t, id);
      var o1 := AcceptContinue(t, first, snapshot, now1);
      var o2 := AcceptContinue(o1.after, second, snapshot, now2);
      && o1.resp.code == 200 && o1.resp.body.listing.acceptedBy == Some(first.id)
      && o2.resp == AcceptFailed
      && o2.after.listings[id].status == Accepted
      && o2.after.listings[id].acceptedBy == Some(first.id)
      && o1.events + o2.events == [WSMessage(ListingAccepted, o1.resp.body.listing)]
  {
  }

  /** As written: a handler whose read came before a competing accept, and which
      resumes after the listing's expiry, expires the accepted listing (keeping
      its acceptor) and broadcasts `listing_expired` with the stale record. */
  lemma StaleSnapshotExpiresAcceptedListing(t: Repo.Tables, winner: User, late: User, id: int, now1: int, now2: int)
    requires Repo.Valid(t) && id in t.listings && t.listings[id].status == Available
    requires now1 <= t.listings[id].expiresAt < now2
    ensures var snapshot := Repo.GetListing(t, id);
      var o1 := AcceptContinue(t, winner, snapshot, now1);
      var o2 := AcceptContinue(o1.after, late, snapshot, now2);
      && o1.resp.code == 200
      && o2.resp == ExpiredAnswer
      && o2.after.listings[id].status == Expired
      && o2.after.listings[id].acceptedBy == Some(winner.id)
      && o1.events + o2.events
         == [WSMessage(ListingAccepted, o1.resp.body.listing), WSMessage(ListingExpired, t.listings[id])]
  {
  }

  /** The evidently intended second half: before expiring, check that the stored
      listing is still available; if it is not, answer "Listing not available".
      Everywhere else it is the handler as written. */
  function AcceptContinueRechecked(t: Repo.Tables, caller: User, snapshot: Option<Listing>, now: int)
    : (o: AcceptOutcome)
    ensures Repo.Valid(t) ==>
              forall k :: k in t.listings && t.listings[k].status != Available ==>
                k in o.after.listings && o.after.listings[k] == t.listings[k]
    ensures |o.events| <= 1
    ensures o.resp.code == 200 ==> o == AcceptContinue(t, caller, snapshot, now)
    ensures AcceptContinue(t, caller, snapshot, now).resp.code == 200 ==> o == AcceptContinue(t, caller, snapshot, now)
    ensures o != AcceptContinue(t, caller, snapshot, now) ==>
              && snapshot.Some? && snapshot.value.status == Available && snapshot.value.expiresAt < now
              && !(snapshot.value.id in t.listings && t.listings[snapshot.value.id].status == Available)
              && o == AcceptOutcome(NotAvailable, t, [])
  {
    match snapshot
    case Some(listing) =>
      if listing.status == Available && listing.expiresAt < now
         && !(listing.id in t.listings && t.listings[listing.id].status == Available)
      then AcceptOutcome(NotAvailable, t, [])
      else AcceptContinue(t, caller, snapshot, now)
    case None => AcceptContinue(t, caller, snapshot, now)
  }

  /** The correction changes nothing when the read is current. */
  lemma RecheckedAgreesOnFreshSnapshot(t: Repo.Tables, caller: User, id: int, now: int)
    requires Repo.Valid(t)
    ensures AcceptContinueRechecked(t, caller, Repo.GetListing(t, id), now)
            == AcceptContinue(t, caller, Repo.GetListing(t, id), now)
  {
  }

  /** With the correction, the late handler of StaleSnapshotExpiresAcceptedListing
      leaves the accepted listing alone and broadcasts nothing. */
  lemma RecheckedStaleSnapshot(t: Repo.Tables, winner: User, late: User, id: int, now1: int, now2: int)
    requires Repo.Valid(t) && id in t.listings && t.listings[id].status == Available
    requires now1 <= t.listings[id].expiresAt < now2
    ensures var snapshot := Repo.GetListing(t, id);
      var o1 := AcceptContinueRechecked(t, winner, snapshot, now1);
      var o2 := AcceptContinueRechecked(o1.after, late, snapshot, now2);
      && o1.resp.code == 200
      && o2.resp == NotAvailable
      && o2.after == o1.after
      && o2.after.listings[id].status == Accepted
      && o2.events == []
  {
  }

  /** GET /api/listings/my-donations: a helper's own listings. */
  method GetMyDonations(store: MemStorage, session: Option<User>) returns (resp: Response)
    requires store.Valid()
    ensures session.None? ==> resp == Unauthorized
    ensures session.Some? && session.value.role != Helper ==> resp == Forbidden
    ensures session.Some? && session.value.role == Helper ==>
              resp == Response(200, Records(Repo.ListingsByUser(store.State(), session.value.id)))
  {
    if session.None? {
      return Unauthorized;
    }
    if session.value.role != Helper {
      return Forbidden;
    }
    var listings := store.GetListingsByUser(session.value.id);
    resp := Response(200, Records(listings));
  }

  /** GET /api/listings/accepted: the listings an ngo has accepted. */
  method GetAccepted(store: MemStorage, session: Option<User>) returns (resp: Response)
    requires store.Valid()
    ensures session.None? ==> resp == Unauthorized
    ensures session.Some? && session.value.role != Ngo ==> resp == Forbidden
    ensures session.Some? && session.value.role == Ngo ==>
              resp == Response(200, Records(Repo.AcceptedListings(store.State(), session.value.id)))
  {
    if session.None? {
      return Unauthorized;
    }
    if session.value.role != Ngo {
      return Forbidden;
    }
    var listings := store.GetAcceptedListings(session.value.id);
    resp := Response(200, Records(listings));
  }
}
