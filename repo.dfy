/** The state of `MemStorage` (server/storage.ts) as a value: the two maps and the
    two id counters, each storage operation as a function from the old state to
    the new one, and the read queries. The class in storage.dfy keeps exactly
    these four fields and its methods are specified by these functions; the
    lemmas at the end are about any sequence of storage calls, which is how
    concurrently interleaved request handlers reach the store. */
module Repo {
  import opened Schema

  /** Lifetime of a new listing: two hours, in milliseconds. */
  const ListingTtl: int := 2 * 60 * 60 * 1000

  datatype Tables = Tables(
    users: map<int, User>,
    listings: map<int, Listing>,
    currentUserId: int,
    currentListingId: int)

  /** What every listing the store holds satisfies. `acceptedAt` is never set by
      the store, and an expired listing keeps whatever `acceptedBy` it had. */
  ghost predicate WellFormed(l: Listing)
  {
    && l.expiresAt == l.createdAt + ListingTtl
    && (l.status == Available ==> l.acceptedBy == None)
    && (l.status == Accepted ==> l.acceptedBy.Some?)
    && l.acceptedAt == None
  }

  /** Ids are handed out as 1, 2, 3, ... and never removed, so the keys of each map
      are exactly the ids below its counter, and every record sits under its own id. */
  ghost predicate Valid(t: Tables)
  {
    && 1 <= t.currentUserId
    && 1 <= t.currentListingId
    && (forall i :: i in t.users <==> 1 <= i < t.currentUserId)
    && (forall i :: i in t.users ==> t.users[i].id == i)
    && (forall i :: i in t.listings <==> 1 <= i < t.currentListingId)
    && (forall i :: i in t.listings ==> t.listings[i].id == i && WellFormed(t.listings[i]))
  }

  /** The state a fresh `MemStorage` starts in. */
  function Empty(): (t: Tables)
    ensures Valid(t)
    ensures t.users == map[] && t.listings == map[]
    ensures t.currentUserId == 1 && t.currentListingId == 1
  {
    Tables(map[], map[], 1, 1)
  }

  /** Everything of a listing except `status` and `acceptedBy`, the two fields a
      storage operation may change. */
  function Immutable(l: Listing): Listing
  {
    l.(status := Available, acceptedBy := None)
  }

  // ---------------------------------------------------------------- users

  /** `createUser`: the user gets the current counter value as id, which is then
      incremented. The username is not checked for uniqueness. */
  function CreateUser(t: Tables, input: UserInput): (r: (Tables, User))
    ensures r.1.id == t.currentUserId && r.0.currentUserId == t.currentUserId + 1
    ensures UserInputOf(r.1) == input
    ensures r.0.users.Keys == t.users.Keys + {r.1.id} && r.0.users[r.1.id] == r.1
    ensures forall k :: k in t.users && k != r.1.id ==> r.0.users[k] == t.users[k]
    ensures r.0.listings == t.listings && r.0.currentListingId == t.currentListingId
    ensures Valid(t) ==> r.1.id !in t.users && Valid(r.0)
  {
    var user := User(t.currentUserId, input.username, input.password, input.role, input.name);
    (t.(users := t.users[user.id := user], currentUserId := t.currentUserId + 1), user)
  }

  /** `getUser`. */
  function GetUser(t: Tables, id: int): (r: Option<User>)
    ensures r.Some? <==> id in t.users
    ensures r.Some? ==> r.value == t.users[id]
    ensures Valid(t) && r.Some? ==> r.value.id == id
  {
    if id in t.users then Some(t.users[id]) else None
  }

  /** The values of the users map in insertion order, which is ascending id order
      because ids are inserted as 1, 2, 3, ... and never removed. */
  // UsersUpTo and ListingsUpTo have the same shape. They stay two functions
  // because each contract speaks of its record's own `id` field, which two
  // datatypes cannot share without a trait.
  function UsersUpTo(m: map<int, User>, n: int): (r: seq<User>)
    requires forall k :: k in m ==> m[k].id == k
    ensures forall u :: u in r <==> 1 <= u.id < n && u.id in m && m[u.id] == u
    ensures forall i, j :: 0 <= i < j < |r| ==> r[i].id < r[j].id
    decreases n
  {
    if n <= 1 then [] else UsersUpTo(m, n - 1) + (if n - 1 in m then [m[n - 1]] else [])
  }

  /** `Array.prototype.find` over the users: the first one with that username. */
  function FindByUsername(us: seq<User>, username: string): (r: Option<User>)
    ensures r.None? <==> forall u :: u in us ==> u.username != username
    ensures r.Some? ==> r.value in us && r.value.username == username
    ensures r.Some? && (forall i, j :: 0 <= i < j < |us| ==> us[i].id < us[j].id) ==>
              forall u :: u in us && u.username == username ==> r.value.id <= u.id
  {
    if us == [] then None
    else if us[0].username == username then Some(us[0])
    else FindByUsername(us[1..], username)
  }

  /** `getUserByUsername`: since names are not unique in the store, this is the
      earliest-created user with that name. */
  function GetUserByUsername(t: Tables, username: string): (r: Option<User>)
    requires Valid(t)
    ensures r.None? <==> forall k :: k in t.users ==> t.users[k].username != username
    ensures r.Some? ==> r.value.id in t.users && t.users[r.value.id] == r.value
    ensures r.Some? ==> r.value.username == username
    ensures r.Some? ==> forall k :: k in t.users && t.users[k].username == username ==> r.value.id <= k
  {
    var us := UsersUpTo(t.users, t.currentUserId);
    assert forall k :: k in t.users ==> t.users[k] in us;
    FindByUsername(us, username)
  }

  /** Creating a user keeps the declared uniqueness of usernames exactly when the
      name is not taken yet; the store itself does not check this. */
  lemma CreateUserUniqueness(t: Tables, input: UserInput)
    requires Valid(t) && UsernamesUnique(t.users)
    ensures UsernamesUnique(CreateUser(t, input).0.users) <==> GetUserByUsername(t, input.username).None?
  {
    var (t', u) := CreateUser(t, input);
    if GetUserByUsername(t, input.username).Some? {
      var v := GetUserByUsername(t, input.username).value;
      assert v.id != u.id && t'.users[v.id] == v && t'.users[u.id] == u;
    }
  }

  /** A later user with a taken name never shadows the earlier one. */
  lemma LookupKeepsFirstUser(t: Tables, input: UserInput, username: string)
    requires Valid(t) && GetUserByUsername(t, username).Some?
    ensures GetUserByUsername(CreateUser(t, input).0, username) == GetUserByUsername(t, username)
  {
  }

  // ------------------------------------------------------------- listings

  /** The record `createListing` builds: the caller's fields, the creator, and the
      server-assigned id, status, timestamps and null acceptor. */
  function NewListing(id: int, input: ListingInput, createdBy: int, now: int): (l: Listing)
    ensures InputOf(l) == input
    ensures l.id == id && l.createdBy == createdBy && l.createdAt == now
    ensures l.status == Available && WellFormed(l)
  {
    Listing(id, input.title, input.description, input.quantity,
            input.locality, input.city, input.state, input.pincode,
            createdBy, now, now + ListingTtl, Available, None, None)
  }

  /** `createListing` at time `now`. */
  function CreateListing(t: Tables, input: ListingInput, createdBy: int, now: int): (r: (Tables, Listing))
    ensures r.1.id == t.currentListingId && r.0.currentListingId == t.currentListingId + 1
    ensures InputOf(r.1) == input && r.1.createdBy == createdBy
    ensures r.1.status == Available && r.1.acceptedBy == None
    ensures r.1.createdAt == now && r.1.expiresAt == now + 7_200_000
    ensures r.0.listings.Keys == t.listings.Keys + {r.1.id} && r.0.listings[r.1.id] == r.1
    ensures forall k :: k in t.listings && k != r.1.id ==> r.0.listings[k] == t.listings[k]
    ensures r.0.users == t.users && r.0.currentUserId == t.currentUserId
    ensures Valid(t) ==> r.1.id !in t.listings && Valid(r.0)
  {
    var listing := NewListing(t.currentListingId, input, createdBy, now);
    (t.(listings := t.listings[listing.id := listing], currentListingId := t.currentListingId + 1), listing)
  }

  /** `getListing`. */
  function GetListing(t: Tables, id: int): (r: Option<Listing>)
    ensures r.Some? <==> id in t.listings
    ensures r.Some? ==> r.value == t.listings[id]
    ensures Valid(t) && r.Some? ==> r.value.id == id && WellFormed(r.value)
  {
    if id in t.listings then Some(t.listings[id]) else None
  }

  /** `acceptListing`: succeeds only on a stored listing that is still available,
      and then changes nothing but its status and acceptor. It does not look at
      `expiresAt` and does not set `acceptedAt`. */
  function AcceptListing(t: Tables, id: int, acceptedBy: int): (r: (Tables, Option<Listing>))
    ensures r.1.Some? <==> id in t.listings && t.listings[id].status == Available
    ensures r.1.None? ==> r.0 == t
    ensures r.1.Some? ==>
              && r.1.value.status == Accepted
              && r.1.value.acceptedBy == Some(acceptedBy)
              && Immutable(r.1.value) == Immutable(t.listings[id])
              && r.0.listings == t.listings[id := r.1.value]
    ensures r.0.users == t.users
    ensures r.0.currentUserId == t.currentUserId && r.0.currentListingId == t.currentListingId
    ensures Valid(t) ==> Valid(r.0)
  {
    if id in t.listings && t.listings[id].status == Available then
      var updated := t.listings[id].(status := Accepted, acceptedBy := Some(acceptedBy));
      (t.(listings := t.listings[id := updated]), Some(updated))
    else
      (t, None)
  }

  /** `updateListingStatus(id, "expired")`: overwrites the status of a stored
      listing whatever it was; an unknown id is ignored. */
  function UpdateListingStatus(t: Tables, id: int): (r: Tables)
    ensures id !in t.listings ==> r == t
    ensures r.listings.Keys == t.listings.Keys
    ensures id in t.listings ==>
              && r.listings[id].status == Expired
              && r.listings[id].acceptedBy == t.listings[id].acceptedBy
              && Immutable(r.listings[id]) == Immutable(t.listings[id])
    ensures forall k :: k in t.listings && k != id ==> r.listings[k] == t.listings[k]
    ensures r.users == t.users
    ensures r.currentUserId == t.currentUserId && r.currentListingId == t.currentListingId
    ensures Valid(t) ==> Valid(r)
  {
    if id in t.listings then t.(listings := t.listings[id := t.listings[id].(status := Expired)])
    else t
  }

  /** Expiring twice is the same as expiring once. */
  lemma UpdateListingStatusIdempotent(t: Tables, id: int)
    ensures UpdateListingStatus(UpdateListingStatus(t, id), id) == UpdateListingStatus(t, id)
  {
    if id in t.listings {
      var once := UpdateListingStatus(t, id);
      assert once.listings[id].(status := Expired) == once.listings[id];
    }
  }

  // -------------------------------------------------------------- queries

  ghost predicate IdsIncreasing(s: seq<Listing>)
  {
    forall i, j :: 0 <= i < j < |s| ==> s[i].id < s[j].id
  }

  /** The values of the listings map in insertion order, which is ascending id
      order: keys are inserted as 1, 2, 3, ..., never removed, and overwriting a
      key keeps its place. */
  function ListingsUpTo(m: map<int, Listing>, n: int): (r: seq<Listing>)
    requires forall k :: k in m ==> m[k].id == k
    ensures forall l :: l in r <==> 1 <= l.id < n && l.id in m && m[l.id] == l
    ensures IdsIncreasing(r)
    decreases n
  {
    if n <= 1 then [] else ListingsUpTo(m, n - 1) + (if n - 1 in m then [m[n - 1]] else [])
  }

  /** `Array.prototype.filter`: keeps order and the elements that pass. */
  function Filter(s: seq<Listing>, keep: Listing -> bool): (r: seq<Listing>)
    ensures forall l :: l in r <==> l in s && keep(l)
    ensures forall i :: 0 <= i < |r| ==> r[i] in s
    ensures IdsIncreasing(s) ==> IdsIncreasing(r)
    ensures |r| <= |s|
  {
    if s == [] then []
    else
      var rest := Filter(s[..|s| - 1], keep);
      assert forall l :: l in s <==> l in s[..|s| - 1] || l == s[|s| - 1];
      if keep(s[|s| - 1]) then rest + [s[|s| - 1]] else rest
  }

  /** Each kept element occurs in the result as often as in the input; a
      dropped one does not occur at all. */
  lemma {:induction false} FilterCounts(s: seq<Listing>, keep: Listing -> bool, l: Listing)
    ensures multiset(Filter(s, keep))[l] == (if keep(l) then multiset(s)[l] else 0)
    decreases |s|
  {
    if s != [] {
      var init, last := s[..|s| - 1], s[|s| - 1];
      assert s == init + [last];
      FilterCounts(init, keep, l);
      if keep(last) {
        assert Filter(s, keep) == Filter(init, keep) + [last];
      }
    }
  }

  /** Filtering works element by element and keeps the order of any input:
      filtering a concatenation concatenates the filtered parts. */
  lemma {:induction false} FilterConcat(a: seq<Listing>, b: seq<Listing>, keep: Listing -> bool)
    ensures Filter(a + b, keep) == Filter(a, keep) + Filter(b, keep)
    decreases |b|
  {
    if b == [] {
      assert a + b == a;
    } else {
      var b' := b[..|b| - 1];
      assert (a + b)[..|a + b| - 1] == a + b';
      assert (a + b)[|a + b| - 1] == b[|b| - 1];
      FilterConcat(a, b', keep);
    }
  }

  /** The listings in insertion order. */
  function Values(t: Tables): (r: seq<Listing>)
    requires Valid(t)
    ensures forall l :: l in r <==> l.id in t.listings && t.listings[l.id] == l
    ensures IdsIncreasing(r)
  {
    ListingsUpTo(t.listings, t.currentListingId)
  }

  /** The test of `getActiveListings`: still available and expiring strictly after now. */
  predicate IsActive(l: Listing, now: int)
  {
    l.status == Available && l.expiresAt > now
  }

  /** `getActiveListings` at time `now`, in insertion order. */
  function ActiveListings(t: Tables, now: int): (r: seq<Listing>)
    requires Valid(t)
    ensures forall k :: k in t.listings ==> (t.listings[k] in r <==> IsActive(t.listings[k], now))
    ensures forall l :: l in r ==> l.id in t.listings && t.listings[l.id] == l && IsActive(l, now)
    ensures IdsIncreasing(r)
  {
    Filter(Values(t), (l: Listing) => IsActive(l, now))
  }

  /** `getListingsByUser`: the listings a user created, in insertion order. */
  function ListingsByUser(t: Tables, userId: int): (r: seq<Listing>)
    requires Valid(t)
    ensures forall k :: k in t.listings ==> (t.listings[k] in r <==> t.listings[k].createdBy == userId)
    ensures forall l :: l in r ==> l.id in t.listings && t.listings[l.id] == l && l.createdBy == userId
    ensures IdsIncreasing(r)
  {
    Filter(Values(t), (l: Listing) => l.createdBy == userId)
  }

  /** `getAcceptedListings`: the listings a user accepted (a null acceptor never
      matches), in insertion order. */
  function AcceptedListings(t: Tables, ngoId: int): (r: seq<Listing>)
    requires Valid(t)
    ensures forall k :: k in t.listings ==> (t.listings[k] in r <==> t.listings[k].acceptedBy == Some(ngoId))
    ensures forall l :: l in r ==> l.id in t.listings && t.listings[l.id] == l && l.acceptedBy == Some(ngoId)
    ensures IdsIncreasing(r)
  {
    Filter(Values(t), (l: Listing) => l.acceptedBy == Some(ngoId))
  }

  // ------------------------------------------------- sequences of calls

  /** A call into the store. Each storage method runs to completion without
      awaiting, so whatever concurrent request handlers do, the store sees a
      sequence of these. */
  datatype Call =
    | CreateUserCall(user: UserInput)
    | CreateListingCall(input: ListingInput, createdBy: int, now: int)
    | AcceptCall(id: int, acceptedBy: int)
    | ExpireCall(id: int)

  /** One call: the new state, and the listing an accept call returned. */
  function Perform(t: Tables, c: Call): (r: (Tables, Option<Listing>))
    ensures Valid(t) ==> Valid(r.0)
    ensures r.1.Some? ==> c.AcceptCall?
  {
    match c
    case CreateUserCall(u) => (CreateUser(t, u).0, None)
    case CreateListingCall(input, creator, now) => (CreateListing(t, input, creator, now).0, None)
    case AcceptCall(id, acceptor) => AcceptListing(t, id, acceptor)
    case ExpireCall(id) => (UpdateListingStatus(t, id), None)
  }

  function Run(t: Tables, calls: seq<Call>): Tables
    decreases |calls|
  {
    if calls == [] then t else Run(Perform(t, calls[0]).0, calls[1..])
  }

  /** How many accept calls on `id` returned a listing. */
  function Wins(t: Tables, calls: seq<Call>, id: int): nat
    decreases |calls|
  {
    if calls == [] then 0
    else
      var (t', res) := Perform(t, calls[0]);
      (if calls[0].AcceptCall? && calls[0].id == id && res.Some? then 1 else 0) + Wins(t', calls[1..], id)
  }

  /** Running two call sequences one after the other is running their
      concatenation. */
  lemma {:induction false} RunAppend(t: Tables, a: seq<Call>, b: seq<Call>)
    ensures Run(t, a + b) == Run(Run(t, a), b)
    decreases |a|
  {
    if a != [] {
      assert (a + b)[0] == a[0] && (a + b)[1..] == a[1..] + b;
      RunAppend(Perform(t, a[0]).0, a[1..], b);
    } else {
      assert a + b == b;
    }
  }

  /** The wins of a concatenation are the wins of its parts, the second part
      counted from the state the first leaves. So the calls of several handlers,
      interleaved in any order with other requests, add up their wins, and
      SingleWinner bounds the total. */
  lemma {:induction false} WinsAppend(t: Tables, a: seq<Call>, b: seq<Call>, id: int)
    ensures Wins(t, a + b, id) == Wins(t, a, id) + Wins(Run(t, a), b, id)
    decreases |a|
  {
    if a != [] {
      assert (a + b)[0] == a[0] && (a + b)[1..] == a[1..] + b;
      WinsAppend(Perform(t, a[0]).0, a[1..], b, id);
    } else {
      assert a + b == b;
    }
  }

  /** One call keeps every stored listing stored with its immutable part, and a
      listing that has left `available` never returns to it and keeps its acceptor. */
  lemma PerformPreserves(t: Tables, c: Call, id: int)
    requires Valid(t) && id in t.listings
    ensures var t' := Perform(t, c).0;
      && id in t'.listings
      && Immutable(t'.listings[id]) == Immutable(t.listings[id])
      && (t.listings[id].status != Available ==>
            t'.listings[id].status != Available && t'.listings[id].acceptedBy == t.listings[id].acceptedBy)
  {
  }

  /** Status is forward-only: once a listing is accepted or expired, no sequence
      of storage calls makes it available again or changes who accepted it. */
  lemma {:induction false} NeverAvailableAgain(t: Tables, calls: seq<Call>, id: int)
    requires Valid(t) && id in t.listings && t.listings[id].status != Available
    ensures id in Run(t, calls).listings
    ensures Run(t, calls).listings[id].status != Available
    ensures Run(t, calls).listings[id].acceptedBy == t.listings[id].acceptedBy
    ensures Immutable(Run(t, calls).listings[id]) == Immutable(t.listings[id])
    decreases |calls|
  {
    if calls != [] {
      PerformPreserves(t, calls[0], id);
      NeverAvailableAgain(Perform(t, calls[0]).0, calls[1..], id);
    }
  }

  /** Single winner: in any sequence of storage calls at most one accept of a
      given listing succeeds, and none does once the listing has left `available`.
      This rests on the status re-check inside `acceptListing`, not on a lock. */
  lemma {:induction false} SingleWinner(t: Tables, calls: seq<Call>, id: int)
    requires Valid(t)
    ensures Wins(t, calls, id) <= 1
    ensures id in t.listings && t.listings[id].status != Available ==> Wins(t, calls, id) == 0
    decreases |calls|
  {
    if calls != [] {
      var (t', res) := Perform(t, calls[0]);
      SingleWinner(t', calls[1..], id);
      if id in t.listings {
        PerformPreserves(t, calls[0], id);
      }
      if calls[0].AcceptCall? && calls[0].id == id && res.Some? {
        assert id in t'.listings && t'.listings[id].status == Accepted;
      }
    }
  }
}
