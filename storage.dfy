/** `MemStorage` (server/storage.ts): the in-memory repository. Its two maps and
    two id counters are fields that the mutating methods update in place; each
    method's new state is the matching Repo function of the old one, and the
    read-only getters are functions over the current state. The session store
    is not part of this model. */
module Storage {
  import opened Schema
  import Repo

  class MemStorage {
    var users: map<int, User>
    var listings: map<int, Listing>
    var currentUserId: int
    var currentListingId: int

    /** The four fields as one value. */
    function State(): Repo.Tables
      reads this
    {
      Repo.Tables(users, listings, currentUserId, currentListingId)
    }

    ghost predicate Valid()
      reads this
    {
      Repo.Valid(State())
    }

    constructor ()
      ensures Valid()
      ensures State() == Repo.Empty()
    {
      users := map[];
      listings := map[];
      currentUserId := 1;
      currentListingId := 1;
    }

    /** `getUser`: the stored user with that id, if any. */
    function GetUser(id: int): (r: Option<User>)
      reads this
      ensures r.Some? <==> id in users
      ensures r.Some? ==> r.value == users[id]
    {
      Repo.GetUser(State(), id)
    }

    /** `getUserByUsername`: the first-created user with that name, if any. */
    function GetUserByUsername(username: string): (r: Option<User>)
      reads this
      requires Valid()
      ensures r.None? <==> forall k :: k in users ==> users[k].username != username
      ensures r.Some? ==> r.value.username == username && r.value.id in users && users[r.value.id] == r.value
      ensures r.Some? ==> forall k :: k in users && users[k].username == username ==> r.value.id <= k
    {
      Repo.GetUserByUsername(State(), username)
    }

    method CreateUser(input: UserInput) returns (user: User)
      requires Valid()
      modifies this
      ensures Valid()
      ensures user.id == old(currentUserId) && UserInputOf(user) == input
      ensures (State(), user) == Repo.CreateUser(old(State()), input)
    {
      var id := currentUserId;
      currentUserId := currentUserId + 1;
      user := User(id, input.username, input.password, input.role, input.name);
      users := users[id := user];
    }

    method CreateListing(input: ListingInput, createdBy: int, now: int) returns (listing: Listing)
      requires Valid()
      modifies this
      ensures Valid()
      ensures listing.id == old(currentListingId) && listing.id !in old(listings)
      ensures listing.status == Available && listing.createdBy == createdBy && InputOf(listing) == input
      ensures (State(), listing) == Repo.CreateListing(old(State()), input, createdBy, now)
    {
      var id := currentListingId;
      currentListingId := currentListingId + 1;
      listing := Repo.NewListing(id, input, createdBy, now);
      listings := listings[id := listing];
    }

    /** `getListing`: the stored listing with that id, if any. */
    function GetListing(id: int): (r: Option<Listing>)
      reads this
      ensures r.Some? <==> id in listings
      ensures r.Some? ==> r.value == listings[id]
    {
      Repo.GetListing(State(), id)
    }

    /** `getActiveListings`: the available listings that expire after `now`. */
    function GetActiveListings(now: int): (r: seq<Listing>)
      reads this
      requires Valid()
      ensures forall k :: k in listings ==> (listings[k] in r <==> Repo.IsActive(listings[k], now))
      ensures forall l :: l in r ==> l.id in listings && listings[l.id] == l
      ensures Repo.IdsIncreasing(r)
    {
      Repo.ActiveListings(State(), now)
    }

    method AcceptListing(id: int, acceptedBy: int) returns (updated: Option<Listing>)
      requires Valid()
      modifies this
      ensures Valid()
      ensures updated.Some? <==> id in old(listings) && old(listings)[id].status == Available
      ensures updated.None? ==> State() == old(State())
      ensures (State(), updated) == Repo.AcceptListing(old(State()), id, acceptedBy)
    {
      if id !in listings || listings[id].status != Available {
        return None;
      }
      var listing := listings[id];
      var u := listing.(status := Accepted, acceptedBy := Some(acceptedBy));
      listings := listings[id := u];
      updated := Some(u);
    }

    /** `updateListingStatus` types its status as the literal "expired", so it
        takes only the id. */
    method UpdateListingStatus(id: int)
      requires Valid()
      modifies this
      ensures Valid()
      ensures id in old(listings) ==> id in listings && listings[id].status == Expired
      ensures State() == Repo.UpdateListingStatus(old(State()), id)
    {
      if id in listings {
        var listing := listings[id];
        listings := listings[id := listing.(status := Expired)];
      }
    }

    /** `getListingsByUser`: the listings the user created. */
    function GetListingsByUser(userId: int): (r: seq<Listing>)
      reads this
      requires Valid()
      ensures forall k :: k in listings ==> (listings[k] in r <==> listings[k].createdBy == userId)
      ensures forall l :: l in r ==> l.id in listings && listings[l.id] == l
      ensures Repo.IdsIncreasing(r)
    {
      Repo.ListingsByUser(State(), userId)
    }

    /** `getAcceptedListings`: the listings the ngo user accepted. */
    function GetAcceptedListings(ngoId: int): (r: seq<Listing>)
      reads this
      requires Valid()
      ensures forall k :: k in listings ==> (listings[k] in r <==> listings[k].acceptedBy == Some(ngoId))
      ensures forall l :: l in r ==> l.id in listings && listings[l.id] == l
      ensures Repo.IdsIncreasing(r)
    {
      Repo.AcceptedListings(State(), ngoId)
    }
  }
}
