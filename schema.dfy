/** Record shapes and enumerations of the `users` and `listings` tables
    (shared/schema.ts). Timestamps are integer milliseconds. */
module Schema {

  /** A nullable column, or a lookup that may find nothing. */
  datatype Option<T> = None | Some(value: T)

  /** The `status` column: text restricted to three values. */
  datatype Status = Available | Accepted | Expired

  /** The `role` column: text restricted to two values. */
  datatype Role = Helper | Ngo

  function StatusText(s: Status): string
  {
    match s
    case Available => "available"
    case Accepted => "accepted"
    case Expired => "expired"
  }

  /** Reads a `status` column value; only the three enumerated texts are accepted. */
  function ParseStatus(text: string): (r: Option<Status>)
    ensures r.Some? <==> text == "available" || text == "accepted" || text == "expired"
    ensures r.Some? ==> StatusText(r.value) == text
  {
    if text == "available" then Some(Available)
    else if text == "accepted" then Some(Accepted)
    else if text == "expired" then Some(Expired)
    else None
  }

  lemma StatusTextRoundTrip(s: Status)
    ensures ParseStatus(StatusText(s)) == Some(s)
  {
  }

  function RoleText(r: Role): string
  {
    match r
    case Helper => "helper"
    case Ngo => "ngo"
  }

  /** Reads a `role` column value; only the two enumerated texts are accepted. */
  function ParseRole(text: string): (r: Option<Role>)
    ensures r.Some? <==> text == "helper" || text == "ngo"
    ensures r.Some? ==> RoleText(r.value) == text
  {
    if text == "helper" then Some(Helper)
    else if text == "ngo" then Some(Ngo)
    else None
  }

  lemma RoleTextRoundTrip(r: Role)
    ensures ParseRole(RoleText(r)) == Some(r)
  {
  }

  /** A row of `users`. */
  datatype User = User(id: int, username: string, password: string, role: Role, name: string)

  /** The fields `insertUserSchema` lets a caller supply. */
  datatype UserInput = UserInput(username: string, password: string, role: Role, name: string)

  /** The fields `insertListingSchema` lets a caller supply; everything else is
      assigned by the server. */
  datatype ListingInput = ListingInput(
    title: string, description: string, quantity: string,
    locality: string, city: string, state: string, pincode: string)

  /** A row of `listings`. `acceptedBy` and `acceptedAt` are the only nullable
      columns, so they are the only ones wrapped in Option. */
  datatype Listing = Listing(
    id: int,
    title: string, description: string, quantity: string,
    locality: string, city: string, state: string, pincode: string,
    createdBy: int,
    createdAt: int,
    expiresAt: int,
    status: Status,
    acceptedBy: Option<int>,
    acceptedAt: Option<int>)

  /** The caller-supplied part of a listing (the `pick` of `insertListingSchema`). */
  function InputOf(l: Listing): ListingInput
  {
    ListingInput(l.title, l.description, l.quantity, l.locality, l.city, l.state, l.pincode)
  }

  /** The caller-supplied part of a user (the `pick` of `insertUserSchema`). */
  function UserInputOf(u: User): UserInput
  {
    UserInput(u.username, u.password, u.role, u.name)
  }

  /** The `unique()` constraint declared on `users.username`. The in-memory
      store does not enforce it (see Repo.CreateUser). */
  ghost predicate UsernamesUnique(users: map<int, User>)
  {
    forall i, j :: i in users && j in users && i != j ==> users[i].username != users[j].username
  }
}
