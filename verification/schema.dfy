/** The four tables of the platform (`users`, `guides`, `bookings`,
    `guide_uploads`) as an in-memory store, the session a request carries,
    the outcome of a request, and the invariant every request preserves.

    Rows are kept in insertion order and every table has an auto-increment
    id counter, so "newest first" (`ORDER BY created_at DESC`) is
    reverse insertion order. */
module Schema {
  import opened Results
  import opened Seqs

  /** The `user_type` column. */
  datatype Role = Tourist | Guide | Admin

  /** Amounts of money in hundredths (the `DECIMAL(10,2)` price column). */
  type Money = int

  /** A row of `users`. The password is the plaintext the application stores. */
  datatype User = User(id: nat, username: string, password: string, role: Role,
                       fullName: string, phone: string, email: string)

  /** A row of `guides`: the profile extending a guide's user row. */
  datatype GuideProfile = GuideProfile(id: nat, userId: nat, specialization: string,
                                       experienceYears: int, languages: string,
                                       location: string, pricePerDay: Money,
                                       availability: string)

  /** The trip details a tourist submits with a booking; the arrival date is
      a day ordinal (see module Dates). */
  datatype Trip = Trip(touristName: string, phone: string, email: string, nativePlace: string,
                       arrivalDate: int, daysToStay: int, groupSize: int, tourType: string,
                       specificPlaces: string, accommodation: string, transport: string,
                       dietaryPreference: string, fitnessLevel: string,
                       additionalRequirements: string)

  /** A row of `bookings`. */
  datatype Booking = Booking(id: nat, touristId: nat, guideId: nat, trip: Trip,
                             departureDate: int, status: string)

  /** A row of `guide_uploads`; `imagePath` is empty when there is no image. */
  datatype Content = Content(id: nat, guideId: nat, uploadType: string, title: string,
                             description: string, imagePath: string, location: string)

  datatype Store = Store(users: seq<User>, guides: seq<GuideProfile>,
                         bookings: seq<Booking>, uploads: seq<Content>,
                         nextUserId: nat, nextGuideId: nat,
                         nextBookingId: nat, nextUploadId: nat)

  /** A fresh database: empty tables, every counter at 1. */
  const EmptyStore: Store := Store([], [], [], [], 1, 1, 1, 1)

  /** What a successful login stores in the session. */
  datatype Identity = Identity(userId: nat, username: string, role: Role, fullName: string)

  /** No session, or a logged-in one. */
  type Session = Option<Identity>

  /** The ways a request can be refused. */
  datatype Error =
    | LoginRequired        // no user in the session
    | WrongRole            // the session's role is not the page's role
    | AdminRegistration    // registration asked for the admin role
    | InvalidUserType      // registration asked for a role that does not exist
    | DuplicateUsername
    | InvalidCredentials
    | InvalidGuide         // a booking names a user who is not a guide
    | DateOutOfRange       // the departure date falls outside Python's date range
    | AccessDenied         // the booking does not belong to the acting guide
    | NotFoundOrDenied     // the content item is missing or not the acting guide's
    | MissingFields        // an edit left a required field empty
    | NotFound

  datatype Outcome = Success | Failure(error: Error)

  /** The store after a request and how the request ended. */
  datatype Reply = Reply(store: Store, outcome: Outcome)

  function UserKey(u: User): int { u.id }
  function GuideKey(g: GuideProfile): int { g.id }
  function BookingKey(b: Booking): int { b.id }
  function ContentKey(c: Content): int { c.id }

  predicate UsernameTaken(s: Store, username: string)
  {
    exists u :: u in s.users && u.username == username
  }

  predicate UserExists(s: Store, id: nat)
  {
    exists u :: u in s.users && u.id == id
  }

  /** `SELECT id FROM users WHERE id = ? AND user_type = 'guide'` finds a row. */
  predicate IsGuideUser(s: Store, id: nat)
  {
    exists u :: u in s.users && u.id == id && u.role == Guide
  }

  predicate HasProfile(s: Store, userId: nat)
  {
    exists g :: g in s.guides && g.userId == userId
  }

  predicate UniqueUsernames(users: seq<User>)
  {
    forall i, j :: 0 <= i < j < |users| ==> users[i].username != users[j].username
  }

  predicate OneProfilePerUser(guides: seq<GuideProfile>)
  {
    forall i, j :: 0 <= i < j < |guides| ==> guides[i].userId != guides[j].userId
  }

  /** The store invariant: ids ascend in insertion order and stay below
      their counters, usernames are unique across all roles, and each user
      id has at most one profile, never one for an id not yet issued. */
  predicate Valid(s: Store)
  {
    && Ascending(s.users, UserKey) && Below(s.users, UserKey, s.nextUserId)
    && Ascending(s.guides, GuideKey) && Below(s.guides, GuideKey, s.nextGuideId)
    && Ascending(s.bookings, BookingKey) && Below(s.bookings, BookingKey, s.nextBookingId)
    && Ascending(s.uploads, ContentKey) && Below(s.uploads, ContentKey, s.nextUploadId)
    && UniqueUsernames(s.users)
    && OneProfilePerUser(s.guides)
    && (forall g :: g in s.guides ==> g.userId < s.nextUserId)
  }

  /** A session can only name a user id the store has already issued. */
  predicate SessionOk(s: Store, session: Session)
  {
    session.Some? ==> session.value.userId < s.nextUserId
  }

  /** The user with this id, if any (a join on `users.id`). */
  function FindUserById(users: seq<User>, id: nat): Option<User>
  {
    FindFirst(users, (u: User) => u.id == id)
  }

  /** With ids ascending, the join finds the one user carrying that id. */
  lemma FindUserByIdUnique(users: seq<User>, u: User)
    requires Ascending(users, UserKey) && u in users
    ensures FindUserById(users, u.id) == Some(u)
  {
    forall v | v in users && v.id == u.id
      ensures v == u
    {
      var i :| 0 <= i < |users| && users[i] == v;
      var j :| 0 <= j < |users| && users[j] == u;
      assert UserKey(users[i]) == UserKey(users[j]);
    }
    FindFirstUnique(users, (v: User) => v.id == u.id, u);
  }

  lemma EmptyStoreValid()
    ensures Valid(EmptyStore)
  {
  }
}
