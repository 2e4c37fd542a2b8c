/** The admin service: the read-only dashboard and user deletion. Deleting
    a user removes only the `users` row: the user's profile, bookings and
    content stay behind, pointing at an id nobody holds any more. */
module Admin {
  import opened Results
  import opened Seqs
  import opened Schema
  import opened Auth

  /** `/delete_user/<id>` (admins only, checked inline with the same test
      as the role guard): remove the user with that id, if there is one,
      and report success either way. No other table changes. */
  function DeleteUser(s: Store, session: Session, userId: nat): (r: Reply)
    ensures Guard(session, Admin).Err? ==> r == Reply(s, Failure(Guard(session, Admin).error))
    ensures Guard(session, Admin).Ok? ==>
      && r.outcome == Success
      && r.store == s.(users := r.store.users)
      && forall u :: u in r.store.users <==> u in s.users && u.id != userId
  {
    match Guard(session, Admin)
    case Err(e) => Reply(s, Failure(e))
    case Ok(_) => Reply(s.(users := Filter(s.users, (u: User) => u.id != userId)), Success)
  }

  /** On a valid store a deletion removes at most one row: the one with
      that id, the others keeping their order. */
  lemma DeleteUserRemovesAtMostOne(s: Store, session: Session, userId: nat)
    requires Valid(s) && Guard(session, Admin).Ok?
    ensures var t := DeleteUser(s, session, userId).store;
      || (t.users == s.users && !UserExists(s, userId))
      || exists k :: 0 <= k < |s.users| && s.users[k].id == userId && t.users == s.users[..k] + s.users[k + 1..]
  {
    var p := (u: User) => u.id != userId;
    if k :| 0 <= k < |s.users| && s.users[k].id == userId {
      forall i | 0 <= i < |s.users| && i != k
        ensures p(s.users[i])
      {
        assert UserKey(s.users[i]) != UserKey(s.users[k]);
      }
      FilterRemovesOne(s.users, p, k);
    } else {
      FilterKeepsAll(s.users, p);
    }
  }

  /** Removing users keeps usernames unique. */
  lemma {:induction false} FilterKeepsUsernamesUnique(users: seq<User>, p: User -> bool)
    requires UniqueUsernames(users)
    ensures UniqueUsernames(Filter(users, p))
  {
    if |users| > 0 {
      FilterKeepsUsernamesUnique(users[1..], p);
      var rest := Filter(users[1..], p);
      forall j | 0 <= j < |rest|
        ensures users[0].username != rest[j].username
      {
        assert rest[j] in users[1..];
      }
    }
  }

  /** What the admin dashboard shows. */
  datatype AdminView = AdminView(users: seq<User>, bookings: seq<Booking>, uploads: seq<Content>)

  /** `/admin_dashboard` (admins only): every user, newest first; every
      booking whose tourist and guide both still exist (two inner joins);
      every content item whose owner still exists. */
  function AdminDashboard(s: Store, session: Session): (r: Result<AdminView, Error>)
    ensures Guard(session, Admin).Err? ==> r == Err(Guard(session, Admin).error)
    ensures Guard(session, Admin).Ok? ==> r.Ok?
    ensures r.Ok? ==>
      && (forall u :: u in r.value.users <==> u in s.users)
      && |r.value.users| == |s.users|
      && (forall b :: b in r.value.bookings <==>
            b in s.bookings && UserExists(s, b.touristId) && UserExists(s, b.guideId))
      && (forall c :: c in r.value.uploads <==> c in s.uploads && UserExists(s, c.guideId))
  {
    match Guard(session, Admin)
    case Err(e) => Err(e)
    case Ok(_) =>
      Ok(AdminView(
        Reverse(s.users),
        Reverse(Filter(s.bookings, (b: Booking) => UserExists(s, b.touristId) && UserExists(s, b.guideId))),
        Reverse(Filter(s.uploads, (c: Content) => UserExists(s, c.guideId)))))
  }

  /** On a valid store all three admin lists are newest first. */
  lemma AdminDashboardNewestFirst(s: Store, session: Session)
    requires Valid(s) && Guard(session, Admin).Ok?
    ensures Descending(AdminDashboard(s, session).value.users, UserKey)
    ensures Descending(AdminDashboard(s, session).value.bookings, BookingKey)
    ensures Descending(AdminDashboard(s, session).value.uploads, ContentKey)
  {
    var pb := (b: Booking) => UserExists(s, b.touristId) && UserExists(s, b.guideId);
    var pc := (c: Content) => UserExists(s, c.guideId);
    ReverseDescending(s.users, UserKey);
    FilterAscending(s.bookings, pb, BookingKey);
    ReverseDescending(Filter(s.bookings, pb), BookingKey);
    FilterAscending(s.uploads, pc, ContentKey);
    ReverseDescending(Filter(s.uploads, pc), ContentKey);
  }
}
