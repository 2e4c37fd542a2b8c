/** The role guard every protected page goes through (`require_user_type`)
    and the two login pages. */
module Auth {
  import opened Results
  import opened Seqs
  import opened Schema

  /** `require_user_type(role)`: refuses a request with no user in the session
      (redirect to login), refuses one whose session role differs, and
      otherwise hands the acting user's id to the page. */
  function Guard(session: Session, role: Role): (r: Result<nat, Error>)
    ensures r.Ok? <==> session.Some? && session.value.role == role
    ensures r.Ok? ==> r.value == session.value.userId
    ensures session.None? ==> r == Err(LoginRequired)
    ensures session.Some? && session.value.role != role ==> r == Err(WrongRole)
  {
    match session
    case None => Err(LoginRequired)
    case Some(who) => if who.role != role then Err(WrongRole) else Ok(who.userId)
  }

  /** The account with this username and role, if any
      (`SELECT * FROM users WHERE username = ? AND user_type = ?`, `fetchone`). */
  function FindAccount(users: seq<User>, username: string, role: Role): Option<User>
  {
    FindFirst(users, (u: User) => u.username == username && u.role == role)
  }

  /** The session a successful login establishes for `u`. */
  function SessionFor(u: User): Session
  {
    Some(Identity(u.id, u.username, u.role, u.fullName))
  }

  datatype LoginReply = LoginReply(session: Session, outcome: Outcome)

  /** The POST branch of `/login/tourist` (role Tourist) and `/login/guide`
      (role Guide): the password is compared as plain text, exactly as stored.
      The store is only read. */
  function Login(s: Store, session: Session, role: Role, username: string, password: string): (r: LoginReply)
    ensures r.outcome.Success? ==>
      exists u :: u in s.users && u.username == username && u.role == role && u.password == password
               && r.session == SessionFor(u)
    ensures (forall u :: u in s.users && u.username == username ==> u.role != role) ==>
      r.outcome.Failure?
    ensures r.outcome.Failure? ==> r.session == session && r.outcome.error == InvalidCredentials
  {
    match FindAccount(s.users, username, role)
    case Some(u) =>
      if u.password == password then LoginReply(SessionFor(u), Success)
      else LoginReply(session, Failure(InvalidCredentials))
    case None => LoginReply(session, Failure(InvalidCredentials))
  }

  /** With usernames unique, a login succeeds exactly when a user with that
      username, role and password exists, and the session then holds that
      user's id, username, role and full name. */
  lemma LoginSucceedsIff(s: Store, session: Session, role: Role, username: string, password: string)
    requires UniqueUsernames(s.users)
    ensures Login(s, session, role, username, password).outcome.Success? <==>
      exists u :: u in s.users && u.username == username && u.role == role && u.password == password
    ensures forall u :: u in s.users && u.username == username && u.role == role && u.password == password ==>
      Login(s, session, role, username, password).session == SessionFor(u)
  {
    forall u | u in s.users && u.username == username && u.role == role
      ensures FindAccount(s.users, username, role) == Some(u)
    {
      forall v | v in s.users && v.username == username && v.role == role
        ensures v == u
      {
        var i :| 0 <= i < |s.users| && s.users[i] == v;
        var j :| 0 <= j < |s.users| && s.users[j] == u;
      }
      FindFirstUnique(s.users, (v: User) => v.username == username && v.role == role, u);
    }
  }

  /** A login issues a session only for a user id already in the store. */
  lemma LoginSessionOk(s: Store, session: Session, role: Role, username: string, password: string)
    requires Valid(s) && SessionOk(s, session)
    ensures SessionOk(s, Login(s, session, role, username, password).session)
  {
    var f := FindAccount(s.users, username, role);
    if f.Some? {
      var i :| 0 <= i < |s.users| && s.users[i] == f.value;
      assert UserKey(s.users[i]) < s.nextUserId;
    }
  }
}
