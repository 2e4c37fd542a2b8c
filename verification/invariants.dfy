/** The store invariant `Valid` (ascending ids below their counters, unique
    usernames, at most one profile per user) holds after every route, and so
    along any sequence of requests one client makes. */
module Invariants {
  import opened Results
  import opened Seqs
  import opened Schema
  import opened Auth
  import opened Uploads
  import opened Profiles
  import opened Accounts
  import opened Bookings
  import opened ContentService
  import opened Admin

  lemma CreateAccountPreservesValid(s: Store, role: Role, f: AccountForm, profile: Option<ProfileFields>)
    requires Valid(s)
    ensures Valid(CreateAccount(s, role, f, profile).store)
  {
    var t := CreateAccount(s, role, f, profile).store;
    if !UsernameTaken(s, f.username) {
      CreateAccountKeepsUsernamesUnique(s, role, f, profile);
      AppendAscending(s.users, UserKey, NewUser(s, role, f), s.nextUserId);
      if profile.Some? {
        var g := NewProfile(s.nextGuideId, s.nextUserId, profile.value);
        AppendAscending(s.guides, GuideKey, g, s.nextGuideId);
        forall i | 0 <= i < |s.guides|
          ensures s.guides[i].userId != g.userId
        {
          assert s.guides[i] in s.guides;
        }
      }
    }
  }

  /** `/register` preserves the invariant; in particular usernames stay unique. */
  lemma RegisterPreservesValid(s: Store, userType: string, f: AccountForm)
    requires Valid(s)
    ensures Valid(Register(s, userType, f).store)
    ensures UniqueUsernames(Register(s, userType, f).store.users)
  {
    if userType == "tourist" {
      CreateAccountPreservesValid(s, Tourist, f, None);
    } else if userType == "guide" {
      CreateAccountPreservesValid(s, Guide, f, Some(RegisterProfileDefaults));
    }
  }

  lemma RegisterTouristPreservesValid(s: Store, f: AccountForm)
    requires Valid(s)
    ensures Valid(RegisterTourist(s, f).store)
  {
    CreateAccountPreservesValid(s, Tourist, f, None);
  }

  lemma RegisterGuidePreservesValid(s: Store, f: AccountForm, g: GuideSignupForm)
    requires Valid(s)
    ensures Valid(RegisterGuide(s, f, g).store)
  {
    CreateAccountPreservesValid(s, Guide, f, Some(SignupFields(g)));
  }

  lemma BookGuidePreservesValid(s: Store, session: Session, q: BookingRequest)
    requires Valid(s)
    ensures Valid(BookGuide(s, session, q).store)
  {
    var r := BookGuide(s, session, q);
    if r.outcome.Success? {
      AppendAscending(s.bookings, BookingKey, r.store.bookings[|s.bookings|], s.nextBookingId);
      assert r.store.bookings == s.bookings + [r.store.bookings[|s.bookings|]];
    }
  }

  lemma UpdateBookingStatusPreservesValid(s: Store, session: Session, bookingId: nat, status: string)
    requires Valid(s)
    ensures Valid(UpdateBookingStatus(s, session, bookingId, status).store)
  {
    var t := UpdateBookingStatus(s, session, bookingId, status).store;
    SameKeysAscending(s.bookings, t.bookings, BookingKey, s.nextBookingId);
  }

  /** The profile upsert keeps one profile per user, given a session issued
      by this store. */
  lemma UpdateGuideProfilePreservesValid(s: Store, session: Session, form: ProfileForm)
    requires Valid(s) && SessionOk(s, session)
    ensures Valid(UpdateGuideProfile(s, session, form).store)
  {
    var t := UpdateGuideProfile(s, session, form).store;
    if Guard(session, Guide).Ok? {
      var uid := session.value.userId;
      if HasProfile(s, uid) {
        SameKeysAscending(s.guides, t.guides, GuideKey, s.nextGuideId);
      } else {
        var g := NewProfile(s.nextGuideId, uid, FieldsOf(form));
        AppendAscending(s.guides, GuideKey, g, s.nextGuideId);
        forall i | 0 <= i < |s.guides|
          ensures s.guides[i].userId != uid
        {
          assert s.guides[i] in s.guides;
        }
      }
    }
  }

  lemma UploadContentPreservesValid(s: Store, session: Session, f: UploadForm, image: Option<ImageUpload>, stamp: string)
    requires Valid(s)
    ensures Valid(UploadContent(s, session, f, image, stamp).store)
  {
    var r := UploadContent(s, session, f, image, stamp);
    if r.outcome.Success? {
      AppendAscending(s.uploads, ContentKey, r.store.uploads[|s.uploads|], s.nextUploadId);
      assert r.store.uploads == s.uploads + [r.store.uploads[|s.uploads|]];
    }
  }

  lemma EditContentPreservesValid(s: Store, session: Session, contentId: nat, f: EditForm,
                                  image: Option<ImageUpload>, stamp: string)
    requires Valid(s)
    ensures Valid(EditContent(s, session, contentId, f, image, stamp).store)
  {
    var t := EditContent(s, session, contentId, f, image, stamp).store;
    SameKeysAscending(s.uploads, t.uploads, ContentKey, s.nextUploadId);
  }

  lemma DeleteContentPreservesValid(s: Store, session: Session, contentId: nat)
    requires Valid(s)
    ensures Valid(DeleteContent(s, session, contentId).store)
  {
    if Guard(session, Guide).Ok? {
      var uid := session.value.userId;
      var p := (c: Content) => !(c.id == contentId && c.guideId == uid);
      FilterAscending(s.uploads, p, ContentKey);
      FilterBelow(s.uploads, p, ContentKey, s.nextUploadId);
    }
  }

  lemma DeleteUserPreservesValid(s: Store, session: Session, userId: nat)
    requires Valid(s)
    ensures Valid(DeleteUser(s, session, userId).store)
  {
    var p := (u: User) => u.id != userId;
    FilterAscending(s.users, p, UserKey);
    FilterBelow(s.users, p, UserKey, s.nextUserId);
    FilterKeepsUsernamesUnique(s.users, p);
  }

  /** The requests one client can send that read or change state. */
  datatype Request =
    | RegisterRequest(userType: string, form: AccountForm)
    | RegisterTouristRequest(form: AccountForm)
    | RegisterGuideRequest(form: AccountForm, guide: GuideSignupForm)
    | LoginTouristRequest(username: string, password: string)
    | LoginGuideRequest(username: string, password: string)
    | LogoutRequest
    | BookGuideRequest(booking: BookingRequest)
    | UpdateProfileRequest(profile: ProfileForm)
    | UpdateStatusRequest(bookingId: nat, status: string)
    | UploadRequest(upload: UploadForm, image: Option<ImageUpload>, stamp: string)
    | EditRequest(contentId: nat, edit: EditForm, image: Option<ImageUpload>, stamp: string)
    | DeleteContentRequest(contentId: nat)
    | DeleteUserRequest(userId: nat)

  /** The shared store and the session cookie of one client. */
  datatype Client = Client(store: Store, session: Session)

  /** One request: the route's transition on the store; logins replace the
      session on success and `/logout` clears it. */
  function Step(c: Client, q: Request): Client
  {
    var s := c.store;
    match q
    case RegisterRequest(t, f) => c.(store := Register(s, t, f).store)
    case RegisterTouristRequest(f) => c.(store := RegisterTourist(s, f).store)
    case RegisterGuideRequest(f, g) => c.(store := RegisterGuide(s, f, g).store)
    case LoginTouristRequest(u, p) => c.(session := Login(s, c.session, Tourist, u, p).session)
    case LoginGuideRequest(u, p) => c.(session := Login(s, c.session, Guide, u, p).session)
    case LogoutRequest => c.(session := None)
    case BookGuideRequest(b) => c.(store := BookGuide(s, c.session, b).store)
    case UpdateProfileRequest(f) => c.(store := UpdateGuideProfile(s, c.session, f).store)
    case UpdateStatusRequest(id, st) => c.(store := UpdateBookingStatus(s, c.session, id, st).store)
    case UploadRequest(f, img, stamp) => c.(store := UploadContent(s, c.session, f, img, stamp).store)
    case EditRequest(id, f, img, stamp) => c.(store := EditContent(s, c.session, id, f, img, stamp).store)
    case DeleteContentRequest(id) => c.(store := DeleteContent(s, c.session, id).store)
    case DeleteUserRequest(id) => c.(store := DeleteUser(s, c.session, id).store)
  }

  /** Every request keeps the store valid and the session one the store issued. */
  lemma StepPreservesValid(c: Client, q: Request)
    requires Valid(c.store) && SessionOk(c.store, c.session)
    ensures Valid(Step(c, q).store) && SessionOk(Step(c, q).store, Step(c, q).session)
  {
    var s := c.store;
    match q
    case RegisterRequest(t, f) => RegisterPreservesValid(s, t, f);
    case RegisterTouristRequest(f) => RegisterTouristPreservesValid(s, f);
    case RegisterGuideRequest(f, g) => RegisterGuidePreservesValid(s, f, g);
    case LoginTouristRequest(u, p) => LoginSessionOk(s, c.session, Tourist, u, p);
    case LoginGuideRequest(u, p) => LoginSessionOk(s, c.session, Guide, u, p);
    case LogoutRequest =>
    case BookGuideRequest(b) => BookGuidePreservesValid(s, c.session, b);
    case UpdateProfileRequest(f) => UpdateGuideProfilePreservesValid(s, c.session, f);
    case UpdateStatusRequest(id, st) => UpdateBookingStatusPreservesValid(s, c.session, id, st);
    case UploadRequest(f, img, stamp) => UploadContentPreservesValid(s, c.session, f, img, stamp);
    case EditRequest(id, f, img, stamp) => EditContentPreservesValid(s, c.session, id, f, img, stamp);
    case DeleteContentRequest(id) => DeleteContentPreservesValid(s, c.session, id);
    case DeleteUserRequest(id) => DeleteUserPreservesValid(s, c.session, id);
  }

  /** The client after a sequence of requests, in order. */
  function Run(c: Client, qs: seq<Request>): Client
    decreases |qs|
  {
    if |qs| == 0 then c else Run(Step(c, qs[0]), qs[1..])
  }

  /** From a valid store, every sequence of requests leaves a valid store:
      usernames stay unique and each user keeps at most one profile. */
  lemma {:induction false} RunPreservesValid(c: Client, qs: seq<Request>)
    requires Valid(c.store) && SessionOk(c.store, c.session)
    ensures Valid(Run(c, qs).store) && SessionOk(Run(c, qs).store, Run(c, qs).session)
    decreases |qs|
  {
    if |qs| > 0 {
      StepPreservesValid(c, qs[0]);
      RunPreservesValid(Step(c, qs[0]), qs[1..]);
    }
  }

  /** A fresh platform, driven by any requests, never holds two users with
      the same username. */
  lemma UsernamesUniqueFromEmpty(qs: seq<Request>)
    ensures UniqueUsernames(Run(Client(EmptyStore, None), qs).store.users)
  {
    EmptyStoreValid();
    RunPreservesValid(Client(EmptyStore, None), qs);
  }
}
