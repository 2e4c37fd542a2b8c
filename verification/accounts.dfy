/** The account service: the three registration routes (`/register`,
    `/register/tourist`, `/register/guide`). Admin accounts are never
    created here. */
module Accounts {
  import opened Results
  import opened Schema
  import opened Profiles

  /** The fields every registration form carries. */
  datatype AccountForm = AccountForm(username: string, password: string, fullName: string,
                                     phone: string, email: string)

  /** The profile `/register` gives a new guide. */
  const RegisterProfileDefaults: ProfileFields :=
    ProfileFields("General Tourism", 1, "Hindi, English", "Ranchi District", 200000)

  /** The guide-only fields of `/register/guide`; a missing field is `None`. */
  datatype GuideSignupForm = GuideSignupForm(specialization: Option<string>, experienceYears: Option<int>,
                                             languages: Option<string>, pricePerDay: Option<Money>,
                                             location: Option<string>)

  /** The profile `/register/guide` gives a new guide: the form's values, or
      this route's defaults for missing fields (note the third language). */
  function SignupFields(g: GuideSignupForm): ProfileFields
  {
    ProfileFields(g.specialization.GetOr("General Tourism"), g.experienceYears.GetOr(1),
                  g.languages.GetOr("Hindi, English, Santali"), g.location.GetOr("Ranchi District"),
                  g.pricePerDay.GetOr(200000))
  }

  /** The user row a registration inserts. */
  function NewUser(s: Store, role: Role, f: AccountForm): User
  {
    User(s.nextUserId, f.username, f.password, role, f.fullName, f.phone, f.email)
  }

  /** The shared body of the registration routes: refuse a username taken
      under any role; otherwise insert the user and, when `profile` is given,
      that user's guide profile. Bookings and uploads never change. */
  function CreateAccount(s: Store, role: Role, f: AccountForm, profile: Option<ProfileFields>): (r: Reply)
    ensures UsernameTaken(s, f.username) ==> r == Reply(s, Failure(DuplicateUsername))
    ensures !UsernameTaken(s, f.username) ==>
      && r.outcome == Success
      && r.store.users == s.users + [NewUser(s, role, f)]
      && r.store.nextUserId == s.nextUserId + 1
      && r.store.bookings == s.bookings && r.store.uploads == s.uploads
      && r.store.nextBookingId == s.nextBookingId && r.store.nextUploadId == s.nextUploadId
      && (profile.None? ==> r.store.guides == s.guides && r.store.nextGuideId == s.nextGuideId)
      && (profile.Some? ==>
            && r.store.guides == s.guides + [NewProfile(s.nextGuideId, s.nextUserId, profile.value)]
            && r.store.nextGuideId == s.nextGuideId + 1)
  {
    if UsernameTaken(s, f.username) then Reply(s, Failure(DuplicateUsername))
    else
      var uid := s.nextUserId;
      var s1 := s.(users := s.users + [NewUser(s, role, f)], nextUserId := uid + 1);
      match profile
      case None => Reply(s1, Success)
      case Some(p) =>
        Reply(s1.(guides := s1.guides + [NewProfile(s1.nextGuideId, uid, p)],
                  nextGuideId := s1.nextGuideId + 1), Success)
  }

  /** `/register`: the role comes from the form. `admin` and any role other
      than tourist or guide are refused with the store unchanged; a taken
      username is refused; a new guide gets the fixed default profile. */
  function Register(s: Store, userType: string, f: AccountForm): (r: Reply)
    ensures userType == "admin" ==> r == Reply(s, Failure(AdminRegistration))
    ensures userType != "admin" && userType != "tourist" && userType != "guide" ==>
      r == Reply(s, Failure(InvalidUserType))
    ensures r.outcome.Success? <==>
      (userType == "tourist" || userType == "guide") && !UsernameTaken(s, f.username)
    ensures (userType == "tourist" || userType == "guide") && UsernameTaken(s, f.username) ==>
      r == Reply(s, Failure(DuplicateUsername))
    ensures r.outcome.Failure? ==> r.store == s
    ensures r.outcome.Success? ==>
      && r.store.users == s.users + [NewUser(s, if userType == "tourist" then Tourist else Guide, f)]
      && r.store.nextUserId == s.nextUserId + 1
      && r.store.bookings == s.bookings && r.store.uploads == s.uploads
      && r.store.nextBookingId == s.nextBookingId && r.store.nextUploadId == s.nextUploadId
    ensures r.outcome.Success? && userType == "tourist" ==>
      r.store.guides == s.guides && r.store.nextGuideId == s.nextGuideId
    ensures r.outcome.Success? && userType == "guide" ==>
      && r.store.guides == s.guides + [NewProfile(s.nextGuideId, s.nextUserId, RegisterProfileDefaults)]
      && r.store.nextGuideId == s.nextGuideId + 1
      && (var g := r.store.guides[|s.guides|];
          g.userId == s.nextUserId && g.specialization == "General Tourism"
          && g.experienceYears == 1 && g.languages == "Hindi, English"
          && g.location == "Ranchi District" && g.pricePerDay == 200000
          && g.availability == "available")
  {
    if userType == "admin" then Reply(s, Failure(AdminRegistration))
    else if userType == "tourist" then CreateAccount(s, Tourist, f, None)
    else if userType == "guide" then CreateAccount(s, Guide, f, Some(RegisterProfileDefaults))
    else Reply(s, Failure(InvalidUserType))
  }

  /** `/register/tourist`: a tourist account, unless the username is taken. */
  function RegisterTourist(s: Store, f: AccountForm): (r: Reply)
    ensures r.outcome.Success? <==> !UsernameTaken(s, f.username)
    ensures r.outcome.Failure? ==> r == Reply(s, Failure(DuplicateUsername))
    ensures r.outcome.Success? ==>
      r.store == s.(users := s.users + [User(s.nextUserId, f.username, f.password, Tourist,
                                             f.fullName, f.phone, f.email)],
                    nextUserId := s.nextUserId + 1)
  {
    CreateAccount(s, Tourist, f, None)
  }

  /** `/register/guide`: a guide account plus its profile, built from the
      form's guide fields or this route's defaults, starting `available`. */
  function RegisterGuide(s: Store, f: AccountForm, g: GuideSignupForm): (r: Reply)
    ensures r.outcome.Success? <==> !UsernameTaken(s, f.username)
    ensures r.outcome.Failure? ==> r == Reply(s, Failure(DuplicateUsername))
    ensures r.outcome.Success? ==>
      && r.store.users == s.users + [User(s.nextUserId, f.username, f.password, Guide,
                                          f.fullName, f.phone, f.email)]
      && |r.store.guides| == |s.guides| + 1
      && r.store.guides[..|s.guides|] == s.guides
      && (var p := r.store.guides[|s.guides|];
          p.userId == s.nextUserId && p.availability == "available"
          && p.specialization == g.specialization.GetOr("General Tourism")
          && p.experienceYears == g.experienceYears.GetOr(1)
          && p.languages == g.languages.GetOr("Hindi, English, Santali")
          && p.location == g.location.GetOr("Ranchi District")
          && p.pricePerDay == g.pricePerDay.GetOr(200000))
      && r.store.bookings == s.bookings && r.store.uploads == s.uploads
    ensures r.outcome.Success? ==>
      r.store == s.(users := s.users + [NewUser(s, Guide, f)], nextUserId := s.nextUserId + 1,
                    guides := s.guides + [NewProfile(s.nextGuideId, s.nextUserId, SignupFields(g))],
                    nextGuideId := s.nextGuideId + 1)
  {
    CreateAccount(s, Guide, f, Some(SignupFields(g)))
  }

  /** A successful registration keeps usernames unique across all roles. */
  lemma CreateAccountKeepsUsernamesUnique(s: Store, role: Role, f: AccountForm, profile: Option<ProfileFields>)
    requires UniqueUsernames(s.users)
    ensures UniqueUsernames(CreateAccount(s, role, f, profile).store.users)
  {
    var t := CreateAccount(s, role, f, profile).store;
    if !UsernameTaken(s, f.username) {
      forall i | 0 <= i < |s.users|
        ensures t.users[i].username != f.username
      {
        assert s.users[i] in s.users;
      }
    }
  }
}
