/** Worked request sequences on a fresh platform: registration then login,
    a guide's default profile, a booking's departure date, a guide refused
    on another guide's booking, and two image file names. */
module Scenarios {
  import opened Results
  import opened Seqs
  import opened Schema
  import opened Auth
  import opened Profiles
  import opened Accounts
  import opened Bookings
  import opened Dates
  import opened Uploads

  const Alice: AccountForm := AccountForm("alice", "pw1", "Alice", "100", "alice@example.org")
  const Bob: AccountForm := AccountForm("bob", "pw2", "Bob", "200", "bob@example.org")
  const Carol: AccountForm := AccountForm("carol", "pw3", "Carol", "300", "carol@example.org")

  /** A tourist who registers can log in with the same password, and their
      dashboard starts with no bookings. */
  lemma RegisterThenLogin()
    ensures var s := RegisterTourist(EmptyStore, Alice).store;
      && Login(s, None, Tourist, "alice", "pw1") == LoginReply(Some(Identity(1, "alice", Tourist, "Alice")), Success)
      && Login(s, None, Tourist, "alice", "pw2").outcome == Failure(InvalidCredentials)
      && Login(s, None, Guide, "alice", "pw1").outcome == Failure(InvalidCredentials)
      && TouristDashboard(s, Some(Identity(1, "alice", Tourist, "Alice"))).value.bookings == []
  {
    var s := RegisterTourist(EmptyStore, Alice).store;
    assert s.users == [User(1, "alice", "pw1", Tourist, "Alice", "100", "alice@example.org")];
  }

  /** The same username cannot be registered twice, even under another role. */
  lemma DuplicateUsernameRefused()
    ensures var s := RegisterTourist(EmptyStore, Alice).store;
      Register(s, "guide", Alice.(password := "other")) == Reply(s, Failure(DuplicateUsername))
  {
    var s := RegisterTourist(EmptyStore, Alice).store;
    assert s.users[0].username == "alice";
  }

  /** A guide registered through `/register` gets the platform's default profile. */
  lemma GuideDefaultProfile()
    ensures Register(EmptyStore, "guide", Bob).store.guides
      == [GuideProfile(1, 1, "General Tourism", 1, "Hindi, English", "Ranchi District", 200000, "available")]
  {
  }

  /** The ordinal of 2024-06-01 plus five days is the ordinal of 2024-06-06. */
  lemma FiveDaysAfterJuneFirst()
    ensures ValidDate(Date(2024, 6, 1)) && ValidDate(Date(2024, 6, 6))
    ensures Ordinal(Date(2024, 6, 1)) + 5 == Ordinal(Date(2024, 6, 6))
    ensures Ordinal(Date(2024, 6, 1)) == 739038
  {
  }

  /** Alice (user 1) books Bob (user 2, a guide) from 2024-06-01 for five
      days; the booking is pending and departs 2024-06-06. Carol, another
      guide (user 3), cannot confirm it, and it stays pending. */
  lemma BookingScenario(q: BookingRequest)
    requires q.guideId == 2 && q.arrivalDate == Ordinal(Date(2024, 6, 1)) && q.daysToStay == 5
    ensures var s0 := RegisterGuide(RegisterGuide(RegisterTourist(EmptyStore, Alice).store, Bob,
                                                  GuideSignupForm(None, None, None, None, None)).store,
                                    Carol, GuideSignupForm(None, None, None, None, None)).store;
      var r := BookGuide(s0, Some(Identity(1, "alice", Tourist, "Alice")), q);
      && r.outcome == Success
      && r.store.bookings[0].status == "pending"
      && r.store.bookings[0].departureDate == Ordinal(Date(2024, 6, 6))
      && var denied := UpdateBookingStatus(r.store, Some(Identity(3, "carol", Guide, "Carol")), 1, "confirmed");
         && denied == Reply(r.store, Failure(AccessDenied))
         && denied.store.bookings[0].status == "pending"
  {
    FiveDaysAfterJuneFirst();
    var s0 := RegisterGuide(RegisterGuide(RegisterTourist(EmptyStore, Alice).store, Bob,
                                          GuideSignupForm(None, None, None, None, None)).store,
                            Carol, GuideSignupForm(None, None, None, None, None)).store;
    assert s0.users[1] == User(2, "bob", "pw2", Guide, "Bob", "200", "bob@example.org");
    assert IsGuideUser(s0, 2);
    var r := BookGuide(s0, Some(Identity(1, "alice", Tourist, "Alice")), q);
    assert r.store.bookings == [r.store.bookings[0]];
    assert r.store.bookings[0].guideId == 2;
    assert !OwnsBooking(r.store, 1, 3);
  }

  /** The extension is compared after lower-casing. */
  lemma UpperCaseExtensionAccepted()
    ensures AllowedFile("photo.PNG")
  {
    assert LastIndexOf("photo.PNG", '.') == Some(5);
    assert Lower("PNG") == "png";
  }

  /** Only the text after the last dot counts as the extension. */
  lemma OnlyLastExtensionCounts()
    ensures !AllowedFile("image.png.exe")
  {
    assert LastIndexOf("image.png.exe", '.') == Some(9);
    assert Lower("exe") == "exe";
  }
}
