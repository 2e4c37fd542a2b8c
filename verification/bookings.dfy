/** The booking service: a tourist books a guide (`/book_guide`), a guide
    sets a booking's status (`/update_booking_status`), and each side lists
    its own bookings (the tourist and guide dashboards). */
module Bookings {
  import opened Results
  import opened Seqs
  import opened Schema
  import opened Auth
  import opened Profiles
  import opened Dates

  /** The booking form; a field the route reads with a default is `None`
      when missing. The arrival date arrives parsed to a day ordinal and the
      stay length parsed to an integer. */
  datatype BookingRequest = BookingRequest(
    guideId: nat, touristName: string, phone: string, email: Option<string>,
    nativePlace: string, arrivalDate: int, daysToStay: int, groupSize: Option<int>,
    tourType: Option<string>, specificPlaces: Option<string>, accommodation: Option<string>,
    transport: Option<string>, dietaryPreference: Option<string>, fitnessLevel: Option<string>,
    additionalRequirements: Option<string>)

  /** The trip a booking records: the form's values, empty text or a group
      of one for missing optional fields. */
  function TripOf(q: BookingRequest): Trip
  {
    Trip(q.touristName, q.phone, q.email.GetOr(""), q.nativePlace, q.arrivalDate, q.daysToStay,
         q.groupSize.GetOr(1), q.tourType.GetOr(""), q.specificPlaces.GetOr(""),
         q.accommodation.GetOr(""), q.transport.GetOr(""), q.dietaryPreference.GetOr(""),
         q.fitnessLevel.GetOr(""), q.additionalRequirements.GetOr(""))
  }

  /** The status every new booking starts in. */
  const Pending: string := "pending"

  /** `arrival + timedelta(days=days)`, or nothing when the result leaves
      the range of Python's dates (an `OverflowError`). */
  function Departure(arrival: int, days: int): (r: Option<int>)
    ensures r.Some? <==> MinOrdinal <= arrival + days <= MaxOrdinal
    ensures r.Some? ==> r.value - arrival == days
  {
    var d := arrival + days;
    if MinOrdinal <= d <= MaxOrdinal then Some(d) else None
  }

  /** For a stay of `n` days from a calendar date, the departure ordinal is
      that of the date `n` calendar days later. */
  lemma DepartureIsCalendarDate(arrival: Date, n: nat)
    requires ValidDate(arrival) && Ordinal(arrival) + n <= MaxOrdinal
    ensures Departure(Ordinal(arrival), n) == Some(Ordinal(AddDays(arrival, n)))
  {
    assert DaysBeforeYear(arrival.year) >= 0;
  }

  /** `/book_guide` (POST, tourists only): refuse a departure outside the
      date range, then refuse a guide id that is not a guide user; otherwise
      append one `pending` booking owned by the acting tourist. Nothing else
      changes, and nothing at all changes on a refusal. */
  function BookGuide(s: Store, session: Session, q: BookingRequest): (r: Reply)
    ensures Guard(session, Tourist).Err? ==> r == Reply(s, Failure(Guard(session, Tourist).error))
    ensures r.outcome.Success? <==>
      Guard(session, Tourist).Ok? && Departure(q.arrivalDate, q.daysToStay).Some? && IsGuideUser(s, q.guideId)
    ensures r.outcome.Failure? ==> r.store == s
    ensures Guard(session, Tourist).Ok? && Departure(q.arrivalDate, q.daysToStay).None? ==>
      r.outcome == Failure(DateOutOfRange)
    ensures Guard(session, Tourist).Ok? && Departure(q.arrivalDate, q.daysToStay).Some? && !IsGuideUser(s, q.guideId) ==>
      r.outcome == Failure(InvalidGuide)
    ensures r.outcome.Success? ==>
      && r.store == s.(bookings := r.store.bookings, nextBookingId := s.nextBookingId + 1)
      && |r.store.bookings| == |s.bookings| + 1
      && r.store.bookings[..|s.bookings|] == s.bookings
      && (var b := r.store.bookings[|s.bookings|];
          b.id == s.nextBookingId && b.touristId == session.value.userId && b.guideId == q.guideId
          && b.status == Pending && b.trip == TripOf(q)
          && b.departureDate - b.trip.arrivalDate == q.daysToStay)
  {
    match Guard(session, Tourist)
    case Err(e) => Reply(s, Failure(e))
    case Ok(uid) =>
      match Departure(q.arrivalDate, q.daysToStay)
      case None => Reply(s, Failure(DateOutOfRange))
      case Some(departure) =>
        if !IsGuideUser(s, q.guideId) then Reply(s, Failure(InvalidGuide))
        else
          var b := Booking(s.nextBookingId, uid, q.guideId, TripOf(q), departure, Pending);
          Reply(s.(bookings := s.bookings + [b], nextBookingId := s.nextBookingId + 1), Success)
  }

  predicate OwnsBooking(s: Store, bookingId: nat, guideId: nat)
  {
    exists b :: b in s.bookings && b.id == bookingId && b.guideId == guideId
  }

  /** `UPDATE bookings SET booking_status = ? WHERE id = ? AND guide_id = ?`. */
  function SetStatus(bookings: seq<Booking>, bookingId: nat, guideId: nat, status: string): seq<Booking>
  {
    seq(|bookings|, i requires 0 <= i < |bookings| =>
      if bookings[i].id == bookingId && bookings[i].guideId == guideId
      then bookings[i].(status := status) else bookings[i])
  }

  /** `/update_booking_status/<id>/<status>` (guides only): a booking that
      is not the acting guide's is refused with the store unchanged;
      otherwise its status becomes the given text, whatever it was before
      and whatever the text is. Only that status changes. */
  function UpdateBookingStatus(s: Store, session: Session, bookingId: nat, status: string): (r: Reply)
    ensures Guard(session, Guide).Err? ==> r == Reply(s, Failure(Guard(session, Guide).error))
    ensures r.outcome.Success? <==>
      Guard(session, Guide).Ok? && OwnsBooking(s, bookingId, session.value.userId)
    ensures Guard(session, Guide).Ok? && !OwnsBooking(s, bookingId, session.value.userId) ==>
      r == Reply(s, Failure(AccessDenied))
    ensures r.outcome.Success? ==>
      && r.store == s.(bookings := r.store.bookings)
      && |r.store.bookings| == |s.bookings|
      && forall i :: 0 <= i < |s.bookings| ==>
           if s.bookings[i].id == bookingId && s.bookings[i].guideId == session.value.userId
           then r.store.bookings[i] == s.bookings[i].(status := status)
           else r.store.bookings[i] == s.bookings[i]
  {
    match Guard(session, Guide)
    case Err(e) => Reply(s, Failure(e))
    case Ok(uid) =>
      if !OwnsBooking(s, bookingId, uid) then Reply(s, Failure(AccessDenied))
      else Reply(s.(bookings := SetStatus(s.bookings, bookingId, uid, status)), Success)
  }

  /** On a valid store a successful status update rewrites exactly one
      booking, the one with that id, and only its status. */
  lemma StatusUpdateChangesOneBooking(s: Store, session: Session, bookingId: nat, status: string)
    requires Valid(s)
    requires UpdateBookingStatus(s, session, bookingId, status).outcome.Success?
    ensures exists k :: 0 <= k < |s.bookings| && s.bookings[k].id == bookingId &&
              UpdateBookingStatus(s, session, bookingId, status).store.bookings
              == s.bookings[k := s.bookings[k].(status := status)]
  {
    var t := UpdateBookingStatus(s, session, bookingId, status).store;
    var uid := session.value.userId;
    var b :| b in s.bookings && b.id == bookingId && b.guideId == uid;
    var k :| 0 <= k < |s.bookings| && s.bookings[k] == b;
    forall i | 0 <= i < |s.bookings| && i != k
      ensures s.bookings[i].id != bookingId
    {
      assert BookingKey(s.bookings[i]) != BookingKey(s.bookings[k]);
    }
    assert t.bookings == s.bookings[k := s.bookings[k].(status := status)];
  }

  /** The acting tourist's bookings, newest first (`WHERE b.tourist_id = ?
      ORDER BY b.created_at DESC`; the join to the guide is a left join, so
      no booking is dropped). */
  function TouristBookings(s: Store, tourist: nat): (r: seq<Booking>)
    ensures forall b :: b in r <==> b in s.bookings && b.touristId == tourist
  {
    Reverse(Filter(s.bookings, (b: Booking) => b.touristId == tourist))
  }

  /** The acting guide's bookings, newest first. The join to the tourist is
      an inner join, so bookings whose tourist was deleted are not listed. */
  function GuideBookings(s: Store, guide: nat): (r: seq<Booking>)
    ensures forall b :: b in r <==> b in s.bookings && b.guideId == guide && UserExists(s, b.touristId)
  {
    Reverse(Filter(s.bookings, (b: Booking) => b.guideId == guide && UserExists(s, b.touristId)))
  }

  /** What the tourist dashboard shows. */
  datatype TouristView = TouristView(guides: seq<(User, GuideProfile)>, bookings: seq<Booking>)

  /** `/tourist_dashboard` (tourists only). */
  function TouristDashboard(s: Store, session: Session): (r: Result<TouristView, Error>)
    ensures r.Err? <==> Guard(session, Tourist).Err?
    ensures r.Err? ==> r.error == Guard(session, Tourist).error
    ensures r.Ok? ==>
      && r.value.guides == AvailableGuides(s.users, s.guides)
      && forall b :: b in r.value.bookings <==> b in s.bookings && b.touristId == session.value.userId
  {
    match Guard(session, Tourist)
    case Err(e) => Err(e)
    case Ok(uid) => Ok(TouristView(AvailableGuides(s.users, s.guides), TouristBookings(s, uid)))
  }

  /** `/guide_dashboard` (guides only). */
  function GuideDashboard(s: Store, session: Session): (r: Result<seq<Booking>, Error>)
    ensures r.Err? <==> Guard(session, Guide).Err?
    ensures r.Err? ==> r.error == Guard(session, Guide).error
    ensures r.Ok? ==> forall b :: b in r.value <==>
      b in s.bookings && b.guideId == session.value.userId && UserExists(s, b.touristId)
  {
    match Guard(session, Guide)
    case Err(e) => Err(e)
    case Ok(uid) => Ok(GuideBookings(s, uid))
  }

  /** On a valid store both booking lists are newest first. */
  lemma BookingListsNewestFirst(s: Store, who: nat)
    requires Valid(s)
    ensures Descending(TouristBookings(s, who), BookingKey)
    ensures Descending(GuideBookings(s, who), BookingKey)
  {
    FilterAscending(s.bookings, (b: Booking) => b.touristId == who, BookingKey);
    ReverseDescending(Filter(s.bookings, (b: Booking) => b.touristId == who), BookingKey);
    FilterAscending(s.bookings, (b: Booking) => b.guideId == who && UserExists(s, b.touristId), BookingKey);
    ReverseDescending(Filter(s.bookings, (b: Booking) => b.guideId == who && UserExists(s, b.touristId)), BookingKey);
  }
}
