/** The guide profile service: the profile upsert behind
    `/update_guide_profile` and the directory of available guides shown on
    the tourist dashboard. */
module Profiles {
  import opened Results
  import opened Seqs
  import opened Schema
  import opened Auth

  /** The five profile fields a guide can set. */
  datatype ProfileFields = ProfileFields(specialization: string, experienceYears: int,
                                         languages: string, location: string,
                                         pricePerDay: Money)

  /** A profile row as inserted: every new profile starts `available`. */
  function NewProfile(id: nat, userId: nat, f: ProfileFields): GuideProfile
  {
    GuideProfile(id, userId, f.specialization, f.experienceYears, f.languages,
                 f.location, f.pricePerDay, "available")
  }

  /** `g` with the five editable fields overwritten and its availability kept. */
  function WithFields(g: GuideProfile, f: ProfileFields): GuideProfile
  {
    g.(specialization := f.specialization, experienceYears := f.experienceYears,
       languages := f.languages, location := f.location, pricePerDay := f.pricePerDay)
  }

  /** The submitted profile form; a missing field is `None`. */
  datatype ProfileForm = ProfileForm(specialization: Option<string>, experienceYears: Option<int>,
                                     languages: Option<string>, location: Option<string>,
                                     pricePerDay: Option<Money>)

  /** The form's values, with the route's defaults for missing fields. */
  function FieldsOf(form: ProfileForm): ProfileFields
  {
    ProfileFields(form.specialization.GetOr(""), form.experienceYears.GetOr(0),
                  form.languages.GetOr(""), form.location.GetOr(""),
                  form.pricePerDay.GetOr(0))
  }

  /** `UPDATE guides SET <five fields> WHERE user_id = ?`. */
  function OverwriteProfiles(guides: seq<GuideProfile>, userId: nat, f: ProfileFields): seq<GuideProfile>
  {
    seq(|guides|, i requires 0 <= i < |guides| =>
      if guides[i].userId == userId then WithFields(guides[i], f) else guides[i])
  }

  /** `/update_guide_profile`: for the acting guide, overwrite the five
      fields of an existing profile (keeping its availability) or insert a
      new `available` profile. Nothing outside `guides` changes. */
  function UpdateGuideProfile(s: Store, session: Session, form: ProfileForm): (r: Reply)
    ensures Guard(session, Guide).Err? ==> r == Reply(s, Failure(Guard(session, Guide).error))
    ensures Guard(session, Guide).Ok? ==> r.outcome == Success
    ensures Guard(session, Guide).Ok? && HasProfile(s, session.value.userId) ==>
      && r.store == s.(guides := r.store.guides)
      && |r.store.guides| == |s.guides|
      && forall i :: 0 <= i < |s.guides| ==>
           if s.guides[i].userId == session.value.userId
           then r.store.guides[i] == WithFields(s.guides[i], FieldsOf(form))
                && r.store.guides[i].availability == s.guides[i].availability
           else r.store.guides[i] == s.guides[i]
    ensures Guard(session, Guide).Ok? && !HasProfile(s, session.value.userId) ==>
      r.store == s.(guides := s.guides + [NewProfile(s.nextGuideId, session.value.userId, FieldsOf(form))],
                    nextGuideId := s.nextGuideId + 1)
  {
    match Guard(session, Guide)
    case Err(e) => Reply(s, Failure(e))
    case Ok(uid) =>
      var fields := FieldsOf(form);
      if HasProfile(s, uid) then
        Reply(s.(guides := OverwriteProfiles(s.guides, uid, fields)), Success)
      else
        Reply(s.(guides := s.guides + [NewProfile(s.nextGuideId, uid, fields)],
                 nextGuideId := s.nextGuideId + 1), Success)
  }

  /** Submitting the same profile form twice leaves the store as submitting it once. */
  lemma UpdateGuideProfileIdempotent(s: Store, session: Session, form: ProfileForm)
    ensures UpdateGuideProfile(UpdateGuideProfile(s, session, form).store, session, form)
         == UpdateGuideProfile(s, session, form)
  {
    var s1 := UpdateGuideProfile(s, session, form).store;
    if Guard(session, Guide).Ok? {
      var uid := session.value.userId;
      var f := FieldsOf(form);
      if HasProfile(s, uid) {
        var g :| g in s.guides && g.userId == uid;
        var k :| 0 <= k < |s.guides| && s.guides[k] == g;
        assert s1.guides[k].userId == uid;
        assert HasProfile(s1, uid);
        assert OverwriteProfiles(s1.guides, uid, f) == s1.guides;
      } else {
        assert s1.guides[|s.guides|].userId == uid;
        assert HasProfile(s1, uid);
        assert OverwriteProfiles(s1.guides, uid, f) == s1.guides;
      }
    }
  }

  /** On a valid store, after the update the acting guide has exactly one
      profile and it carries the submitted fields. */
  lemma ProfileAfterUpdate(s: Store, session: Session, form: ProfileForm)
    requires Valid(s) && SessionOk(s, session)
    requires Guard(session, Guide).Ok?
    ensures var t := UpdateGuideProfile(s, session, form).store;
      exists k :: 0 <= k < |t.guides| && t.guides[k].userId == session.value.userId
        && (forall j :: 0 <= j < |t.guides| && j != k ==> t.guides[j].userId != session.value.userId)
        && t.guides[k].specialization == FieldsOf(form).specialization
        && t.guides[k].experienceYears == FieldsOf(form).experienceYears
        && t.guides[k].languages == FieldsOf(form).languages
        && t.guides[k].location == FieldsOf(form).location
        && t.guides[k].pricePerDay == FieldsOf(form).pricePerDay
  {
    var t := UpdateGuideProfile(s, session, form).store;
    var uid := session.value.userId;
    if HasProfile(s, uid) {
      var g :| g in s.guides && g.userId == uid;
      var k :| 0 <= k < |s.guides| && s.guides[k] == g;
      assert t.guides[k].userId == uid;
    } else {
      var k := |s.guides|;
      assert t.guides[k].userId == uid;
    }
  }

  /** The tourist dashboard's guide directory: each available profile paired
      with its guide user (`users JOIN guides ON u.id = g.user_id WHERE
      availability_status = 'available' AND user_type = 'guide'`). */
  function AvailableGuides(users: seq<User>, guides: seq<GuideProfile>): (r: seq<(User, GuideProfile)>)
    ensures forall p :: p in r ==>
      p.0 in users && p.1 in guides && p.0.id == p.1.userId && p.0.role == Guide
      && p.1.availability == "available"
  {
    if |guides| == 0 then []
    else
      var rest := AvailableGuides(users, guides[1..]);
      var g := guides[0];
      match FindUserById(users, g.userId)
      case Some(u) =>
        if u.role == Guide && g.availability == "available" then [(u, g)] + rest else rest
      case None => rest
  }

  /** With user ids unique, every available profile of a guide user is listed. */
  lemma {:induction false} AvailableGuidesComplete(users: seq<User>, guides: seq<GuideProfile>, u: User, g: GuideProfile)
    requires Ascending(users, UserKey)
    requires u in users && g in guides && u.id == g.userId && u.role == Guide
    requires g.availability == "available"
    ensures (u, g) in AvailableGuides(users, guides)
  {
    FindUserByIdUnique(users, u);
    if guides[0] != g {
      assert g in guides[1..];
      AvailableGuidesComplete(users, guides[1..], u, g);
    }
  }
}
