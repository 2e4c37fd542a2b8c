/** The content service: guides upload, edit and delete their content
    items (`guide_uploads` rows); the homepage shows the newest items of all
    guides; a guide lists their own; anyone can fetch one item's details.
    Image files themselves are not modelled, only the `image_path` column. */
module ContentService {
  import opened Results
  import opened Seqs
  import opened Schema
  import opened Auth
  import opened Uploads

  /** The upload form; `location` is read with a default. */
  datatype UploadForm = UploadForm(uploadType: string, title: string, description: string,
                                   location: Option<string>)

  /** `/upload_content` (guides only): append one item owned by the acting
      guide. Its image path names the saved image when an accepted image
      came with the form and is empty otherwise. The text fields are stored
      as given, empty or not. Nothing else changes. */
  function UploadContent(s: Store, session: Session, f: UploadForm, image: Option<ImageUpload>,
                         stamp: string): (r: Reply)
    ensures Guard(session, Guide).Err? ==> r == Reply(s, Failure(Guard(session, Guide).error))
    ensures Guard(session, Guide).Ok? ==>
      && r.outcome == Success
      && r.store == s.(uploads := r.store.uploads, nextUploadId := s.nextUploadId + 1)
      && |r.store.uploads| == |s.uploads| + 1
      && r.store.uploads[..|s.uploads|] == s.uploads
      && (var c := r.store.uploads[|s.uploads|];
          && c.id == s.nextUploadId && c.guideId == session.value.userId
          && c.uploadType == f.uploadType && c.title == f.title
          && c.description == f.description && c.location == f.location.GetOr("")
          && (image.Some? && AllowedFile(image.value.filename) ==>
                c.imagePath == UploadsPrefix + stamp + image.value.safeName)
          && (!(image.Some? && AllowedFile(image.value.filename)) ==> c.imagePath == ""))
  {
    match Guard(session, Guide)
    case Err(e) => Reply(s, Failure(e))
    case Ok(uid) =>
      var path := AcceptedImagePath(image, stamp).GetOr("");
      var c := Content(s.nextUploadId, uid, f.uploadType, f.title, f.description, path,
                       f.location.GetOr(""));
      Reply(s.(uploads := s.uploads + [c], nextUploadId := s.nextUploadId + 1), Success)
  }

  /** The acting guide's item with this id, if any
      (`SELECT * FROM guide_uploads WHERE id = ? AND guide_id = ?`). */
  function FindOwned(uploads: seq<Content>, contentId: nat, guideId: nat): Option<Content>
  {
    FindFirst(uploads, (c: Content) => c.id == contentId && c.guideId == guideId)
  }

  predicate OwnsContent(s: Store, contentId: nat, guideId: nat)
  {
    exists c :: c in s.uploads && c.id == contentId && c.guideId == guideId
  }

  /** The edit form; every field is read without a default. */
  datatype EditForm = EditForm(uploadType: Option<string>, title: Option<string>,
                               description: Option<string>, location: Option<string>)

  /** A form value that is present and non-empty (Python truthiness). */
  predicate Filled(v: Option<string>)
  {
    v.Some? && |v.value| > 0
  }

  predicate RequiredFilled(f: EditForm)
  {
    Filled(f.uploadType) && Filled(f.title) && Filled(f.description)
  }

  /** `UPDATE guide_uploads SET ... WHERE id = ? AND guide_id = ?`. */
  function Rewrite(uploads: seq<Content>, contentId: nat, guideId: nat, f: EditForm, path: string): seq<Content>
    requires RequiredFilled(f)
  {
    seq(|uploads|, i requires 0 <= i < |uploads| =>
      if uploads[i].id == contentId && uploads[i].guideId == guideId
      then uploads[i].(uploadType := f.uploadType.value, title := f.title.value,
                       description := f.description.value, location := f.location.GetOr(""),
                       imagePath := path)
      else uploads[i])
  }

  /** `/guide/edit_content/<id>` (POST, guides only): an item that is not
      the acting guide's is refused; an empty type, title or description is
      refused; both leave the store unchanged. Otherwise the item's text is
      overwritten (a missing location becomes empty) and its image path is
      replaced only when an accepted image came with the form. */
  function EditContent(s: Store, session: Session, contentId: nat, f: EditForm,
                       image: Option<ImageUpload>, stamp: string): (r: Reply)
    ensures Guard(session, Guide).Err? ==> r == Reply(s, Failure(Guard(session, Guide).error))
    ensures r.outcome.Success? <==>
      Guard(session, Guide).Ok? && OwnsContent(s, contentId, session.value.userId) && RequiredFilled(f)
    ensures r.outcome.Failure? ==> r.store == s
    ensures Guard(session, Guide).Ok? && !OwnsContent(s, contentId, session.value.userId) ==>
      r.outcome == Failure(NotFoundOrDenied)
    ensures Guard(session, Guide).Ok? && OwnsContent(s, contentId, session.value.userId) && !RequiredFilled(f) ==>
      r.outcome == Failure(MissingFields)
    ensures r.outcome.Success? ==>
      && r.store == s.(uploads := r.store.uploads)
      && |r.store.uploads| == |s.uploads|
      && forall i :: 0 <= i < |s.uploads| ==>
           if s.uploads[i].id == contentId && s.uploads[i].guideId == session.value.userId
           then && r.store.uploads[i].id == contentId
                && r.store.uploads[i].guideId == s.uploads[i].guideId
                && r.store.uploads[i].uploadType == f.uploadType.value
                && r.store.uploads[i].title == f.title.value
                && r.store.uploads[i].description == f.description.value
                && r.store.uploads[i].location == f.location.GetOr("")
                && (image.Some? && AllowedFile(image.value.filename) ==>
                      r.store.uploads[i].imagePath == UploadsPrefix + stamp + image.value.safeName)
                && (!(image.Some? && AllowedFile(image.value.filename)) ==>
                      r.store.uploads[i].imagePath
                      == FindOwned(s.uploads, contentId, session.value.userId).value.imagePath)
           else r.store.uploads[i] == s.uploads[i]
  {
    match Guard(session, Guide)
    case Err(e) => Reply(s, Failure(e))
    case Ok(uid) =>
      match FindOwned(s.uploads, contentId, uid)
      case None => Reply(s, Failure(NotFoundOrDenied))
      case Some(current) =>
        if !RequiredFilled(f) then Reply(s, Failure(MissingFields))
        else
          var path := AcceptedImagePath(image, stamp).GetOr(current.imagePath);
          Reply(s.(uploads := Rewrite(s.uploads, contentId, uid, f, path)), Success)
  }

  /** Content ids are unique on a valid store, so an ownership lookup finds
      the one row carrying that id. */
  lemma OwnedRowUnique(s: Store, contentId: nat, guideId: nat, k: nat)
    requires Valid(s) && k < |s.uploads|
    requires s.uploads[k].id == contentId && s.uploads[k].guideId == guideId
    ensures forall i :: 0 <= i < |s.uploads| && i != k ==> s.uploads[i].id != contentId
    ensures FindOwned(s.uploads, contentId, guideId) == Some(s.uploads[k])
  {
    forall i | 0 <= i < |s.uploads| && i != k
      ensures s.uploads[i].id != contentId
    {
      assert ContentKey(s.uploads[i]) != ContentKey(s.uploads[k]);
    }
    FindFirstUnique(s.uploads, (c: Content) => c.id == contentId && c.guideId == guideId, s.uploads[k]);
  }

  /** On a valid store a successful edit rewrites exactly one row, and
      without an accepted new image that row keeps its own image path. */
  lemma EditChangesOneRow(s: Store, session: Session, contentId: nat, f: EditForm,
                          image: Option<ImageUpload>, stamp: string)
    requires Valid(s)
    requires EditContent(s, session, contentId, f, image, stamp).outcome.Success?
    ensures exists k :: 0 <= k < |s.uploads| && s.uploads[k].id == contentId &&
              (var t := EditContent(s, session, contentId, f, image, stamp).store;
               && t.uploads == s.uploads[k := t.uploads[k]]
               && (!(image.Some? && AllowedFile(image.value.filename)) ==>
                     t.uploads[k].imagePath == s.uploads[k].imagePath))
  {
    var t := EditContent(s, session, contentId, f, image, stamp).store;
    var uid := session.value.userId;
    var c :| c in s.uploads && c.id == contentId && c.guideId == uid;
    var k :| 0 <= k < |s.uploads| && s.uploads[k] == c;
    OwnedRowUnique(s, contentId, uid, k);
    assert t.uploads == s.uploads[k := t.uploads[k]];
  }

  /** `/guide/edit_content/<id>` (GET, guides only): the item for the edit
      dialog, only when it is the acting guide's. */
  function ContentForEdit(s: Store, session: Session, contentId: nat): (r: Result<Content, Error>)
    ensures Guard(session, Guide).Err? ==> r == Err(Guard(session, Guide).error)
    ensures r.Ok? <==> Guard(session, Guide).Ok? && OwnsContent(s, contentId, session.value.userId)
    ensures Guard(session, Guide).Ok? && r.Err? ==> r.error == NotFoundOrDenied
    ensures r.Ok? ==> r.value in s.uploads && r.value.id == contentId && r.value.guideId == session.value.userId
  {
    match Guard(session, Guide)
    case Err(e) => Err(e)
    case Ok(uid) =>
      match FindOwned(s.uploads, contentId, uid)
      case None => Err(NotFoundOrDenied)
      case Some(c) => Ok(c)
  }

  /** `/guide/delete_content/<id>` (guides only): an item that is not the
      acting guide's is refused with the store unchanged; otherwise the
      matching row is removed and every other row stays, in order. */
  function DeleteContent(s: Store, session: Session, contentId: nat): (r: Reply)
    ensures Guard(session, Guide).Err? ==> r == Reply(s, Failure(Guard(session, Guide).error))
    ensures r.outcome.Success? <==> Guard(session, Guide).Ok? && OwnsContent(s, contentId, session.value.userId)
    ensures Guard(session, Guide).Ok? && !OwnsContent(s, contentId, session.value.userId) ==>
      r == Reply(s, Failure(NotFoundOrDenied))
    ensures r.outcome.Success? ==>
      && r.store == s.(uploads := r.store.uploads)
      && forall c :: c in r.store.uploads <==>
           c in s.uploads && !(c.id == contentId && c.guideId == session.value.userId)
  {
    match Guard(session, Guide)
    case Err(e) => Reply(s, Failure(e))
    case Ok(uid) =>
      if !OwnsContent(s, contentId, uid) then Reply(s, Failure(NotFoundOrDenied))
      else
        var kept := Filter(s.uploads, (c: Content) => !(c.id == contentId && c.guideId == uid));
        Reply(s.(uploads := kept), Success)
  }

  /** On a valid store a successful delete removes exactly the one row with
      that id. */
  lemma DeleteRemovesExactlyOne(s: Store, session: Session, contentId: nat)
    requires Valid(s)
    requires DeleteContent(s, session, contentId).outcome.Success?
    ensures exists k :: 0 <= k < |s.uploads| && s.uploads[k].id == contentId &&
              DeleteContent(s, session, contentId).store.uploads == s.uploads[..k] + s.uploads[k + 1..]
  {
    var uid := session.value.userId;
    var c :| c in s.uploads && c.id == contentId && c.guideId == uid;
    var k :| 0 <= k < |s.uploads| && s.uploads[k] == c;
    OwnedRowUnique(s, contentId, uid, k);
    FilterRemovesOne(s.uploads, (c: Content) => !(c.id == contentId && c.guideId == uid), k);
  }

  /** `/guide/my_content` (guides only): the acting guide's items, newest first. */
  function MyContent(s: Store, session: Session): (r: Result<seq<Content>, Error>)
    ensures Guard(session, Guide).Err? ==> r == Err(Guard(session, Guide).error)
    ensures Guard(session, Guide).Ok? ==>
      r.Ok? && forall c :: c in r.value <==> c in s.uploads && c.guideId == session.value.userId
  {
    match Guard(session, Guide)
    case Err(e) => Err(e)
    case Ok(uid) => Ok(Reverse(Filter(s.uploads, (c: Content) => c.guideId == uid)))
  }

  /** On a valid store a guide's own list is newest first. */
  lemma MyContentNewestFirst(s: Store, session: Session)
    requires Valid(s) && Guard(session, Guide).Ok?
    ensures Descending(MyContent(s, session).value, ContentKey)
  {
    var uid := session.value.userId;
    FilterAscending(s.uploads, (c: Content) => c.guideId == uid, ContentKey);
    ReverseDescending(Filter(s.uploads, (c: Content) => c.guideId == uid), ContentKey);
  }

  /** How many items the homepage shows. */
  const HomeFeedLimit: nat := 12

  /** Items the homepage may show: those whose owner is a guide user. */
  function Published(s: Store): seq<Content>
  {
    Filter(s.uploads, (c: Content) => IsGuideUser(s, c.guideId))
  }

  /** The homepage (`/`): the newest published items, at most twelve. */
  function HomeFeed(s: Store): (r: seq<Content>)
    ensures |r| <= HomeFeedLimit
    ensures forall c :: c in r ==> c in s.uploads && IsGuideUser(s, c.guideId)
  {
    Take(Reverse(Published(s)), HomeFeedLimit)
  }

  /** On a valid store the homepage is newest first. */
  lemma HomeFeedNewestFirst(s: Store)
    requires Valid(s)
    ensures Descending(HomeFeed(s), ContentKey)
  {
    var p := Published(s);
    FilterAscending(s.uploads, (c: Content) => IsGuideUser(s, c.guideId), ContentKey);
    ReverseDescending(p, ContentKey);
  }

  /** The homepage shows twelve items, or every published item when there
      are fewer. */
  lemma HomeFeedSize(s: Store)
    ensures |HomeFeed(s)| == if |Published(s)| < HomeFeedLimit then |Published(s)| else HomeFeedLimit
  {
  }

  /** On a valid store the homepage shows the newest published items: every
      published item left out is older than every item shown. */
  lemma HomeFeedIsNewest(s: Store)
    requires Valid(s)
    ensures forall c, d :: c in s.uploads && IsGuideUser(s, c.guideId) && c !in HomeFeed(s) && d in HomeFeed(s) ==>
      c.id < d.id
  {
    var p := Published(s);
    FilterAscending(s.uploads, (c: Content) => IsGuideUser(s, c.guideId), ContentKey);
    TakeNewest(p, ContentKey, HomeFeedLimit);
    forall c, d | c in s.uploads && IsGuideUser(s, c.guideId) && c !in HomeFeed(s) && d in HomeFeed(s)
      ensures c.id < d.id
    {
      assert c in p;
      assert ContentKey(c) < ContentKey(d);
    }
  }

  /** What `/content/<id>` returns: the item and its owner's user row. */
  datatype ContentView = ContentView(item: Content, owner: User)

  /** `/content/<id>` (public): the item with this id joined to its owner's
      user row; `NotFound` when there is no such item or its owner is gone. */
  function ContentDetails(s: Store, contentId: nat): (r: Result<ContentView, Error>)
    ensures r.Ok? ==> r.value.item in s.uploads && r.value.item.id == contentId
                      && r.value.owner in s.users && r.value.owner.id == r.value.item.guideId
    ensures r.Err? ==> r.error == NotFound
    ensures (forall c :: c in s.uploads ==> c.id != contentId) ==> r.Err?
  {
    match FindFirst(s.uploads, (c: Content) => c.id == contentId)
    case None => Err(NotFound)
    case Some(c) =>
      match FindUserById(s.users, c.guideId)
      case None => Err(NotFound)
      case Some(u) => Ok(ContentView(c, u))
  }

  /** On a valid store, the details are found exactly when the item exists
      and its owner's user row still exists. */
  lemma ContentDetailsFoundIff(s: Store, contentId: nat)
    requires Valid(s)
    ensures ContentDetails(s, contentId).Ok? <==>
      exists c :: c in s.uploads && c.id == contentId && UserExists(s, c.guideId)
  {
    if c :| c in s.uploads && c.id == contentId {
      forall d | d in s.uploads && d.id == contentId
        ensures d == c
      {
        var i :| 0 <= i < |s.uploads| && s.uploads[i] == d;
        var j :| 0 <= j < |s.uploads| && s.uploads[j] == c;
        assert ContentKey(s.uploads[i]) == ContentKey(s.uploads[j]);
      }
      FindFirstUnique(s.uploads, (d: Content) => d.id == contentId, c);
      if UserExists(s, c.guideId) {
        var u :| u in s.users && u.id == c.guideId;
        FindUserByIdUnique(s.users, u);
      }
    }
  }
}
