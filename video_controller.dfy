/**
 * `video.controller.js`: the public video listing, publishing, watching,
 * updating, deleting and publishing/unpublishing a video.
 */
module VideoController {
  import opened Common
  import opened JsText
  import opened Stages
  import opened Sorting
  import opened Records
  import opened Projection
  import opened Paging
  import opened Database
  import opened DashboardController

  // ---------------------------------------------------------------------
  // GET /videos

  /** The query string of `GET /videos`. */
  datatype VideoQuery = VideoQuery(
    page: Option<string>, limit: Option<string>, query: Option<string>,
    sortBy: Option<string>, sortType: Option<string>, userId: Option<RawId>)

  /** A listed video after `$unwind` of its owner. */
  datatype VideoCard = VideoCard(video: Video, ownerDetails: User)

  datatype VideoListing = VideoListing(videos: seq<VideoCard>, options: PageOptions)

  /** The fields a stored video has. */
  const VideoFields: set<string> :=
    {"_id", "owner", "title", "description", "videoFile", "thumbnail", "duration", "views", "isPublished", "createdAt"}

  /** The value `$sort: { [sortBy]: ... }` compares for a video; a field the
      video does not have sorts as missing. */
  function VideoField(v: Video, field: string): (r: Key)
    ensures r.Missing? <==> field !in VideoFields
    ensures field == "createdAt" ==> r == Date(v.createdAt)
    ensures field == "_id" ==> r == Oid(v.id)
  {
    if field == "_id" then Oid(v.id)
    else if field == "owner" then Oid(v.owner)
    else if field == "title" then Str(v.title)
    else if field == "description" then Str(v.description)
    else if field == "videoFile" then Str(v.videoFile)
    else if field == "thumbnail" then Str(v.thumbnail)
    else if field == "duration" then Num(v.duration)
    else if field == "views" then Num(v.views)
    else if field == "isPublished" then Bool(v.isPublished)
    else if field == "createdAt" then Date(v.createdAt)
    else Missing
  }

  /** A field path the server accepts as a `$sort` key: dot-separated
      segments, none of them empty, none starting with `$`, and no NUL
      character anywhere. The first segment starts the path and every other
      one follows a dot; a segment is empty when a dot or the end of the
      path comes at once. */
  predicate IsFieldPath(field: string) {
    && field != []
    && field[0] != '.' && field[0] != '$'
    && field[|field| - 1] != '.'
    && (forall i :: 0 <= i < |field| ==> field[i] != '\0')
    && (forall i :: 0 <= i < |field| - 1 && field[i] == '.' ==> field[i + 1] != '.' && field[i + 1] != '$')
  }

  /** A truthy `sortBy` that the server refuses as a `$sort` key, so the
      aggregation fails when it runs. */
  predicate BadSortKey(sortBy: Option<string>) {
    !Falsy(sortBy) && !IsFieldPath(sortBy.value)
  }

  /** Every stored field of a video is a sort key the server accepts, and so
      is a nested path. */
  lemma SortPathsAccepted()
    ensures forall f :: f in VideoFields ==> IsFieldPath(f)
    ensures IsFieldPath("owner.username")
  {
    forall f | f in VideoFields
      ensures IsFieldPath(f)
    {
      assert forall i :: 0 <= i < |f| ==> f[i] != '.' && f[i] != '\0';
    }
    var nested := "owner.username";
    assert forall i :: 0 <= i < |nested| - 1 && nested[i] == '.' ==> i == 5;
  }

  /** `$`-prefixed names and paths with an empty segment are refused. */
  lemma SortPathsRefused()
    ensures !IsFieldPath("$views") && !IsFieldPath("views.") && !IsFieldPath(".views")
    ensures !IsFieldPath("a..b")
  {
    var p := "a..b";
    assert p[1] == '.' && p[2] == '.';
  }

  /** The sort field: `sortBy` when it is truthy, `createdAt` otherwise. */
  function SortKey(sortBy: Option<string>): (key: Video -> Key)
    ensures Falsy(sortBy) ==> forall v :: key(v) == Date(v.createdAt)
    ensures !Falsy(sortBy) ==> forall v :: key(v) == VideoField(v, sortBy.value)
  {
    if Falsy(sortBy) then (v: Video) => Date(v.createdAt)
    else (v: Video) => VideoField(v, sortBy.value)
  }

  /** The direction: ascending only for a truthy `sortBy` with
      `sortType === "asc"`; the default sort is descending whatever
      `sortType` says. */
  function Ascending(sortBy: Option<string>, sortType: Option<string>): (r: bool)
    ensures Falsy(sortBy) ==> !r
    ensures !Falsy(sortBy) ==> (r <==> sortType == Some("asc"))
  {
    !Falsy(sortBy) && sortType == Some("asc")
  }

  function CardKey(sortBy: Option<string>): VideoCard -> Key {
    (c: VideoCard) => SortKey(sortBy)(c.video)
  }

  function InSearch(hits: set<Id>): Video -> bool {
    (v: Video) => v.id in hits
  }

  function IsPublished(v: Video): bool { v.isPublished }

  /** The owner `$lookup` + `$unwind`: one card per user whose `_id` is the
      video's owner. */
  function CardsOf(v: Video, users: seq<User>): (r: seq<VideoCard>)
    ensures forall c :: c in r <==> c.video == v && c.ownerDetails in users && c.ownerDetails.id == v.owner
    ensures forall c ::
      multiset(r)[c] == if c.video == v && c.ownerDetails.id == v.owner then multiset(users)[c.ownerDetails] else 0
  {
    if users == [] then []
    else
      assert forall u :: u in users <==> u == users[0] || u in users[1..];
      assert users == [users[0]] + users[1..];
      (if users[0].id == v.owner then [VideoCard(v, users[0])] else []) + CardsOf(v, users[1..])
  }

  /** The videos that pass the filters, before the sort. */
  function Filtered(db: Db, q: VideoQuery, hits: set<Id>): (r: seq<Video>)
    requires !IdGiven(q.userId) || IsValidObjectId(q.userId.value)
    ensures forall v :: v in r <==>
      && v in db.videos && v.isPublished
      && (!Falsy(q.query) ==> v.id in hits)
      && (IdGiven(q.userId) ==> v.owner == q.userId.value.id)
    ensures forall v :: multiset(r)[v] == if Passes(q, hits, v) then multiset(db.videos)[v] else 0
  {
    var searched := if !Falsy(q.query) then Select(db.videos, InSearch(hits)) else db.videos;
    var owned := if IdGiven(q.userId) then Select(searched, OwnedBy(q.userId.value.id)) else searched;
    forall v
      ensures multiset(Select(owned, IsPublished))[v] == if Passes(q, hits, v) then multiset(db.videos)[v] else 0
    {
      SelectCount(db.videos, InSearch(hits), v);
      if IdGiven(q.userId) {
        SelectCount(searched, OwnedBy(q.userId.value.id), v);
      }
      SelectCount(owned, IsPublished, v);
    }
    Select(owned, IsPublished)
  }

  /** The filters of the pipeline, on one video. */
  predicate Passes(q: VideoQuery, hits: set<Id>, v: Video)
    requires !IdGiven(q.userId) || IsValidObjectId(q.userId.value)
  {
    && v.isPublished
    && (!Falsy(q.query) ==> v.id in hits)
    && (IdGiven(q.userId) ==> v.owner == q.userId.value.id)
  }

  /** The aggregation `getAllVideos` builds. `hits` holds the ids the Atlas
      `$search` stage matches when `query` is truthy; its ranking is
      discarded by the `$sort` that follows. An invalid `userId` is refused
      before the pipeline runs; a `sortBy` that is not a field path makes
      the server reject the pipeline when it runs. Only published videos are
      listed, whoever asks, and a video whose owner has no user record is
      dropped by the `$unwind`. */
  function VideoCandidates(db: Db, q: VideoQuery, hits: set<Id>): (r: Result<seq<VideoCard>>)
    ensures r.Fail? <==> (IdGiven(q.userId) && !IsValidObjectId(q.userId.value)) || BadSortKey(q.sortBy)
    ensures IdGiven(q.userId) && !IsValidObjectId(q.userId.value) ==> r == BadRequest("Invalid UserId")
    ensures !(IdGiven(q.userId) && !IsValidObjectId(q.userId.value)) && BadSortKey(q.sortBy) ==>
      r == Fail(Crash("MongoServerError"))
    ensures r.Ok? ==> forall c :: c in r.value <==>
      && c.video in db.videos && c.video.isPublished
      && (!Falsy(q.query) ==> c.video.id in hits)
      && (IdGiven(q.userId) ==> c.video.owner == q.userId.value.id)
      && c.ownerDetails in db.users && c.ownerDetails.id == c.video.owner
    ensures r.Ok? ==> forall c ::
      multiset(r.value)[c] ==
        if Passes(q, hits, c.video) && c.ownerDetails.id == c.video.owner
        then multiset(db.videos)[c.video] * multiset(db.users)[c.ownerDetails] else 0
    ensures r.Ok? ==> SortedBy(r.value, CardKey(q.sortBy), Ascending(q.sortBy, q.sortType))
  {
    if IdGiven(q.userId) && !IsValidObjectId(q.userId.value) then BadRequest("Invalid UserId")
    else if BadSortKey(q.sortBy) then Fail(Crash("MongoServerError"))
    else
      var published := Filtered(db, q, hits);
      var sorted := SortBy(published, SortKey(q.sortBy), Ascending(q.sortBy, q.sortType));
      SortByMembers(published, SortKey(q.sortBy), Ascending(q.sortBy, q.sortType));
      JoinKeepsOrder(sorted, db.users, q.sortBy, Ascending(q.sortBy, q.sortType));
      assert forall v :: multiset(sorted)[v] == multiset(published)[v];
      Ok(JoinOwners(sorted, db.users))
  }

  /** The owner `$lookup` + `$unwind` over the sorted videos. */
  function JoinOwners(videos: seq<Video>, users: seq<User>): (r: seq<VideoCard>)
    ensures forall c :: c in r <==> c.video in videos && c.ownerDetails in users && c.ownerDetails.id == c.video.owner
    ensures forall c ::
      multiset(r)[c] == if c.ownerDetails.id == c.video.owner then multiset(videos)[c.video] * multiset(users)[c.ownerDetails] else 0
  {
    var join := (v: Video) => CardsOf(v, users);
    FlatMapMembers(videos, join);
    forall c
      ensures multiset(FlatMap(videos, join))[c]
              == if c.ownerDetails.id == c.video.owner then multiset(videos)[c.video] * multiset(users)[c.ownerDetails] else 0
    {
      FlatMapCount(videos, join, CardVideo, c);
    }
    FlatMap(videos, join)
  }

  function CardVideo(c: VideoCard): Video { c.video }

  lemma JoinKeepsOrder(videos: seq<Video>, users: seq<User>, sortBy: Option<string>, ascending: bool)
    requires SortedBy(videos, SortKey(sortBy), ascending)
    ensures SortedBy(JoinOwners(videos, users), CardKey(sortBy), ascending)
  {
    var join := (v: Video) => CardsOf(v, users);
    forall i, y | 0 <= i < |videos| && y in join(videos[i])
      ensures CardKey(sortBy)(y) == SortKey(sortBy)(videos[i])
    {
      assert y.video == videos[i];
    }
    FlatMapSorted(videos, join, SortKey(sortBy), CardKey(sortBy), ascending);
  }

  /** With no `sortBy`, the listing is newest first. */
  lemma DefaultSortIsNewestFirst(db: Db, q: VideoQuery, hits: set<Id>)
    requires Falsy(q.sortBy)
    ensures var r := VideoCandidates(db, q, hits);
      r.Ok? ==> forall i, j :: 0 <= i < j < |r.value| ==> r.value[i].video.createdAt >= r.value[j].video.createdAt
  {
    var r := VideoCandidates(db, q, hits);
    if r.Ok? {
      NewestFirst(r.value, CardKey(q.sortBy), (c: VideoCard) => c.video.createdAt);
    }
  }

  /** With `sortBy` given, the listing is ordered on that field, ascending
      exactly when `sortType` is `"asc"`. */
  lemma SortFollowsQuery(db: Db, q: VideoQuery, hits: set<Id>)
    requires !Falsy(q.sortBy)
    ensures var r := VideoCandidates(db, q, hits);
      r.Ok? ==> forall i, j :: 0 <= i < j < |r.value| ==>
        var a, b := VideoField(r.value[i].video, q.sortBy.value), VideoField(r.value[j].video, q.sortBy.value);
        if q.sortType == Some("asc") then KeyLe(a, b) else KeyLe(b, a)
  {
    var r := VideoCandidates(db, q, hits);
    if r.Ok? {
      forall i, j | 0 <= i < j < |r.value|
        ensures var a, b := VideoField(r.value[i].video, q.sortBy.value), VideoField(r.value[j].video, q.sortBy.value);
          if q.sortType == Some("asc") then KeyLe(a, b) else KeyLe(b, a)
      {
        assert Precedes(CardKey(q.sortBy), Ascending(q.sortBy, q.sortType), r.value[i], r.value[j]);
      }
    }
  }

  /** `GET /videos` as written: both paginator options are read from
      `page`, so `limit` is ignored and the page size equals the page
      number. */
  function GetAllVideosAsWritten(db: Db, q: VideoQuery, hits: set<Id>): (r: Result<VideoListing>)
    ensures r.Fail? <==> VideoCandidates(db, q, hits).Fail?
    ensures r.Fail? ==> r.failure == VideoCandidates(db, q, hits).failure
    ensures r.Ok? ==> r.value.videos == VideoCandidates(db, q, hits).value
    ensures r.Ok? ==> r.value.options.limit == r.value.options.page == ParseInt(ParamOr(q.page, "1"))
  {
    match VideoCandidates(db, q, hits)
    case Fail(e) => Fail(e)
    case Ok(cards) =>
      var page := ParseInt(ParamOr(q.page, "1"));
      Ok(VideoListing(cards, PageOptions(page, page)))
  }

  /** `GET /videos` with `limit` read from `limit`. */
  function GetAllVideos(db: Db, q: VideoQuery, hits: set<Id>): (r: Result<VideoListing>)
    ensures r.Fail? <==> VideoCandidates(db, q, hits).Fail?
    ensures r.Fail? ==> r.failure == VideoCandidates(db, q, hits).failure
    ensures r.Ok? ==> r.value.videos == VideoCandidates(db, q, hits).value
    ensures r.Ok? ==> r.value.options == OptionsOf(q.page, q.limit)
  {
    match VideoCandidates(db, q, hits)
    case Fail(e) => Fail(e)
    case Ok(cards) => Ok(VideoListing(cards, OptionsOf(q.page, q.limit)))
  }

  /** `?page=2&limit=5`: as written the paginator is asked for pages of 2,
      with the limit read from `limit` it is asked for pages of 5. */
  lemma LimitIgnoredAsWritten(db: Db, hits: set<Id>)
    ensures var q := VideoQuery(Some("2"), Some("5"), None, None, None, None);
      && GetAllVideosAsWritten(db, q, hits).Ok?
      && GetAllVideosAsWritten(db, q, hits).value.options == PageOptions(Some(2), Some(2))
      && GetAllVideos(db, q, hits).value.options == PageOptions(Some(2), Some(5))
  {
    var q := VideoQuery(Some("2"), Some("5"), None, None, None, None);
    assert !IdGiven(q.userId) && !BadSortKey(q.sortBy);
    var candidates := VideoCandidates(db, q, hits);
    assert candidates.Ok?;
    var two, five := ParseInt("2"), ParseInt("5");
    assert two == Some(2) by {
      ParseDecimal(2);
      assert DecimalString(2) == "2";
    }
    assert five == Some(5) by {
      ParseDecimal(5);
      assert DecimalString(5) == "5";
    }
    assert GetAllVideosAsWritten(db, q, hits) == Ok(VideoListing(candidates.value, PageOptions(two, two)));
    assert GetAllVideos(db, q, hits) == Ok(VideoListing(candidates.value, OptionsOf(q.page, q.limit)));
  }

  // ---------------------------------------------------------------------
  // POST /videos

  /** The multer file fields of the request: the local path of the first
      file in each field, if the field is present. */
  datatype UploadedFiles = UploadedFiles(videoFile: Option<string>, thumbnail: Option<string>)

  /** What Cloudinary returns for an upload. */
  datatype Upload = Upload(url: string, duration: int)

  /** `field?.trim() === ""`: a present field that is empty or white space
      only; a missing field passes. */
  function BlankField(field: Option<string>): (r: bool)
    ensures r <==> field.Some? && AllWhitespace(field.value)
  {
    if field.None? then false
    else
      TrimEmptyIffBlank(field.value);
      Trim(field.value) == ""
  }

  /** `POST /videos`. Blank fields are refused, then the file paths are read
      (`req.files?.videoFile[0]` throws when `files` exists without that
      field), then missing paths and failed uploads are refused. A missing
      title or description passes the blank check and is refused by the
      Video schema's required fields. Otherwise one published video owned by
      the caller is appended. */
  method PublishAVideo(
    db: Store, caller: Id, title: Option<string>, description: Option<string>,
    files: Option<UploadedFiles>, videoUpload: Option<Upload>, thumbnailUpload: Option<Upload>, now: int)
    returns (r: Result<Video>)
    requires db.Valid()
    modifies db`videos, db`nextId
    ensures db.Valid()
    ensures r.Fail? ==> db.videos == old(db.videos) && db.nextId == old(db.nextId)
    ensures BlankField(title) || BlankField(description) ==> r == BadRequest("All fields are required")
    ensures !BlankField(title) && !BlankField(description) ==>
      if files.Some? && (files.value.videoFile.None? || files.value.thumbnail.None?) then r == Fail(Crash("TypeError"))
      else if files.None? || Falsy(files.value.videoFile) then r == BadRequest("VideoFile is required")
      else if Falsy(files.value.thumbnail) then r == BadRequest("Thumbnail is required")
      else if videoUpload.None? then r == Fail(ApiError(Code(500), "Can't upload video at the moment"))
      else if thumbnailUpload.None? then r == Fail(ApiError(Code(500), "Can't upload thumbnail at the moment"))
      else if title.None? || description.None? then r == Fail(Crash("ValidationError"))
      else r.Ok?
    ensures r.Ok? <==>
      && !BlankField(title) && !BlankField(description)
      && files.Some? && !Falsy(files.value.videoFile) && !Falsy(files.value.thumbnail)
      && videoUpload.Some? && thumbnailUpload.Some? && title.Some? && description.Some?
    ensures r.Ok? ==>
      && r.value == Video(old(db.nextId), caller, title.value, description.value,
                          videoUpload.value.url, thumbnailUpload.value.url, videoUpload.value.duration, 0, true, now)
      && db.videos == old(db.videos) + [r.value]
      && db.nextId == old(db.nextId) + 1
  {
    if BlankField(title) || BlankField(description) {
      return BadRequest("All fields are required");
    }
    if files.Some? && (files.value.videoFile.None? || files.value.thumbnail.None?) {
      return Fail(Crash("TypeError"));
    }
    if files.None? || Falsy(files.value.videoFile) {
      return BadRequest("VideoFile is required");
    }
    if Falsy(files.value.thumbnail) {
      return BadRequest("Thumbnail is required");
    }
    if videoUpload.None? {
      return Fail(ApiError(Code(500), "Can't upload video at the moment"));
    }
    if thumbnailUpload.None? {
      return Fail(ApiError(Code(500), "Can't upload thumbnail at the moment"));
    }
    if title.None? || description.None? {
      return Fail(Crash("ValidationError"));
    }
    var video := Video(db.nextId, caller, title.value, description.value,
                       videoUpload.value.url, thumbnailUpload.value.url, videoUpload.value.duration, 0, true, now);
    StoreVideo(db, video);
    r := Ok(video);
  }

  /** `Video.create`: the new document takes the next fresh `_id`. */
  method StoreVideo(db: Store, video: Video)
    requires db.Valid() && video.id == db.nextId
    modifies db`videos, db`nextId
    ensures db.Valid()
    ensures db.videos == old(db.videos) + [video]
    ensures db.nextId == old(db.nextId) + 1
  {
    db.videos := db.videos + [video];
    db.nextId := db.nextId + 1;
  }

  // ---------------------------------------------------------------------
  // GET /videos/:videoId

  /** The owner as the inner pipeline shapes it. */
  datatype OwnerDetail = OwnerDetail(user: User, subscribersCount: nat, isSubscribed: bool)

  /** The first document of the `getVideoById` aggregation. */
  datatype VideoDetail = VideoDetail(video: Video, owner: Option<OwnerDetail>, likesCount: nat, isLiked: bool)

  function OwnerDetailOf(db: Db, owner: Id, viewer: Option<Id>): Option<OwnerDetail> {
    match FirstUser(db.users, owner)
    case None => None
    case Some(u) => Some(OwnerDetail(u, SubscribersCount(db.subscriptions, u.id), IsSubscribed(db.subscriptions, u.id, viewer)))
  }

  /** `video[0]` of the aggregation: the video with its like count, whether
      the viewer likes it, and its owner with their subscriber count and
      whether the viewer follows them. `None` when no video has the id. */
  function VideoDetailOf(db: Db, id: Id, viewer: Option<Id>): (r: Option<VideoDetail>)
    ensures r.Some? <==> exists v :: v in db.videos && v.id == id
    ensures r.Some? ==>
      && r.value.video in db.videos && r.value.video.id == id
      && r.value.likesCount == |LikesOn(db.likes, OnVideo(id))|
      && (r.value.isLiked <==> viewer.Some? && exists l :: l in db.likes && l.subject == OnVideo(id) && l.likedBy == viewer.value)
      && (r.value.owner.None? <==> forall u :: u in db.users ==> u.id != r.value.video.owner)
    ensures r.Some? && r.value.owner.Some? ==>
      var o := r.value.owner.value;
      && o.user in db.users && o.user.id == r.value.video.owner
      && o.subscribersCount == |SubscribersOf(db.subscriptions, o.user.id)|
      && (o.isSubscribed <==> viewer.Some? && exists s :: s in db.subscriptions && s.channel == o.user.id && s.subscriber == viewer.value)
  {
    match IndexOf(db.videos, VideoKey, id)
    case None => None
    case Some(i) =>
      var v := db.videos[i];
      Some(VideoDetail(v, OwnerDetailOf(db, v.owner, viewer), LikesCount(db.likes, OnVideo(id)), IsLiked(db.likes, OnVideo(id), viewer)))
  }

  /** `findByIdAndUpdate(videoId, { $inc: { views: 1 } })`. */
  function IncrementViews(videos: seq<Video>, id: Id): (r: seq<Video>)
    ensures |r| == |videos|
    ensures forall j :: 0 <= j < |r| ==> r[j].id == videos[j].id
  {
    match IndexOf(videos, VideoKey, id)
    case None => videos
    case Some(i) => videos[i := videos[i].(views := videos[i].views + 1)]
  }

  /** Watching a video raises its `views` by exactly one and changes no
      other field and no other video; an unknown id changes nothing. */
  lemma ViewsRiseByOne(videos: seq<Video>, id: Id)
    ensures var r := IncrementViews(videos, id);
      match IndexOf(videos, VideoKey, id)
      case None => r == videos
      case Some(i) =>
        && r[i].views == videos[i].views + 1
        && r[i].(views := videos[i].views) == videos[i]
        && forall j :: 0 <= j < |r| && j != i ==> r[j] == videos[j]
  {
  }

  /** Watching a video raises the sum of its owner's views by exactly one. */
  lemma OwnedViewsRiseByOne(videos: seq<Video>, id: Id)
    requires IndexOf(videos, VideoKey, id).Some?
    ensures var owner := videos[IndexOf(videos, VideoKey, id).value].owner;
      SumOf(Select(IncrementViews(videos, id), OwnedBy(owner)), VideoViews)
        == SumOf(Select(videos, OwnedBy(owner)), VideoViews) + 1
  {
    var i := IndexOf(videos, VideoKey, id).value;
    var bumped := IncrementViews(videos, id);
    ViewsRiseByOne(videos, id);
    assert bumped[i].owner == videos[i].owner;
    SumOfSelectBump(videos, bumped, i, OwnedBy(videos[i].owner), VideoViews);
  }

  /** Watching a video raises its owner's `viewsCount` on the dashboard by
      exactly one. */
  lemma WatchingRaisesChannelViews(db: Db, id: Id)
    requires exists v :: v in db.videos && v.id == id
    ensures var i := IndexOf(db.videos, VideoKey, id).value;
      var owner := db.videos[i].owner;
      GetChannelStats(db.(videos := IncrementViews(db.videos, id)), owner).viewsCount
        == GetChannelStats(db, owner).viewsCount + 1
  {
    var v :| v in db.videos && v.id == id;
    var k :| 0 <= k < |db.videos| && db.videos[k] == v;
    assert VideoKey(db.videos[k]) == id;
    var i := IndexOf(db.videos, VideoKey, id).value;
    var owner := db.videos[i].owner;
    var after := db.(videos := IncrementViews(db.videos, id));
    OwnedViewsRiseByOne(db.videos, id);
    ChannelStatsAreTotals(db, owner);
    ChannelStatsAreTotals(after, owner);
  }

  /** `$addToSet`: appends `x` unless it is already there. */
  function AddToSet(history: seq<Id>, x: Id): (r: seq<Id>)
    ensures forall y :: y in r <==> y in history || y == x
    ensures multiset(r)[x] == if x in history then multiset(history)[x] else 1
    ensures forall y :: y != x ==> multiset(r)[y] == multiset(history)[y]
  {
    if x in history then history else history + [x]
  }

  /** Adding to a set twice is adding once. */
  lemma AddToSetIdempotent(history: seq<Id>, x: Id)
    ensures AddToSet(AddToSet(history, x), x) == AddToSet(history, x)
  {
  }

  /** `User.findByIdAndUpdate(userId, { $addToSet: { watchHistory } })`. */
  function AddToWatchHistory(users: seq<User>, userId: Id, videoId: Id): (r: seq<User>)
    ensures |r| == |users|
    ensures forall j :: 0 <= j < |r| ==> r[j].id == users[j].id
  {
    match IndexOf(users, UserKey, userId)
    case None => users
    case Some(i) => users[i := users[i].(watchHistory := AddToSet(users[i].watchHistory, videoId))]
  }

  /** After watching, the viewer's history holds the video exactly once if
      it held it at most once before (as `$addToSet` keeps it); no other
      user and no other field changes. */
  lemma WatchHistoryHoldsVideoOnce(users: seq<User>, userId: Id, videoId: Id)
    ensures var r := AddToWatchHistory(users, userId, videoId);
      match IndexOf(users, UserKey, userId)
      case None => r == users
      case Some(i) =>
        && videoId in r[i].watchHistory
        && (multiset(users[i].watchHistory)[videoId] <= 1 ==> multiset(r[i].watchHistory)[videoId] == 1)
        && r[i].(watchHistory := users[i].watchHistory) == users[i]
        && forall j :: 0 <= j < |r| && j != i ==> r[j] == users[j]
  {
  }

  /** `GET /videos/:videoId`. An invalid id fails when the pipeline builds
      `new ObjectId(videoId)`. Otherwise the response carries the video's
      details (nothing when no video has the id: the `!video` check tests an
      array, which is always truthy), the video's `views` rise by one, and
      the id is added to the viewer's watch history, whether or not the
      video exists. */
  method GetVideoById(db: Store, videoId: RawId, viewer: Option<Id>) returns (r: Result<Option<VideoDetail>>)
    requires db.Valid()
    modifies db`videos, db`users
    ensures db.Valid()
    ensures videoId.Unparsable? ==>
      r == Fail(Crash("BSONError")) && db.videos == old(db.videos) && db.users == old(db.users)
    ensures videoId.Parsed? ==>
      && r == Ok(VideoDetailOf(old(db.Contents()), videoId.id, viewer))
      && db.videos == IncrementViews(old(db.videos), videoId.id)
      && db.users == if viewer.Some? then AddToWatchHistory(old(db.users), viewer.value, videoId.id) else old(db.users)
  {
    if videoId.Unparsable? {
      return Fail(Crash("BSONError"));
    }
    var detail := VideoDetailOf(db.Contents(), videoId.id, viewer);
    var videos := IncrementViews(db.videos, videoId.id);
    KeysBelowKept(db.videos, videos, VideoKey, db.nextId);
    db.videos := videos;
    if viewer.Some? {
      var users := AddToWatchHistory(db.users, viewer.value, videoId.id);
      KeysBelowKept(db.users, users, UserKey, db.nextId);
      db.users := users;
    }
    r := Ok(detail);
  }

  // ---------------------------------------------------------------------
  // PATCH /videos/:videoId

  /** `PATCH /videos/:videoId`: title and description are both required
      before any lookup; a missing video or a caller who is not its owner is
      a 400; then the new thumbnail must be present and uploaded. Otherwise
      only the title, description and thumbnail of that video change. */
  method UpdateVideo(
    db: Store, videoId: RawId, caller: Id, title: Option<string>, description: Option<string>,
    thumbnailPath: Option<string>, thumbnailUpload: Option<Upload>)
    returns (r: Result<Video>)
    requires db.Valid()
    modifies db`videos
    ensures db.Valid()
    ensures r.Fail? ==> db.videos == old(db.videos)
    ensures Falsy(title) || Falsy(description) ==> r == BadRequest("Title and description are required to update")
    ensures !Falsy(title) && !Falsy(description) && videoId.Unparsable? ==> r == Fail(Crash("CastError"))
    ensures !Falsy(title) && !Falsy(description) && videoId.Parsed? ==>
      match IndexOf(old(db.videos), VideoKey, videoId.id)
      case None => r == BadRequest("Video not found")
      case Some(i) =>
        if old(db.videos)[i].owner != caller then r == BadRequest("You are not the owner of this video")
        else if Falsy(thumbnailPath) then r == BadRequest("Thumbnail is required")
        else if thumbnailUpload.None? then r == Fail(ApiError(Code(500), "Can't upload thumbnail at the moment"))
        else
          && r == Ok(old(db.videos)[i].(title := title.value, description := description.value, thumbnail := thumbnailUpload.value.url))
          && db.videos == old(db.videos)[i := r.value]
  {
    if Falsy(title) || Falsy(description) {
      return BadRequest("Title and description are required to update");
    }
    if videoId.Unparsable? {
      return Fail(Crash("CastError"));
    }
    var found := IndexOf(db.videos, VideoKey, videoId.id);
    if found.None? {
      return BadRequest("Video not found");
    }
    var i := found.value;
    if db.videos[i].owner != caller {
      return BadRequest("You are not the owner of this video");
    }
    if Falsy(thumbnailPath) {
      return BadRequest("Thumbnail is required");
    }
    if thumbnailUpload.None? {
      return Fail(ApiError(Code(500), "Can't upload thumbnail at the moment"));
    }
    var updated := db.videos[i].(title := title.value, description := description.value, thumbnail := thumbnailUpload.value.url);
    var videos := db.videos[i := updated];
    KeysBelowKept(db.videos, videos, VideoKey, db.nextId);
    db.videos := videos;
    r := Ok(updated);
  }

  // ---------------------------------------------------------------------
  // DELETE /videos/:videoId

  function NotOnVideo(id: Id): Like -> bool {
    (l: Like) => l.subject != OnVideo(id)
  }

  function NotUnderVideo(id: Id): Comment -> bool {
    (c: Comment) => c.video != id
  }

  /** Removes the record at `i` and keeps every remaining id below `n`. */
  lemma RemoveAtKeepsIds<T>(s: seq<T>, i: nat, key: T -> Id, n: Id)
    requires i < |s|
    requires forall x :: x in s ==> key(x) < n
    ensures forall x :: x in RemoveAt(s, i) ==> key(x) < n
  {
    var r := RemoveAt(s, i);
    forall x | x in r
      ensures key(x) < n
    {
      var k :| 0 <= k < |r| && r[k] == x;
      if k < i {
        assert s[k] in s;
      } else {
        assert s[k + 1] in s;
      }
    }
  }

  /** `DELETE /videos/:videoId` as written. `Like` and `Comment` are not
      imported, so after the video is deleted the handler fails with a
      `ReferenceError` before any like or comment is removed. (The Video
      model's `deleteById` is taken to delete the document.) */
  method DeleteVideoAsWritten(db: Store, videoId: RawId, caller: Id) returns (r: Result<Id>)
    requires db.Valid()
    modifies db`videos
    ensures db.Valid()
    ensures r.Fail?
    ensures db.likes == old(db.likes) && db.comments == old(db.comments)
    ensures videoId.Unparsable? ==> r == Fail(Crash("CastError")) && db.videos == old(db.videos)
    ensures videoId.Parsed? ==>
      match IndexOf(old(db.videos), VideoKey, videoId.id)
      case None => r == BadRequest("Video not found") && db.videos == old(db.videos)
      case Some(i) =>
        if old(db.videos)[i].owner != caller then
          r == BadRequest("Unauthorized access to video") && db.videos == old(db.videos)
        else
          r == Fail(Crash("ReferenceError")) && db.videos == RemoveAt(old(db.videos), i)
  {
    if videoId.Unparsable? {
      return Fail(Crash("CastError"));
    }
    var found := IndexOf(db.videos, VideoKey, videoId.id);
    if found.None? {
      return BadRequest("Video not found");
    }
    var i := found.value;
    if db.videos[i].owner != caller {
      return BadRequest("Unauthorized access to video");
    }
    RemoveAtKeepsIds(db.videos, i, VideoKey, db.nextId);
    db.videos := RemoveAt(db.videos, i);
    r := Fail(Crash("ReferenceError"));
  }

  /** After the delete as written, with unique video `_id`s, every like and
      comment on the deleted video is left pointing at no video. */
  lemma LeftoversDangleAsWritten(videos: seq<Video>, i: nat, likes: seq<Like>, comments: seq<Comment>)
    requires i < |videos|
    requires forall a, b :: 0 <= a < b < |videos| ==> videos[a].id != videos[b].id
    ensures forall v :: v in RemoveAt(videos, i) ==> v.id != videos[i].id
    ensures forall l :: l in likes && l.subject == OnVideo(videos[i].id) ==>
      forall v :: v in RemoveAt(videos, i) ==> l.subject != OnVideo(v.id)
    ensures forall c :: c in comments && c.video == videos[i].id ==>
      forall v :: v in RemoveAt(videos, i) ==> c.video != v.id
  {
    var r := RemoveAt(videos, i);
    forall v | v in r
      ensures v.id != videos[i].id
    {
      var k :| 0 <= k < |r| && r[k] == v;
      if k < i {
        assert v == videos[k];
      } else {
        assert v == videos[k + 1];
      }
    }
  }

  /** `DELETE /videos/:videoId` with `Like` and `Comment` in scope: a
      missing video or a caller who is not its owner changes nothing;
      otherwise the video is removed together with every like and every
      comment on it, and nothing else. */
  method DeleteVideo(db: Store, videoId: RawId, caller: Id) returns (r: Result<Id>)
    requires db.Valid()
    modifies db`videos, db`likes, db`comments
    ensures db.Valid()
    ensures r.Fail? ==> db.videos == old(db.videos) && db.likes == old(db.likes) && db.comments == old(db.comments)
    ensures videoId.Unparsable? ==> r == Fail(Crash("CastError"))
    ensures videoId.Parsed? ==>
      match IndexOf(old(db.videos), VideoKey, videoId.id)
      case None => r == BadRequest("Video not found")
      case Some(i) =>
        if old(db.videos)[i].owner != caller then r == BadRequest("Unauthorized access to video")
        else
          && r == Ok(videoId.id)
          && db.videos == RemoveAt(old(db.videos), i)
          && db.likes == Select(old(db.likes), NotOnVideo(videoId.id))
          && db.comments == Select(old(db.comments), NotUnderVideo(videoId.id))
          && (forall l :: l in db.likes <==> l in old(db.likes) && l.subject != OnVideo(videoId.id))
          && (forall c :: c in db.comments <==> c in old(db.comments) && c.video != videoId.id)
  {
    if videoId.Unparsable? {
      return Fail(Crash("CastError"));
    }
    var found := IndexOf(db.videos, VideoKey, videoId.id);
    if found.None? {
      return BadRequest("Video not found");
    }
    var i := found.value;
    if db.videos[i].owner != caller {
      return BadRequest("Unauthorized access to video");
    }
    RemoveAtKeepsIds(db.videos, i, VideoKey, db.nextId);
    db.videos := RemoveAt(db.videos, i);
    Toggle.UniqueEdgesSelect(db.likes, LikeEdge, NotOnVideo(videoId.id));
    db.likes := Select(db.likes, NotOnVideo(videoId.id));
    db.comments := Select(db.comments, NotUnderVideo(videoId.id));
    r := Ok(videoId.id);
  }

  // ---------------------------------------------------------------------
  // PATCH /videos/toggle/publish/:videoId

  function FlipPublished(v: Video): Video {
    v.(isPublished := !v.isPublished)
  }

  /** `PATCH /videos/toggle/publish/:videoId`: a missing video or a caller
      who is not its owner is a 400 with no change; otherwise only that
      video's `isPublished` is negated. */
  method TogglePublishStatus(db: Store, videoId: RawId, caller: Id) returns (r: Result<Video>)
    requires db.Valid()
    modifies db`videos
    ensures db.Valid()
    ensures r.Fail? ==> db.videos == old(db.videos)
    ensures videoId.Unparsable? ==> r == Fail(Crash("CastError"))
    ensures videoId.Parsed? ==>
      match IndexOf(old(db.videos), VideoKey, videoId.id)
      case None => r == BadRequest("Video not found")
      case Some(i) =>
        if old(db.videos)[i].owner != caller then r == BadRequest("Unauthorized access to video")
        else
          && r == Ok(FlipPublished(old(db.videos)[i]))
          && r.value.isPublished == !old(db.videos)[i].isPublished
          && db.videos == old(db.videos)[i := r.value]
  {
    if videoId.Unparsable? {
      return Fail(Crash("CastError"));
    }
    var found := IndexOf(db.videos, VideoKey, videoId.id);
    if found.None? {
      return BadRequest("Video not found");
    }
    var i := found.value;
    if db.videos[i].owner != caller {
      return BadRequest("Unauthorized access to video");
    }
    var videos := db.videos[i := FlipPublished(db.videos[i])];
    KeysBelowKept(db.videos, videos, VideoKey, db.nextId);
    db.videos := videos;
    r := Ok(videos[i]);
  }

  /** Two toggles by the owner restore the collection. */
  lemma TogglePublishTwice(videos: seq<Video>, i: nat)
    requires i < |videos|
    ensures var once := videos[i := FlipPublished(videos[i])];
      once[i := FlipPublished(once[i])] == videos
  {
    var once := videos[i := FlipPublished(videos[i])];
    assert FlipPublished(once[i]) == videos[i];
  }
}
