/**
 * `comment.controller.js`: listing a video's comments, and adding,
 * updating and deleting comments.
 *
 * `getVideoComments` checks the video's existence on a query it never
 * awaits; the query object is always truthy, so the check never fails.
 * `GetVideoCommentsAsWritten` models that, and `GetVideoComments` awaits the
 * lookup, as evidently intended.
 */
module CommentController {
  import opened Common
  import opened Stages
  import opened Sorting
  import opened Toggle
  import opened Records
  import opened Projection
  import opened Paging
  import opened Database

  /** One entry of the comment listing: the comment, its author (`$first`
      of the owner lookup), its like count and whether the viewer likes it. */
  datatype CommentCard = CommentCard(comment: Comment, owner: Option<User>, likesCount: nat, isLiked: bool)

  datatype CommentListing = CommentListing(comments: seq<CommentCard>, options: PageOptions)

  function OnVideoOf(video: Id): Comment -> bool {
    (c: Comment) => c.video == video
  }

  function CardOf(db: Db, viewer: Option<Id>): Comment -> CommentCard {
    (c: Comment) => CommentCard(c, FirstUser(db.users, c.owner), LikesCount(db.likes, OnComment(c.id)), IsLiked(db.likes, OnComment(c.id), viewer))
  }

  /** What the `$addFields` stage attaches to a comment. */
  predicate DescribesComment(db: Db, viewer: Option<Id>, c: CommentCard) {
    && c.owner == FirstUser(db.users, c.comment.owner)
    && c.likesCount == |LikesOn(db.likes, OnComment(c.comment.id))|
    && (c.isLiked <==> viewer.Some? && exists l :: l in db.likes && l.subject == OnComment(c.comment.id) && l.likedBy == viewer.value)
  }

  function CardComment(c: CommentCard): Comment { c.comment }

  /** `$match` on the video, then the two `$lookup`s and `$addFields`: one
      card per stored comment on the video, as often as it is stored. */
  function CardsOn(db: Db, video: Id, viewer: Option<Id>): (r: seq<CommentCard>)
    ensures forall c :: c in r <==> c.comment in db.comments && c.comment.video == video && DescribesComment(db, viewer, c)
    ensures forall c ::
      multiset(r)[c] == if c.comment.video == video && DescribesComment(db, viewer, c) then multiset(db.comments)[c.comment] else 0
  {
    var mine := Select(db.comments, OnVideoOf(video));
    forall c
      ensures c in Project(mine, CardOf(db, viewer)) <==> c.comment in mine && c == CardOf(db, viewer)(c.comment)
      ensures multiset(Project(mine, CardOf(db, viewer)))[c]
              == if c.comment.video == video && DescribesComment(db, viewer, c) then multiset(db.comments)[c.comment] else 0
    {
      ProjectMembers(mine, CardOf(db, viewer), c);
      ProjectCount(mine, CardOf(db, viewer), CardComment, c);
      SelectCount(db.comments, OnVideoOf(video), c.comment);
    }
    Project(mine, CardOf(db, viewer))
  }

  function WrittenAt(c: CommentCard): int { c.comment.createdAt }
  function Written(c: CommentCard): Key { Date(WrittenAt(c)) }

  /** The aggregation (`$match` on the video, the owner and likes lookups,
      `$addFields`, `$sort` newest first) and the paginator options. */
  function CommentListingOf(db: Db, video: Id, viewer: Option<Id>, page: Option<string>, limit: Option<string>): (r: CommentListing)
    ensures forall c :: c in r.comments <==> c.comment in db.comments && c.comment.video == video && DescribesComment(db, viewer, c)
    ensures forall c ::
      multiset(r.comments)[c] == if c.comment.video == video && DescribesComment(db, viewer, c) then multiset(db.comments)[c.comment] else 0
    ensures forall i, j :: 0 <= i < j < |r.comments| ==> r.comments[i].comment.createdAt >= r.comments[j].comment.createdAt
    ensures r.options == OptionsOf(page, limit)
  {
    var cards := CardsOn(db, video, viewer);
    var sorted := SortBy(cards, Written, false);
    SortByMembers(cards, Written, false);
    NewestFirst(sorted, Written, WrittenAt);
    CommentListing(sorted, OptionsOf(page, limit))
  }

  /** `GET /comments/:videoId` as written: no 404 is ever raised; an invalid
      id fails when the pipeline builds `new ObjectId(videoId)`, and a valid
      id lists whatever comments carry it, whether or not the video exists. */
  function GetVideoCommentsAsWritten(db: Db, videoId: RawId, viewer: Option<Id>, page: Option<string>, limit: Option<string>): (r: Result<CommentListing>)
    ensures !FailsWith(r, 404)
    ensures videoId.Unparsable? ==> r == Fail(Crash("BSONError"))
    ensures videoId.Parsed? ==> r == Ok(CommentListingOf(db, videoId.id, viewer, page, limit))
  {
    if videoId.Unparsable? then Fail(Crash("BSONError"))
    else Ok(CommentListingOf(db, videoId.id, viewer, page, limit))
  }

  /** `GET /comments/:videoId` with the existence check awaited: an invalid
      id fails in `findById`, a missing video is a 404, otherwise the
      listing. */
  function GetVideoComments(db: Db, videoId: RawId, viewer: Option<Id>, page: Option<string>, limit: Option<string>): (r: Result<CommentListing>)
    ensures videoId.Unparsable? ==> r == Fail(Crash("CastError"))
    ensures videoId.Parsed? && (forall v :: v in db.videos ==> v.id != videoId.id) ==> r == NotFound("Invalid VideoID")
    ensures r.Ok? <==> videoId.Parsed? && exists v :: v in db.videos && v.id == videoId.id
    ensures r.Ok? ==> r.value == CommentListingOf(db, videoId.id, viewer, page, limit)
  {
    if videoId.Unparsable? then Fail(Crash("CastError"))
    else if IndexOf(db.videos, VideoKey, videoId.id).None? then NotFound("Invalid VideoID")
    else Ok(CommentListingOf(db, videoId.id, viewer, page, limit))
  }

  /** A comment left on a video that no longer exists: the handler as
      written lists it, the awaited check answers 404. */
  lemma OrphanCommentsAreListedAsWritten()
    ensures var orphan := Comment(2, "first!", 1, 7, 0);
      var db := Db([], [], [orphan], [], [], []);
      && GetVideoCommentsAsWritten(db, Parsed(1), None, None, None).Ok?
      && CommentCard(orphan, None, 0, false) in GetVideoCommentsAsWritten(db, Parsed(1), None, None, None).value.comments
      && GetVideoComments(db, Parsed(1), None, None, None) == NotFound("Invalid VideoID")
  {
    var orphan := Comment(2, "first!", 1, 7, 0);
    var db := Db([], [], [orphan], [], [], []);
    assert LikesOn(db.likes, OnComment(2)) == [];
  }

  /** `POST /comments/:videoId`: empty content is a 400, an unknown video is
      a 400; otherwise exactly one comment, on that video and owned by the
      caller, is appended (status 201). */
  method AddComment(db: Store, videoId: RawId, caller: Id, content: Option<string>, now: int) returns (r: Result<Comment>)
    requires db.Valid()
    modifies db`comments, db`nextId
    ensures db.Valid()
    ensures r.Fail? ==> db.comments == old(db.comments) && db.nextId == old(db.nextId)
    ensures Falsy(content) ==> r == BadRequest("Comment can't be empty")
    ensures !Falsy(content) && videoId.Unparsable? ==> r == Fail(Crash("CastError"))
    ensures !Falsy(content) && videoId.Parsed? ==>
      if forall v :: v in db.videos ==> v.id != videoId.id then r == BadRequest("Invalid VideoID")
      else
        && r == Ok(Comment(old(db.nextId), content.value, videoId.id, caller, now))
        && db.comments == old(db.comments) + [r.value]
        && db.nextId == old(db.nextId) + 1
  {
    if Falsy(content) {
      return BadRequest("Comment can't be empty");
    }
    if videoId.Unparsable? {
      return Fail(Crash("CastError"));
    }
    if IndexOf(db.videos, VideoKey, videoId.id).None? {
      return BadRequest("Invalid VideoID");
    }
    var comment := Comment(db.nextId, content.value, videoId.id, caller, now);
    db.comments := db.comments + [comment];
    db.nextId := db.nextId + 1;
    r := Ok(comment);
  }

  /** `PATCH /comments/c/:commentId`: empty content is a 400 before any
      lookup, a missing comment a 404, another user's comment a 400 with no
      change; otherwise only that comment's `content` changes. The response
      carries the handler function instead of the updated comment, which
      serialises to nothing: the payload is `None`. */
  method UpdateComment(db: Store, commentId: RawId, caller: Id, content: Option<string>) returns (r: Result<Option<Comment>>)
    requires db.Valid()
    modifies db`comments
    ensures db.Valid()
    ensures r.Fail? ==> db.comments == old(db.comments)
    ensures r.Ok? ==> r.value.None?
    ensures Falsy(content) ==> r == BadRequest("Comment can't be empty")
    ensures !Falsy(content) && commentId.Unparsable? ==> r == Fail(Crash("CastError"))
    ensures !Falsy(content) && commentId.Parsed? ==>
      match IndexOf(old(db.comments), CommentKey, commentId.id)
      case None => r == NotFound("Invalid CommentID")
      case Some(i) =>
        if old(db.comments)[i].owner != caller then r == BadRequest("Can't update other's comment")
        else r.Ok? && db.comments == old(db.comments)[i := old(db.comments)[i].(content := content.value)]
  {
    if Falsy(content) {
      return BadRequest("Comment can't be empty");
    }
    if commentId.Unparsable? {
      return Fail(Crash("CastError"));
    }
    var found := IndexOf(db.comments, CommentKey, commentId.id);
    if found.None? {
      return NotFound("Invalid CommentID");
    }
    var i := found.value;
    if db.comments[i].owner != caller {
      return BadRequest("Can't update other's comment");
    }
    var updated := db.comments[i].(content := content.value);
    ghost var before := db.comments;
    db.comments := db.comments[i := updated];
    assert forall c :: c in db.comments ==> c == updated || c in before;
    r := Ok(None);
  }

  /** The likes `Like.deleteMany({comment, likedBy: caller})` keeps. */
  function NotCallersLikeOn(comment: Id, caller: Id): Like -> bool {
    (l: Like) => !(l.subject == OnComment(comment) && l.likedBy == caller)
  }

  /** `DELETE /comments/c/:commentId`: a missing comment is a 404, another
      user's comment a 400 with no change; otherwise the comment is removed
      together with the caller's own like on it. Other users' likes on the
      deleted comment remain. */
  method DeleteComment(db: Store, commentId: RawId, caller: Id) returns (r: Result<Id>)
    requires db.Valid()
    modifies db`comments, db`likes
    ensures db.Valid()
    ensures r.Fail? ==> db.comments == old(db.comments) && db.likes == old(db.likes)
    ensures commentId.Unparsable? ==> r == Fail(Crash("CastError"))
    ensures commentId.Parsed? ==>
      match IndexOf(old(db.comments), CommentKey, commentId.id)
      case None => r == NotFound("Invalid CommentID")
      case Some(i) =>
        if old(db.comments)[i].owner != caller then r == BadRequest("Can't delete other's comment")
        else
          && r == Ok(commentId.id)
          && db.comments == RemoveAt(old(db.comments), i)
          && db.likes == Select(old(db.likes), NotCallersLikeOn(commentId.id, caller))
          && (forall l :: l in db.likes <==>
                l in old(db.likes) && !(l.subject == OnComment(commentId.id) && l.likedBy == caller))
  {
    if commentId.Unparsable? {
      return Fail(Crash("CastError"));
    }
    var found := IndexOf(db.comments, CommentKey, commentId.id);
    if found.None? {
      return NotFound("Invalid CommentID");
    }
    var i := found.value;
    if db.comments[i].owner != caller {
      return BadRequest("Can't delete other's comment");
    }
    ghost var before := db.comments;
    db.comments := RemoveAt(db.comments, i);
    assert forall c :: c in db.comments ==> c in before by {
      forall c | c in db.comments
        ensures c in before
      {
        var k :| 0 <= k < |db.comments| && db.comments[k] == c;
        if k >= i {
          assert c == before[k + 1];
        }
      }
    }
    UniqueEdgesSelect(db.likes, LikeEdge, NotCallersLikeOn(commentId.id, caller));
    db.likes := Select(db.likes, NotCallersLikeOn(commentId.id, caller));
    r := Ok(commentId.id);
  }
}
