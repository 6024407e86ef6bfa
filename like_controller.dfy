/**
 * `like.controller.js`: the three like toggles and the caller's liked
 * videos.
 */
module LikeController {
  import opened Common
  import opened Stages
  import opened Sorting
  import opened Toggle
  import opened Records
  import opened Database

  /** The failure `new ApiError("Invalid ...")` produces: the text lands in
      the status slot, and the message is `ApiError`'s own default, which is
      not part of this model (written as the empty string). */
  function StatusOnly<T>(text: string): Result<T> {
    Fail(ApiError(NonNumeric(text), ""))
  }

  /** `Like.findOne({subject, likedBy})`, then `findByIdAndDelete` of the
      match or `Like.create`. `removed` tells which branch ran. */
  method ToggleLike(db: Store, subject: Subject, caller: Id, now: int) returns (removed: bool)
    requires db.Valid()
    modifies db`likes, db`nextId
    ensures db.Valid()
    ensures removed <==> (subject, caller) in Edges(old(db.likes), LikeEdge)
    ensures db.likes == Toggled(old(db.likes), LikeEdge, (subject, caller), Like(old(db.nextId), subject, caller, now))
    ensures db.nextId == if removed then old(db.nextId) else old(db.nextId) + 1
  {
    var e := (subject, caller);
    var created := Like(db.nextId, subject, caller, now);
    EdgesIndexOf(db.likes, LikeEdge, e);
    ToggleKeepsUnique(db.likes, LikeEdge, e, created);
    var found := IndexOf(db.likes, LikeEdge, e);
    if found.Some? {
      ghost var before := db.likes;
      db.likes := RemoveAt(db.likes, found.value);
      assert forall l :: l in db.likes ==> l in before by {
        forall l | l in db.likes
          ensures l in before
        {
          var k :| 0 <= k < |db.likes| && db.likes[k] == l;
          if k >= found.value {
            assert l == before[k + 1];
          }
        }
      }
      removed := true;
    } else {
      db.likes := db.likes + [created];
      db.nextId := db.nextId + 1;
      removed := false;
    }
  }

  /** The message of a like toggle: `"<Kind> unliked"` or `"<Kind> liked"`. */
  function ToggleReply(kind: string, removed: bool): Reply {
    Reply(200, kind + (if removed then " unliked" else " liked"))
  }

  /** `POST /likes/toggle/v/:videoId`. An invalid id changes nothing;
      otherwise the caller's like on the video is flipped. Whether the video
      exists is not checked. */
  method ToggleVideoLike(db: Store, videoId: RawId, caller: Id, now: int) returns (r: Result<Reply>)
    requires db.Valid()
    modifies db`likes, db`nextId
    ensures db.Valid()
    ensures !IsValidObjectId(videoId) ==>
      r == StatusOnly("Invalid videoId") && db.likes == old(db.likes) && db.nextId == old(db.nextId)
    ensures IsValidObjectId(videoId) ==>
      var subject := OnVideo(videoId.id);
      && db.likes == Toggled(old(db.likes), LikeEdge, (subject, caller), Like(old(db.nextId), subject, caller, now))
      && r == Ok(ToggleReply("Video", (subject, caller) in Edges(old(db.likes), LikeEdge)))
  {
    if !IsValidObjectId(videoId) {
      return StatusOnly("Invalid videoId");
    }
    var removed := ToggleLike(db, OnVideo(videoId.id), caller, now);
    r := Ok(ToggleReply("Video", removed));
  }

  /** `POST /likes/toggle/c/:commentId`, the same toggle on a comment. */
  method ToggleCommentLike(db: Store, commentId: RawId, caller: Id, now: int) returns (r: Result<Reply>)
    requires db.Valid()
    modifies db`likes, db`nextId
    ensures db.Valid()
    ensures !IsValidObjectId(commentId) ==>
      r == StatusOnly("Invalid commentId") && db.likes == old(db.likes) && db.nextId == old(db.nextId)
    ensures IsValidObjectId(commentId) ==>
      var subject := OnComment(commentId.id);
      && db.likes == Toggled(old(db.likes), LikeEdge, (subject, caller), Like(old(db.nextId), subject, caller, now))
      && r == Ok(ToggleReply("Comment", (subject, caller) in Edges(old(db.likes), LikeEdge)))
  {
    if !IsValidObjectId(commentId) {
      return StatusOnly("Invalid commentId");
    }
    var removed := ToggleLike(db, OnComment(commentId.id), caller, now);
    r := Ok(ToggleReply("Comment", removed));
  }

  /** `POST /likes/toggle/t/:tweetId`, the same toggle on a tweet. */
  method ToggleTweetLike(db: Store, tweetId: RawId, caller: Id, now: int) returns (r: Result<Reply>)
    requires db.Valid()
    modifies db`likes, db`nextId
    ensures db.Valid()
    ensures !IsValidObjectId(tweetId) ==>
      r == StatusOnly("Invalid tweetId") && db.likes == old(db.likes) && db.nextId == old(db.nextId)
    ensures IsValidObjectId(tweetId) ==>
      var subject := OnTweet(tweetId.id);
      && db.likes == Toggled(old(db.likes), LikeEdge, (subject, caller), Like(old(db.nextId), subject, caller, now))
      && r == Ok(ToggleReply("Tweet", (subject, caller) in Edges(old(db.likes), LikeEdge)))
  {
    if !IsValidObjectId(tweetId) {
      return StatusOnly("Invalid tweetId");
    }
    var removed := ToggleLike(db, OnTweet(tweetId.id), caller, now);
    r := Ok(ToggleReply("Tweet", removed));
  }

  /** A toggle reports "liked" exactly when the caller now likes the
      subject, and "unliked" exactly when they no longer do; a second toggle
      reports the opposite and restores the set of likes. */
  lemma ToggleReplyMatchesState(likes: seq<Like>, subject: Subject, caller: Id, first: Like, second: Like)
    requires UniqueEdges(likes, LikeEdge)
    requires LikeEdge(first) == (subject, caller) && LikeEdge(second) == (subject, caller)
    ensures var after := Toggled(likes, LikeEdge, (subject, caller), first);
      && ((subject, caller) in Edges(after, LikeEdge) <==> (subject, caller) !in Edges(likes, LikeEdge))
      && Edges(Toggled(after, LikeEdge, (subject, caller), second), LikeEdge) == Edges(likes, LikeEdge)
  {
    ToggleFlipsEdge(likes, LikeEdge, (subject, caller), first);
    ToggleTwice(likes, LikeEdge, (subject, caller), first, second);
  }

  /** One entry of `GET /likes/videos`: the liked video with its owner, and
      when the like was made (the field the list is sorted on). */
  datatype LikedVideo = LikedVideo(likedAt: int, video: Video, owner: User)

  /** The inner `$lookup` of the owner followed by `$unwind`: one entry per
      user whose `_id` is the video's owner. */
  function OwnerEntries(likedAt: int, v: Video, users: seq<User>): (r: seq<LikedVideo>)
    ensures forall e :: e in r <==> e.likedAt == likedAt && e.video == v && e.owner in users && e.owner.id == v.owner
    ensures forall e ::
      multiset(r)[e] == if e.likedAt == likedAt && e.video == v && e.owner.id == v.owner then multiset(users)[e.owner] else 0
  {
    if users == [] then []
    else
      assert forall u :: u in users <==> u == users[0] || u in users[1..];
      assert users == [users[0]] + users[1..];
      (if users[0].id == v.owner then [LikedVideo(likedAt, v, users[0])] else [])
      + OwnerEntries(likedAt, v, users[1..])
  }

  /** What one video contributes to a like's entries: its owner entries when
      the like is on it, nothing otherwise. */
  function OwnerJoin(l: Like, users: seq<User>): Video -> seq<LikedVideo> {
    (v: Video) => if l.subject == OnVideo(v.id) then OwnerEntries(l.createdAt, v, users) else []
  }

  /** The outer `$lookup` of the liked video followed by `$unwind`: likes on
      comments or tweets, and likes whose video is gone, contribute nothing. */
  function VideoEntries(l: Like, videos: seq<Video>, users: seq<User>): (r: seq<LikedVideo>)
    ensures forall e :: e in r <==>
      && l.subject == OnVideo(e.video.id) && e.likedAt == l.createdAt
      && e.video in videos && e.owner in users && e.owner.id == e.video.owner
  {
    FlatMapMembers(videos, OwnerJoin(l, users));
    FlatMap(videos, OwnerJoin(l, users))
  }

  /** Each entry a like yields occurs once per stored copy of its video and
      of its owner, and only for a like on that video made at its time. */
  lemma VideoEntriesCount(l: Like, videos: seq<Video>, users: seq<User>, e: LikedVideo)
    ensures multiset(VideoEntries(l, videos, users))[e] ==
      if l.subject == OnVideo(e.video.id) && e.likedAt == l.createdAt && e.owner.id == e.video.owner
      then multiset(videos)[e.video] * multiset(users)[e.owner] else 0
  {
    FlatMapCount(videos, OwnerJoin(l, users), (z: LikedVideo) => z.video, e);
  }

  /** The likes behind an entry: the caller's likes on its video, made at
      its time. */
  function LikeBehind(caller: Id, e: LikedVideo): Like -> bool {
    (l: Like) => l.likedBy == caller && l.subject == OnVideo(e.video.id) && l.createdAt == e.likedAt
  }

  function LikedBy(caller: Id): Like -> bool {
    (l: Like) => l.likedBy == caller
  }

  function EntryLikedAt(e: LikedVideo): Key { Date(e.likedAt) }

  /** How many times `GET /likes/videos` lists an entry: once per like of
      the caller's behind it, times the stored copies of its video and of
      its owner (none when the user does not own the video). */
  function EntryCopies(db: Db, caller: Id, e: LikedVideo): nat {
    |Select(db.likes, LikeBehind(caller, e))| *
      if e.owner.id == e.video.owner then multiset(db.videos)[e.video] * multiset(db.users)[e.owner] else 0
  }

  /** The caller's likes joined with their videos and owners, before `$sort`. */
  function LikedJoin(db: Db, caller: Id): seq<LikedVideo> {
    FlatMap(Select(db.likes, LikedBy(caller)), (l: Like) => VideoEntries(l, db.videos, db.users))
  }

  /** How often the join yields an entry: once per like of the caller's
      behind it, times the copies of its video and of its owner. */
  lemma LikedJoinCount(db: Db, caller: Id, e: LikedVideo)
    ensures multiset(LikedJoin(db, caller))[e] == EntryCopies(db, caller, e)
  {
    var mine := Select(db.likes, LikedBy(caller));
    var at := (l: Like) => l.subject == OnVideo(e.video.id) && l.createdAt == e.likedAt;
    var c: nat := if e.owner.id == e.video.owner then multiset(db.videos)[e.video] * multiset(db.users)[e.owner] else 0;
    forall i | 0 <= i < |mine| {
      VideoEntriesCount(mine[i], db.videos, db.users, e);
    }
    FlatMapUniformCount(mine, (l: Like) => VideoEntries(l, db.videos, db.users), at, c, e);
    SelectSelect(db.likes, LikedBy(caller), at, LikeBehind(caller, e));
  }

  /** The join holds an entry exactly when one of the caller's likes is on
      its video at its time, the video exists and its owner resolves. */
  lemma LikedJoinMembers(db: Db, caller: Id)
    ensures forall e :: e in LikedJoin(db, caller) <==>
      exists l :: l in db.likes && l.likedBy == caller && l.subject == OnVideo(e.video.id) && e.likedAt == l.createdAt
        && e.video in db.videos && e.owner in db.users && e.owner.id == e.video.owner
  {
    var mine := Select(db.likes, LikedBy(caller));
    FlatMapMembers(mine, (l: Like) => VideoEntries(l, db.videos, db.users));
  }

  /** `GET /likes/videos`: `$match` on `likedBy`, the video and owner
      lookups with their `$unwind`s, then `$sort` on the like's `createdAt`,
      newest first. */
  function GetLikedVideos(db: Db, caller: Id): (r: seq<LikedVideo>)
    ensures forall e :: e in r <==>
      exists l :: l in db.likes && l.likedBy == caller && l.subject == OnVideo(e.video.id) && e.likedAt == l.createdAt
        && e.video in db.videos && e.owner in db.users && e.owner.id == e.video.owner
    ensures forall e :: multiset(r)[e] == EntryCopies(db, caller, e)
    ensures SortedBy(r, EntryLikedAt, false)
  {
    var joined := LikedJoin(db, caller);
    LikedJoinMembers(db, caller);
    assert forall e :: multiset(joined)[e] == EntryCopies(db, caller, e) by {
      forall e: LikedVideo
        ensures multiset(joined)[e] == EntryCopies(db, caller, e)
      {
        LikedJoinCount(db, caller, e);
      }
    }
    SortByMembers(joined, EntryLikedAt, false);
    SortBy(joined, EntryLikedAt, false)
  }
}
