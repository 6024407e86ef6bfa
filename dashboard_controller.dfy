/**
 * `dashboard.controller.js`: the channel statistics and the channel's own
 * video list, both read-only aggregations over the caller's channel.
 */
module DashboardController {
  import opened Common
  import opened Stages
  import opened Sorting
  import opened Records
  import opened Projection

  /** The four numbers of `GET /dashboard/stats`. */
  datatype ChannelStats = ChannelStats(subscribersCount: int, likesCount: int, viewsCount: int, videosCount: int)

  /** A video after the `$project` of the stats pipeline. */
  datatype VideoRow = VideoRow(totalLikes: nat, totalViews: nat)

  /** The one document `$group: { _id: null, ... }` emits. */
  datatype VideoTotals = VideoTotals(totalLikes: int, totalViews: int, totalVideos: int)

  function OwnedBy(owner: Id): Video -> bool {
    (v: Video) => v.owner == owner
  }

  function RowOf(likes: seq<Like>): Video -> VideoRow {
    (v: Video) => VideoRow(LikesCount(likes, OnVideo(v.id)), v.views)
  }

  function RowLikes(row: VideoRow): int { row.totalLikes }
  function RowViews(row: VideoRow): int { row.totalViews }

  /** `$group` with `_id: null`: no document at all when nothing matched,
      otherwise exactly one. */
  function GroupCount<T>(s: seq<T>): seq<int> {
    if s == [] then [] else [|s|]
  }

  function GroupRows(rows: seq<VideoRow>): seq<VideoTotals> {
    if rows == [] then [] else [VideoTotals(SumOf(rows, RowLikes), SumOf(rows, RowViews), |rows|)]
  }

  /** `x[0]?.field || 0`: a missing group document, or a falsy total, reads
      as 0. */
  function FirstOrZero(s: seq<int>): int {
    if s == [] || s[0] == 0 then 0 else s[0]
  }

  /** `GET /dashboard/stats`, the reducer as the handler writes it. The
      counts are the channel's subscriptions and videos, and no stat is ever
      negative (the sums are over views and like counts). */
  function GetChannelStats(db: Db, channel: Id): (r: ChannelStats)
    ensures r.subscribersCount == |SubscribersOf(db.subscriptions, channel)|
    ensures r.videosCount == |Select(db.videos, OwnedBy(channel))|
    ensures r.subscribersCount >= 0 && r.likesCount >= 0 && r.viewsCount >= 0 && r.videosCount >= 0
  {
    var subscribers := GroupCount(SubscribersOf(db.subscriptions, channel));
    var totals := GroupRows(Project(Select(db.videos, OwnedBy(channel)), RowOf(db.likes)));
    ChannelStats(
      FirstOrZero(subscribers),
      FirstOrZero(Project(totals, (t: VideoTotals) => t.totalLikes)),
      FirstOrZero(Project(totals, (t: VideoTotals) => t.totalViews)),
      FirstOrZero(Project(totals, (t: VideoTotals) => t.totalVideos)))
  }

  function VideoViews(v: Video): int { v.views }

  function VideoLikes(likes: seq<Like>): Video -> int {
    (v: Video) => LikesCount(likes, OnVideo(v.id))
  }

  lemma {:induction false} SumOfProject<T, U>(s: seq<T>, f: T -> U, g: U -> int, h: T -> int)
    requires forall x :: h(x) == g(f(x))
    ensures SumOf(Project(s, f), g) == SumOf(s, h)
  {
    if s != [] {
      assert Project(s, f)[1..] == Project(s[1..], f);
      SumOfProject(s[1..], f, g, h);
    }
  }

  /** The stats are the plain numbers they name, published or not:
      the channel's subscriptions, its videos, the sum of their views and
      the sum of their like counts. The `|| 0` defaults and the missing group
      document change none of them. */
  lemma ChannelStatsAreTotals(db: Db, channel: Id)
    ensures var owned := Select(db.videos, OwnedBy(channel));
      var stats := GetChannelStats(db, channel);
      && stats.subscribersCount == SubscribersCount(db.subscriptions, channel)
      && stats.videosCount == |owned|
      && stats.viewsCount == SumOf(owned, VideoViews)
      && stats.likesCount == SumOf(owned, VideoLikes(db.likes))
  {
    var owned := Select(db.videos, OwnedBy(channel));
    var rows := Project(owned, RowOf(db.likes));
    SumOfProject(owned, RowOf(db.likes), RowLikes, VideoLikes(db.likes));
    SumOfProject(owned, RowOf(db.likes), RowViews, VideoViews);
  }

  /** A channel with no videos and no subscribers gets four zeros, never an
      absent value. */
  lemma EmptyChannelStats(db: Db, channel: Id)
    requires forall v :: v in db.videos ==> v.owner != channel
    requires forall s :: s in db.subscriptions ==> s.channel != channel
    ensures GetChannelStats(db, channel) == ChannelStats(0, 0, 0, 0)
  {
    SelectNone(db.videos, OwnedBy(channel));
    SelectNone(db.subscriptions, ToChannel(channel));
  }

  /** One entry of `GET /dashboard/videos`. */
  datatype ChannelVideo = ChannelVideo(video: Video, likesCount: nat)

  function WithLikes(likes: seq<Like>): Video -> ChannelVideo {
    (v: Video) => ChannelVideo(v, LikesCount(likes, OnVideo(v.id)))
  }

  function RowVideo(c: ChannelVideo): Video { c.video }

  /** `$sort` on the `$dateToParts` of `createdAt`: the parts compare in
      calendar order, which is the order of the timestamps. */
  function Uploaded(c: ChannelVideo): Key { Date(c.video.createdAt) }

  /** `GET /dashboard/videos`: the caller's videos, published or not, each
      with its like count, newest first. */
  function GetChannelVideos(db: Db, caller: Id): (r: seq<ChannelVideo>)
    ensures forall c :: c in r <==>
      c.video in db.videos && c.video.owner == caller && c.likesCount == LikesCount(db.likes, OnVideo(c.video.id))
    ensures |r| == |Select(db.videos, OwnedBy(caller))|
    ensures forall c ::
      multiset(r)[c] == if c.video.owner == caller && c.likesCount == LikesCount(db.likes, OnVideo(c.video.id))
                        then multiset(db.videos)[c.video] else 0
    ensures forall i, j :: 0 <= i < j < |r| ==> r[i].video.createdAt >= r[j].video.createdAt
  {
    var owned := Select(db.videos, OwnedBy(caller));
    var rows := Project(owned, WithLikes(db.likes));
    var r := SortBy(rows, Uploaded, false);
    SortByMembers(rows, Uploaded, false);
    forall c
      ensures c in rows <==> c.video in db.videos && c.video.owner == caller && c.likesCount == LikesCount(db.likes, OnVideo(c.video.id))
      ensures multiset(rows)[c] == if c.video.owner == caller && c.likesCount == LikesCount(db.likes, OnVideo(c.video.id))
                                   then multiset(db.videos)[c.video] else 0
    {
      ProjectMembers(owned, WithLikes(db.likes), c);
      ProjectCount(owned, WithLikes(db.likes), RowVideo, c);
      SelectCount(db.videos, OwnedBy(caller), c.video);
    }
    forall i, j | 0 <= i < j < |r|
      ensures r[i].video.createdAt >= r[j].video.createdAt
    {
      assert Precedes(Uploaded, false, r[i], r[j]);
    }
    r
  }
}
