/**
 * The stored documents the handlers read and write, and the database as a
 * value: one sequence per collection, in insertion order.
 */
module Records {
  import opened Common

  /** A user. Accounts are created elsewhere; this core only reads them and
      appends to `watchHistory`. */
  datatype User = User(id: Id, username: string, fullName: string, avatar: string, watchHistory: seq<Id>)

  /** A video. `duration` is whole milliseconds and timestamps are
      milliseconds since the epoch. */
  datatype Video = Video(
    id: Id, owner: Id, title: string, description: string,
    videoFile: string, thumbnail: string, duration: int,
    views: nat, isPublished: bool, createdAt: int)

  datatype Comment = Comment(id: Id, content: string, video: Id, owner: Id, createdAt: int)

  datatype Tweet = Tweet(id: Id, content: string, owner: Id, createdAt: int)

  /** What a like is on: a like document sets exactly one of the `video`,
      `comment` and `tweet` fields. */
  datatype Subject = OnVideo(video: Id) | OnComment(comment: Id) | OnTweet(tweet: Id)

  datatype Like = Like(id: Id, subject: Subject, likedBy: Id, createdAt: int)

  /** `subscriber` follows `channel` (both users). */
  datatype Subscription = Subscription(id: Id, subscriber: Id, channel: Id, createdAt: int)

  /** The collections, as an aggregation pipeline reads them. */
  datatype Db = Db(
    users: seq<User>, videos: seq<Video>, comments: seq<Comment>,
    tweets: seq<Tweet>, likes: seq<Like>, subscriptions: seq<Subscription>)

  function UserKey(u: User): Id { u.id }
  function VideoKey(v: Video): Id { v.id }
  function CommentKey(c: Comment): Id { c.id }
  function TweetKey(t: Tweet): Id { t.id }

  /** The uniqueness key of a like: its subject and who liked it. */
  function LikeEdge(l: Like): (Subject, Id) { (l.subject, l.likedBy) }

  /** The uniqueness key of a subscription: (subscriber, channel). */
  function SubscriptionEdge(s: Subscription): (Id, Id) { (s.subscriber, s.channel) }

  /** Every stored `_id` is below `n`, so `n` is a fresh ObjectId. */
  ghost predicate IdsBelow(db: Db, n: Id) {
    && (forall u :: u in db.users ==> u.id < n)
    && (forall v :: v in db.videos ==> v.id < n)
    && (forall c :: c in db.comments ==> c.id < n)
    && (forall t :: t in db.tweets ==> t.id < n)
    && (forall l :: l in db.likes ==> l.id < n)
    && (forall s :: s in db.subscriptions ==> s.id < n)
  }

  /** Rewriting records in place while keeping each one's `_id` keeps every
      id below `n`. */
  lemma KeysBelowKept<T>(s: seq<T>, t: seq<T>, key: T -> Id, n: Id)
    requires |s| == |t|
    requires forall j :: 0 <= j < |s| ==> key(t[j]) == key(s[j])
    requires forall x :: x in s ==> key(x) < n
    ensures forall x :: x in t ==> key(x) < n
  {
    forall x | x in t
      ensures key(x) < n
    {
      var j :| 0 <= j < |t| && t[j] == x;
      assert s[j] in s;
    }
  }
}
