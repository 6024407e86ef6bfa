/**
 * The derived engagement fields the handlers attach to a video, comment,
 * tweet or channel: `likesCount` (`$lookup` on likes + `$size`), `isLiked`
 * (`$in` of the viewer among the `likedBy` of those likes),
 * `subscribersCount` and `isSubscribed` (the same over subscriptions whose
 * `channel` is the user). A missing viewer is never among them.
 */
module Projection {
  import opened Common
  import opened Stages
  import opened Toggle
  import opened Records

  function OnSubject(subject: Subject): Like -> bool {
    (l: Like) => l.subject == subject
  }

  function LikerOf(l: Like): Id { l.likedBy }

  /** `$lookup` from `likes` whose subject field equals the document's `_id`. */
  function LikesOn(likes: seq<Like>, subject: Subject): (r: seq<Like>)
    ensures forall l :: l in r <==> l in likes && l.subject == subject
  {
    Select(likes, OnSubject(subject))
  }

  /** `likesCount: { $size: "$likes" }`. */
  function LikesCount(likes: seq<Like>, subject: Subject): nat {
    |LikesOn(likes, subject)|
  }

  /** `isLiked: { $in: [viewer, "$likes.likedBy"] }`. */
  function IsLiked(likes: seq<Like>, subject: Subject, viewer: Option<Id>): (r: bool)
    ensures r <==> viewer.Some? && exists l :: l in likes && l.subject == subject && l.likedBy == viewer.value
  {
    if viewer.None? then false
    else
      ProjectMembers(LikesOn(likes, subject), LikerOf, viewer.value);
      viewer.value in Project(LikesOn(likes, subject), LikerOf)
  }

  /** The distinct users who like `subject`. */
  function Likers(likes: seq<Like>, subject: Subject): set<Id> {
    set l | l in likes && l.subject == subject :: l.likedBy
  }

  lemma LikersCons(likes: seq<Like>, subject: Subject)
    requires likes != []
    ensures Likers(likes, subject)
            == (if likes[0].subject == subject then {likes[0].likedBy} else {}) + Likers(likes[1..], subject)
  {
    assert likes == [likes[0]] + likes[1..];
    assert forall l :: l in likes <==> l == likes[0] || l in likes[1..];
  }

  lemma UniqueEdgesTail(likes: seq<Like>)
    requires likes != [] && UniqueEdges(likes, LikeEdge)
    ensures UniqueEdges(likes[1..], LikeEdge)
    ensures forall l :: l in likes[1..] ==> LikeEdge(l) != LikeEdge(likes[0])
  {
    var rest := likes[1..];
    forall i, j | 0 <= i < j < |rest|
      ensures LikeEdge(rest[i]) != LikeEdge(rest[j])
    {
      assert rest[i] == likes[i + 1] && rest[j] == likes[j + 1];
    }
    forall l | l in rest
      ensures LikeEdge(l) != LikeEdge(likes[0])
    {
      var j :| 0 <= j < |rest| && rest[j] == l;
      assert likes[j + 1] == l;
    }
  }

  /** With at most one like per (subject, user), `likesCount` is the number of
      distinct users who like the subject: it never counts anyone twice. */
  lemma {:induction false} LikesCountIsDistinctLikers(likes: seq<Like>, subject: Subject)
    requires UniqueEdges(likes, LikeEdge)
    ensures LikesCount(likes, subject) == |Likers(likes, subject)|
  {
    if likes != [] {
      var head, rest := likes[0], likes[1..];
      UniqueEdgesTail(likes);
      LikesCountIsDistinctLikers(rest, subject);
      LikersCons(likes, subject);
      assert |LikesOn(likes, subject)| == (if head.subject == subject then 1 else 0) + |LikesOn(rest, subject)|;
      if head.subject == subject {
        assert head.likedBy !in Likers(rest, subject);
      }
    }
  }

  function ToChannel(channel: Id): Subscription -> bool {
    (s: Subscription) => s.channel == channel
  }

  function SubscriberOf(s: Subscription): Id { s.subscriber }

  /** `$lookup` from `subscriptions` whose `channel` is the user's `_id`. */
  function SubscribersOf(subscriptions: seq<Subscription>, channel: Id): (r: seq<Subscription>)
    ensures forall s :: s in r <==> s in subscriptions && s.channel == channel
  {
    Select(subscriptions, ToChannel(channel))
  }

  /** `subscribersCount: { $size: "$subscribers" }`. */
  function SubscribersCount(subscriptions: seq<Subscription>, channel: Id): nat {
    |SubscribersOf(subscriptions, channel)|
  }

  /** `isSubscribed: { $in: [viewer, "$subscribers.subscriber"] }`. */
  function IsSubscribed(subscriptions: seq<Subscription>, channel: Id, viewer: Option<Id>): (r: bool)
    ensures r <==> viewer.Some? && exists s :: s in subscriptions && s.channel == channel && s.subscriber == viewer.value
  {
    if viewer.None? then false
    else
      ProjectMembers(SubscribersOf(subscriptions, channel), SubscriberOf, viewer.value);
      viewer.value in Project(SubscribersOf(subscriptions, channel), SubscriberOf)
  }

  /** `$lookup` + `$first`: the first user whose `_id` matches, if any. */
  function FirstUser(users: seq<User>, id: Id): (r: Option<User>)
    ensures r.Some? ==> r.value in users && r.value.id == id
    ensures r.None? <==> forall u :: u in users ==> u.id != id
  {
    match IndexOf(users, UserKey, id)
    case Some(i) => Some(users[i])
    case None => None
  }
}
