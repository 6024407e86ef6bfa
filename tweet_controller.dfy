/**
 * `tweet.controller.js`: creating, listing, updating and deleting tweets.
 *
 * The owner checks of `updateTweet` and `deleteTweet` compare the owner's id
 * rendered as a string with the caller's id as an ObjectId, using strict
 * inequality. The two are never strictly equal, so the handlers as written
 * reject every caller, owner included; `UpdateTweetAsWritten` and
 * `DeleteTweetAsWritten` model that, and `UpdateTweet` and `DeleteTweet`
 * compare the ids themselves, as evidently intended.
 */
module TweetController {
  import opened Common
  import opened Stages
  import opened Sorting
  import opened Records
  import opened Projection
  import opened Database

  /** `POST /tweets`: empty or missing content is refused before anything is
      stored; otherwise exactly one tweet, owned by the caller, is appended
      (status 201). */
  method CreateTweet(db: Store, caller: Id, content: Option<string>, now: int) returns (r: Result<Tweet>)
    requires db.Valid()
    modifies db`tweets, db`nextId
    ensures db.Valid()
    ensures Falsy(content) ==>
      r == BadRequest("Content is required") && db.tweets == old(db.tweets) && db.nextId == old(db.nextId)
    ensures !Falsy(content) ==>
      && r == Ok(Tweet(old(db.nextId), content.value, caller, now))
      && db.tweets == old(db.tweets) + [r.value]
      && db.nextId == old(db.nextId) + 1
  {
    if Falsy(content) {
      return BadRequest("Content is required");
    }
    var tweet := Tweet(db.nextId, content.value, caller, now);
    db.tweets := db.tweets + [tweet];
    db.nextId := db.nextId + 1;
    r := Ok(tweet);
  }

  /** One entry of `GET /tweets/user/:userId`. */
  datatype TweetCard = TweetCard(tweet: Tweet, ownerDetails: Option<User>, likesCount: nat, isLiked: bool)

  function TweetOwnedBy(owner: Id): Tweet -> bool {
    (t: Tweet) => t.owner == owner
  }

  function CardOf(db: Db, viewer: Option<Id>): Tweet -> TweetCard {
    (t: Tweet) => TweetCard(t, FirstUser(db.users, t.owner), LikesCount(db.likes, OnTweet(t.id)), IsLiked(db.likes, OnTweet(t.id), viewer))
  }

  function PostedAt(c: TweetCard): int { c.tweet.createdAt }
  function Posted(c: TweetCard): Key { Date(PostedAt(c)) }

  /** What the `$addFields` stage attaches to a tweet. */
  predicate DescribesTweet(db: Db, viewer: Option<Id>, c: TweetCard) {
    && c.ownerDetails == FirstUser(db.users, c.tweet.owner)
    && c.likesCount == |LikesOn(db.likes, OnTweet(c.tweet.id))|
    && (c.isLiked <==> viewer.Some? && exists l :: l in db.likes && l.subject == OnTweet(c.tweet.id) && l.likedBy == viewer.value)
  }

  /** `$match` on the owner, then the two `$lookup`s and `$addFields`. */
  function TweetCards(db: Db, owner: Id, viewer: Option<Id>): (r: seq<TweetCard>)
    ensures forall c :: c in r <==> c.tweet in db.tweets && c.tweet.owner == owner && DescribesTweet(db, viewer, c)
    ensures forall c :: multiset(r)[c] == (if c.tweet.owner == owner && DescribesTweet(db, viewer, c) then multiset(db.tweets)[c.tweet] else 0)
  {
    var owned := Select(db.tweets, TweetOwnedBy(owner));
    forall c
      ensures c in Project(owned, CardOf(db, viewer)) <==> c.tweet in owned && c == CardOf(db, viewer)(c.tweet)
      ensures multiset(Project(owned, CardOf(db, viewer)))[c]
              == if c.tweet.owner == owner && DescribesTweet(db, viewer, c) then multiset(db.tweets)[c.tweet] else 0
    {
      ProjectMembers(owned, CardOf(db, viewer), c);
      ProjectCount(owned, CardOf(db, viewer), CardTweet, c);
      SelectCount(db.tweets, TweetOwnedBy(owner), c.tweet);
    }
    Project(owned, CardOf(db, viewer))
  }

  function CardTweet(c: TweetCard): Tweet { c.tweet }

  /** `GET /tweets/user/:userId`: the user's tweets, each with its author,
      like count and whether the viewer likes it, newest first. */
  function GetUserTweets(db: Db, userId: RawId, viewer: Option<Id>): (r: Result<seq<TweetCard>>)
    ensures !IsValidObjectId(userId) <==> r.Fail?
    ensures r.Fail? ==> r == BadRequest("Invalid user id")
    ensures r.Ok? ==> forall c :: c in r.value <==>
      c.tweet in db.tweets && c.tweet.owner == userId.id && DescribesTweet(db, viewer, c)
    ensures r.Ok? ==> forall c ::
      multiset(r.value)[c] == if c.tweet.owner == userId.id && DescribesTweet(db, viewer, c) then multiset(db.tweets)[c.tweet] else 0
    ensures r.Ok? ==> forall i, j :: 0 <= i < j < |r.value| ==> r.value[i].tweet.createdAt >= r.value[j].tweet.createdAt
  {
    if !IsValidObjectId(userId) then BadRequest("Invalid user id")
    else
      var cards := TweetCards(db, userId.id, viewer);
      var sorted := SortBy(cards, Posted, false);
      SortByMembers(cards, Posted, false);
      NewestFirst(sorted, Posted, PostedAt);
      Ok(sorted)
  }

  /** A JavaScript value as the owner checks see it: a string, or an
      ObjectId object. */
  datatype JsValue = JsString(text: string) | JsObjectId(id: Id)

  /** `!==` negated: a string and an object are never strictly equal, and
      two ObjectId objects are equal only when they are the same object,
      which the ids of two separately loaded documents never are. */
  predicate StrictEquals(a: JsValue, b: JsValue) {
    a.JsString? && b.JsString? && a.text == b.text
  }

  const HexDigits := "0123456789abcdef"

  function HexText(n: nat, width: nat): (s: string)
    ensures |s| == width
  {
    if width == 0 then [] else HexText(n / 16, width - 1) + [HexDigits[n % 16]]
  }

  /** `ObjectId.toString()`: its 24 lower-case hexadecimal digits. */
  function ObjectIdText(id: Id): string {
    HexText(id, 24)
  }

  /** The owner check as written: `tweet.owner.toString() !== req.user?._id`,
      where the caller's `_id` is an ObjectId. It rejects every caller, the
      owner included. */
  predicate RejectsAsWritten(owner: Id, caller: Id): (r: bool)
    ensures r
  {
    !StrictEquals(JsString(ObjectIdText(owner)), JsObjectId(caller))
  }

  /** `PATCH /tweets/:tweetId` as written: it never updates anything. */
  method UpdateTweetAsWritten(db: Store, tweetId: RawId, caller: Id, content: Option<string>) returns (r: Result<Tweet>)
    ensures r.Fail?
    ensures Falsy(content) ==> r == BadRequest("Content is required")
    ensures !Falsy(content) && tweetId.Unparsable? ==> r == Fail(Crash("CastError"))
    ensures !Falsy(content) && tweetId.Parsed? ==>
      r == if IndexOf(db.tweets, TweetKey, tweetId.id).None? then NotFound("Tweet not found")
           else BadRequest("Can't update other's tweet")
  {
    if Falsy(content) {
      return BadRequest("Content is required");
    }
    if tweetId.Unparsable? {
      return Fail(Crash("CastError"));
    }
    var found := IndexOf(db.tweets, TweetKey, tweetId.id);
    if found.None? {
      return NotFound("Tweet not found");
    }
    var tweet := db.tweets[found.value];
    if !RejectsAsWritten(tweet.owner, caller) {
      assert false;
    }
    r := BadRequest("Can't update other's tweet");
  }

  /** `PATCH /tweets/:tweetId` with the owner check comparing ids: missing
      content is refused before any lookup, a missing tweet is a 404, a
      caller who does not own it gets a 400 and nothing changes; otherwise
      only that tweet's `content` changes. */
  method UpdateTweet(db: Store, tweetId: RawId, caller: Id, content: Option<string>) returns (r: Result<Tweet>)
    requires db.Valid()
    modifies db`tweets
    ensures db.Valid()
    ensures r.Fail? ==> db.tweets == old(db.tweets)
    ensures Falsy(content) ==> r == BadRequest("Content is required")
    ensures !Falsy(content) && tweetId.Unparsable? ==> r == Fail(Crash("CastError"))
    ensures !Falsy(content) && tweetId.Parsed? ==>
      match IndexOf(old(db.tweets), TweetKey, tweetId.id)
      case None => r == NotFound("Tweet not found")
      case Some(i) =>
        if old(db.tweets)[i].owner != caller then r == BadRequest("Can't update other's tweet")
        else
          && r == Ok(old(db.tweets)[i].(content := content.value))
          && db.tweets == old(db.tweets)[i := r.value]
  {
    if Falsy(content) {
      return BadRequest("Content is required");
    }
    if tweetId.Unparsable? {
      return Fail(Crash("CastError"));
    }
    var found := IndexOf(db.tweets, TweetKey, tweetId.id);
    if found.None? {
      return NotFound("Tweet not found");
    }
    var i := found.value;
    if db.tweets[i].owner != caller {
      return BadRequest("Can't update other's tweet");
    }
    var updated := db.tweets[i].(content := content.value);
    ghost var before := db.tweets;
    db.tweets := db.tweets[i := updated];
    assert forall t :: t in db.tweets ==> t == updated || t in before;
    r := Ok(updated);
  }

  /** `DELETE /tweets/:tweetId` as written: it never deletes anything. */
  method DeleteTweetAsWritten(db: Store, tweetId: RawId, caller: Id) returns (r: Result<Id>)
    ensures r.Fail?
    ensures tweetId.Unparsable? ==> r == Fail(Crash("CastError"))
    ensures tweetId.Parsed? ==>
      r == if IndexOf(db.tweets, TweetKey, tweetId.id).None? then NotFound("Tweet not found")
           else BadRequest("Can't delete other's tweet")
  {
    if tweetId.Unparsable? {
      return Fail(Crash("CastError"));
    }
    var found := IndexOf(db.tweets, TweetKey, tweetId.id);
    if found.None? {
      return NotFound("Tweet not found");
    }
    var tweet := db.tweets[found.value];
    if !RejectsAsWritten(tweet.owner, caller) {
      assert false;
    }
    r := BadRequest("Can't delete other's tweet");
  }

  /** `DELETE /tweets/:tweetId` with the owner check comparing ids: a missing
      tweet is a 404, a caller who does not own it changes nothing; otherwise
      exactly that tweet is removed. Likes on it stay behind. */
  method DeleteTweet(db: Store, tweetId: RawId, caller: Id) returns (r: Result<Id>)
    requires db.Valid()
    modifies db`tweets
    ensures db.Valid()
    ensures db.likes == old(db.likes)
    ensures r.Fail? ==> db.tweets == old(db.tweets)
    ensures tweetId.Unparsable? ==> r == Fail(Crash("CastError"))
    ensures tweetId.Parsed? ==>
      match IndexOf(old(db.tweets), TweetKey, tweetId.id)
      case None => r == NotFound("Tweet not found")
      case Some(i) =>
        if old(db.tweets)[i].owner != caller then r == BadRequest("Can't delete other's tweet")
        else r == Ok(tweetId.id) && db.tweets == RemoveAt(old(db.tweets), i)
  {
    if tweetId.Unparsable? {
      return Fail(Crash("CastError"));
    }
    var found := IndexOf(db.tweets, TweetKey, tweetId.id);
    if found.None? {
      return NotFound("Tweet not found");
    }
    var i := found.value;
    if db.tweets[i].owner != caller {
      return BadRequest("Can't delete other's tweet");
    }
    ghost var before := db.tweets;
    db.tweets := RemoveAt(db.tweets, i);
    assert forall t :: t in db.tweets ==> t in before by {
      forall t | t in db.tweets
        ensures t in before
      {
        var k :| 0 <= k < |db.tweets| && db.tweets[k] == t;
        if k >= i {
          assert t == before[k + 1];
        }
      }
    }
    r := Ok(tweetId.id);
  }
}
