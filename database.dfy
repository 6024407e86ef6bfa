/**
 * The database the handlers share: one field per collection, updated in
 * place by the handlers that create, update or delete documents.
 */
module Database {
  import opened Common
  import opened Toggle
  import opened Records

  /** An ObjectId above every `_id` in `users`. */
  function NextFreeId(users: seq<User>): (n: Id)
    ensures forall u :: u in users ==> u.id < n
  {
    if users == [] then 0
    else
      var m := NextFreeId(users[1..]);
      assert forall u :: u in users ==> u == users[0] || u in users[1..];
      if users[0].id < m then m else users[0].id + 1
  }

  class Store {
    var users: seq<User>
    var videos: seq<Video>
    var comments: seq<Comment>
    var tweets: seq<Tweet>
    var likes: seq<Like>
    var subscriptions: seq<Subscription>
    /** The ObjectId the next created document receives. */
    var nextId: Id

    /** The collections as a query reads them. */
    function Contents(): Db
      reads this
    {
      Db(users, videos, comments, tweets, likes, subscriptions)
    }

    /** The unique indexes on (subject, likedBy) and (subscriber, channel),
        and fresh ObjectIds for new documents. */
    ghost predicate Valid()
      reads this
    {
      && UniqueEdges(likes, LikeEdge)
      && UniqueEdges(subscriptions, SubscriptionEdge)
      && IdsBelow(Contents(), nextId)
    }

    /** A database holding the given accounts and nothing else. */
    constructor (accounts: seq<User>)
      ensures Valid()
      ensures Contents() == Db(accounts, [], [], [], [], [])
    {
      users := accounts;
      videos := [];
      comments := [];
      tweets := [];
      likes := [];
      subscriptions := [];
      nextId := NextFreeId(accounts);
    }
  }
}
