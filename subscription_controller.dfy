/**
 * `subscription.controller.js`: the subscription toggle and the id checks
 * of the two subscription listings.
 */
module SubscriptionController {
  import opened Common
  import opened Stages
  import opened Toggle
  import opened Records
  import opened Database

  /** The response message of a subscription toggle. */
  function SubscriptionReply(removed: bool): Reply {
    Reply(200, if removed then "Successfully unsubscribed" else "Successfully subscribed")
  }

  /** `POST /subscriptions/c/:channelId`: `findOne({subscriber, channel})`,
      then `findOneAndDelete` of that pair or `Subscription.create`. A caller
      may subscribe to their own channel, and the channel's existence is not
      checked. */
  method ToggleSubscription(db: Store, channelId: RawId, caller: Id, now: int) returns (r: Result<Reply>)
    requires db.Valid()
    modifies db`subscriptions, db`nextId
    ensures db.Valid()
    ensures !IsValidObjectId(channelId) ==>
      && r == BadRequest("Invalid ChannelId")
      && db.subscriptions == old(db.subscriptions) && db.nextId == old(db.nextId)
    ensures IsValidObjectId(channelId) ==>
      var e := (caller, channelId.id);
      && db.subscriptions == Toggled(old(db.subscriptions), SubscriptionEdge, e,
                                     Subscription(old(db.nextId), caller, channelId.id, now))
      && r == Ok(SubscriptionReply(e in Edges(old(db.subscriptions), SubscriptionEdge)))
  {
    if !IsValidObjectId(channelId) {
      return BadRequest("Invalid ChannelId");
    }
    var e := (caller, channelId.id);
    var created := Subscription(db.nextId, caller, channelId.id, now);
    EdgesIndexOf(db.subscriptions, SubscriptionEdge, e);
    ToggleKeepsUnique(db.subscriptions, SubscriptionEdge, e, created);
    var found := IndexOf(db.subscriptions, SubscriptionEdge, e);
    if found.Some? {
      ghost var before := db.subscriptions;
      db.subscriptions := RemoveAt(db.subscriptions, found.value);
      assert forall s :: s in db.subscriptions ==> s in before by {
        forall s | s in db.subscriptions
          ensures s in before
        {
          var k :| 0 <= k < |db.subscriptions| && db.subscriptions[k] == s;
          if k >= found.value {
            assert s == before[k + 1];
          }
        }
      }
      r := Ok(SubscriptionReply(true));
    } else {
      db.subscriptions := db.subscriptions + [created];
      db.nextId := db.nextId + 1;
      r := Ok(SubscriptionReply(false));
    }
  }

  /** After a subscription toggle, the caller follows the channel exactly
      when the reply says "Successfully subscribed"; every other
      (subscriber, channel) pair is as it was. */
  lemma SubscriptionReplyMatchesState(subscriptions: seq<Subscription>, caller: Id, channel: Id, created: Subscription)
    requires UniqueEdges(subscriptions, SubscriptionEdge)
    requires SubscriptionEdge(created) == (caller, channel)
    ensures var after := Toggled(subscriptions, SubscriptionEdge, (caller, channel), created);
      var removed := (caller, channel) in Edges(subscriptions, SubscriptionEdge);
      && (SubscriptionReply(removed).text == "Successfully subscribed" <==> (caller, channel) in Edges(after, SubscriptionEdge))
      && (SubscriptionReply(removed).text == "Successfully unsubscribed" <==> (caller, channel) !in Edges(after, SubscriptionEdge))
      && Edges(after, SubscriptionEdge) - {(caller, channel)} == Edges(subscriptions, SubscriptionEdge) - {(caller, channel)}
  {
    ToggleFlipsEdge(subscriptions, SubscriptionEdge, (caller, channel), created);
  }

  /** The id check both listings make before their aggregation, which is
      not part of this model: `GET /subscriptions/c/:channelId` refuses with
      "Invalid ChannelId", `GET /subscriptions/u/:subscriberId` with
      "Invalid SubscriberId". A valid id is passed on as its ObjectId. */
  function CheckId(id: RawId, message: string): (r: Result<Id>)
    ensures r.Fail? <==> !IsValidObjectId(id)
    ensures r.Fail? ==> r == BadRequest(message)
    ensures r.Ok? ==> id == Parsed(r.value)
  {
    if !IsValidObjectId(id) then BadRequest(message) else Ok(id.id)
  }
}
