# chai-backend engagement core in Dafny

This project models the engagement logic of the chai-backend video platform. That logic lives in six Express controllers: videos, tweets, comments, likes, the dashboard, and subscriptions. It leaves out the HTTP, Mongoose and Cloudinary plumbing.

**The database.** `Database.Store` is a class with one sequence field per collection (users, videos, comments, tweets, likes, subscriptions) and a counter for fresh ObjectIds. Handlers that create, update or delete documents are methods on the store. Their `modifies` clauses name exactly the collections they touch. Their `ensures` clauses state the new contents in terms of the old ones. `Store.Valid()` is kept by every method and says three things:
- at most one like per (subject, user);
- at most one subscription per (subscriber, channel);
- every stored `_id` is below the counter.

**Queries.** Read-only handlers are functions over the snapshot `Records.Db`. They are built from the aggregation stages the code uses:
- `$match` is `Stages.Select`.
- `$lookup` followed by `$unwind` is `Stages.FlatMap`: one output per joined document.
- `$lookup` followed by `$first` is `Projection.FirstUser`.
- `$size`, `$in` and `$group`/`$sum` are lengths, membership tests and sums (`Projection`, `Stages.SumOf`).
- `$sort` is `Sorting.SortBy`. It is proved to return an ordered permutation under the BSON comparison order. Which of several equal-key records comes first is left open.

**Outcomes.** Every handler returns `Common.Result`:
- an `ApiError` with the status the code throws;
- a `Crash` for the JavaScript or driver exceptions the code runs into;
- or the value it sends.

An id from a request is a `Common.RawId`: either one the driver can read as an ObjectId, or one it cannot. `isValidObjectId` holds exactly for the first kind.

**Shared behaviour.** Two pieces are modelled once and reused:
- The find-then-delete-or-create step of the like and subscription toggles is `Toggle`. It is proved to flip exactly one edge, touch no other record, and cancel out when applied twice.
- `JsText` models `String.prototype.trim` and `parseInt(_, 10)`, which the handlers use on request strings.

**Behaviour worth noting (the model follows the code):**
- A page or limit that does not parse is passed on as `NaN`; it is not refused.
- The like and subscription toggles do not check that the subject exists.
- A self-subscription is accepted.
- `getAllVideos` lists only published videos even for their owner.
- An owner that cannot be resolved makes `getVideoById`, `getUserTweets` and `getVideoComments` return no owner rather than fail. `getAllVideos` and `getLikedVideos` drop the entry instead.

**Assumptions about code outside the six controllers.** The route wiring, the models and the auth middleware are not part of this model. The model assumes:
- `req.user._id` is an ObjectId.
- The Video schema requires `title` and `description`.
- The Video model supplies `deleteById`.
- `ApiResponse` has a static `success` method. `getChannelVideos` is the only handler that builds its reply with `ApiResponse.success(...)`; every other handler uses `new ApiResponse(...)`.

## Model

| member | source | states |
|---|---|---|
| Toggle.Toggled | src/controllers/like.controller.js:15-28 | with a record on the edge, the toggle drops one record and adds none; without one, it appends the created record to the records as they were |
| Toggle.ToggleFlipsEdge | src/controllers/like.controller.js:15-30 | a toggle makes the (subject, user) edge present iff it was absent; every other edge is unchanged; the collection loses the one matching record or gains exactly the created one |
| Toggle.ToggleKeepsOtherRecords | src/controllers/like.controller.js:20-28 | the records on every other edge key are unchanged and stay in order |
| Toggle.ToggleTwice | src/controllers/like.controller.js:15-30 | two toggles restore the set of edges; if the edge was absent, they restore the collection itself |
| Toggle.ToggleKeepsUnique | src/controllers/subscription.controller.js:15-34 | a toggle keeps at most one record per edge key |
| Toggle.UniqueEdgesSelect | src/controllers/comment.controller.js:181-184 | a `deleteMany` keeps at most one record per edge key |
| LikeController.ToggleLike | src/controllers/like.controller.js:15-30 | the likes become the toggle of the (subject, caller) edge; the store invariant is kept; the result says "removed" iff the edge existed before |
| LikeController.ToggleVideoLike | src/controllers/like.controller.js:7-31 | an invalid id fails with the message in the status slot and changes nothing; otherwise the caller's like on the video is toggled and the reply says "Video unliked" iff a like existed |
| LikeController.ToggleCommentLike | src/controllers/like.controller.js:33-57 | the same rule, keyed on the comment ("Comment liked"/"Comment unliked") |
| LikeController.ToggleTweetLike | src/controllers/like.controller.js:59-83 | the same rule, keyed on the tweet ("Tweet liked"/"Tweet unliked") |
| LikeController.ToggleReplyMatchesState | src/controllers/like.controller.js:20-30 | after a toggle the caller likes the subject iff they did not before; a second toggle restores the set of likes |
| LikeController.OwnerEntries | src/controllers/like.controller.js:101-119 | the inner owner join yields an entry iff the user's `_id` is the video's owner, and each such entry exactly as often as that user is stored |
| LikeController.VideoEntries | src/controllers/like.controller.js:94-125 | a like yields entries only for an existing video with a resolvable owner; likes on comments or tweets yield none |
| LikeController.VideoEntriesCount | src/controllers/like.controller.js:94-125 | a like yields an entry once per stored copy of its video times the stored copies of its owner, and never for another subject or another time |
| LikeController.LikedJoinMembers | src/controllers/like.controller.js:85-125 | the joined likes hold an entry iff one of the caller's likes is on that existing video at the entry's time and the owner resolves |
| LikeController.LikedJoinCount | src/controllers/like.controller.js:85-125 | the joined likes hold an entry once per like of the caller's behind it times the copies of its video and owner, so under one like per (video, caller) each liked video appears once per owner record |
| LikeController.GetLikedVideos | src/controllers/like.controller.js:85-155 | an entry is listed iff the caller has a like on that existing video and the owner resolves; it is listed exactly as often as `EntryCopies` counts (likes behind it times video and owner copies); entries are sorted by the like's `createdAt`, newest first |
| SubscriptionController.ToggleSubscription | src/controllers/subscription.controller.js:8-40 | an invalid channel id is a 400 with no change; otherwise the (caller, channel) subscription is toggled, self-subscription included; the reply says "Successfully unsubscribed" iff one existed |
| SubscriptionController.SubscriptionReplyMatchesState | src/controllers/subscription.controller.js:20-39 | the reply says "Successfully subscribed" iff the caller now follows the channel; every other pair is unchanged |
| SubscriptionController.CheckId | src/controllers/subscription.controller.js:43-93 | both listings fail with a 400 carrying their message ("Invalid ChannelId" at lines 46-48, "Invalid SubscriberId" at lines 91-93) iff the id is invalid; a valid id is passed on as its ObjectId |
| DashboardController.GetChannelStats | src/controllers/dashboard.controller.js:9-78 | `subscribersCount` is the number of subscriptions to the channel and `videosCount` the number of its videos; no stat is negative |
| DashboardController.ChannelStatsAreTotals | src/controllers/dashboard.controller.js:13-73 | `subscribersCount`: the channel's subscriptions. `videosCount`: its videos, published or not. `viewsCount`: the sum of their views. `likesCount`: the sum of their like counts. Each holds despite the missing group document and the "or 0" defaults |
| DashboardController.EmptyChannelStats | src/controllers/dashboard.controller.js:68-73 | a channel with no videos and no subscribers gets four zeros |
| DashboardController.GetChannelVideos | src/controllers/dashboard.controller.js:80-134 | exactly the caller's videos, published or not, each as often as it is stored and with its like count, newest first |
| TweetController.CreateTweet | src/controllers/tweet.controller.js:8-28 | empty or missing content is a 400 and stores nothing; otherwise exactly one tweet owned by the caller is appended |
| TweetController.TweetCards | src/controllers/tweet.controller.js:38-104 | each of the owner's tweets appears, as often as it is stored, with its author, like count and the viewer's like flag, and nothing else does |
| TweetController.GetUserTweets | src/controllers/tweet.controller.js:30-124 | an invalid user id is a 400; otherwise exactly the user's tweets, each as often as it is stored, with its like count and whether the viewer likes it, newest first |
| TweetController.RejectsAsWritten | src/controllers/tweet.controller.js:141 | the owner check as written rejects every caller, the owner included |
| TweetController.UpdateTweetAsWritten | src/controllers/tweet.controller.js:126-158 | as written the handler never succeeds: 400 for missing content, 404 for a missing tweet, 400 for every caller otherwise |
| TweetController.UpdateTweet | src/controllers/tweet.controller.js:126-158 | missing content is a 400 before any lookup; a missing tweet is a 404; a non-owner gets a 400 and nothing changes; otherwise only that tweet's content changes |
| TweetController.DeleteTweetAsWritten | src/controllers/tweet.controller.js:160-179 | as written the handler never deletes: 404 for a missing tweet, 400 for every caller otherwise |
| TweetController.DeleteTweet | src/controllers/tweet.controller.js:160-179 | a missing tweet is a 404; a non-owner changes nothing; otherwise exactly that tweet is removed, and the likes are untouched |
| CommentController.CardsOn | src/controllers/comment.controller.js:21-59 | exactly the video's comments, each as often as it is stored, with its author, like count and the viewer's like flag |
| CommentController.CommentListingOf | src/controllers/comment.controller.js:21-83 | exactly the video's comments, each as often as it is stored, newest first, with the paginator options parsed from `page` and `limit` |
| CommentController.GetVideoCommentsAsWritten | src/controllers/comment.controller.js:10-93 | as written, never a 404: an invalid id crashes in `new ObjectId`, and a valid id lists its comments even when the video is gone |
| CommentController.GetVideoComments | src/controllers/comment.controller.js:10-93 | an awaited check gives a 404 iff no video has the id; otherwise the listing |
| CommentController.OrphanCommentsAreListedAsWritten | src/controllers/comment.controller.js:15-24 | a comment on a deleted video is listed as written, while the awaited check answers 404 |
| CommentController.AddComment | src/controllers/comment.controller.js:95-123 | empty content is a 400; an unknown video is a 400; otherwise exactly one comment, on that video and owned by the caller, is appended |
| CommentController.UpdateComment | src/controllers/comment.controller.js:125-163 | empty content is a 400 before any lookup; a missing comment is a 404; a non-owner gets a 400 and nothing changes; otherwise only that comment's content changes; the response carries no comment |
| CommentController.DeleteComment | src/controllers/comment.controller.js:165-191 | a missing comment is a 404; a non-owner changes nothing; otherwise the comment is removed along with the caller's own like on it, and every other like stays, in order |
| VideoController.Filtered | src/controllers/video.controller.js:14-38 | a video passes iff it is published, is a search hit when a query is given, and is owned by `userId` when one is given |
| VideoController.VideoCandidates | src/controllers/video.controller.js:14-74 | an invalid `userId` is a 400; otherwise a truthy `sortBy` that is not a field path (empty segment, `$` prefix, NUL) fails with the server's error; otherwise exactly the published videos that pass the search and owner filters, each with a resolvable owner, sorted on the requested key and direction; a (video, owner) card appears as often as the video is stored times the times its owner is stored |
| VideoController.JoinOwners | src/controllers/video.controller.js:54-74 | a card is produced iff the video is listed and the user is its owner, as often as the video is listed times the times the user is stored |
| VideoController.VideoField | src/controllers/video.controller.js:40-45 | a `sortBy` naming a field of the video compares that field's value; any other name compares as missing |
| VideoController.SortPathsAccepted | src/controllers/video.controller.js:40-45 | every stored field name, and a nested path such as `owner.username`, is a sort key the server accepts |
| VideoController.SortPathsRefused | src/controllers/video.controller.js:40-45 | `$views`, `views.`, `.views` and `a..b` are refused as sort keys |
| VideoController.SortKey | src/controllers/video.controller.js:40-52 | the sort key is the `sortBy` field when `sortBy` is truthy, `createdAt` otherwise |
| VideoController.Ascending | src/controllers/video.controller.js:40-52 | the sort is ascending iff `sortBy` is truthy and `sortType` is "asc"; the default sort is descending whatever `sortType` says |
| VideoController.JoinKeepsOrder | src/controllers/video.controller.js:40-74 | the owner join after the sort keeps the sort order |
| VideoController.DefaultSortIsNewestFirst | src/controllers/video.controller.js:46-52 | with no `sortBy`, the listing is newest first |
| VideoController.SortFollowsQuery | src/controllers/video.controller.js:40-45 | with `sortBy`, the listing is ordered on that field, ascending iff `sortType` is "asc" |
| VideoController.GetAllVideosAsWritten | src/controllers/video.controller.js:76-84 | the listing fails exactly as the pipeline does; as written the paginator limit equals the parsed `page` |
| VideoController.GetAllVideos | src/controllers/video.controller.js:76-84 | the listing fails exactly as the pipeline does; otherwise the paginator gets `parseInt(page)` and `parseInt(limit)` with the defaults 1 and 10 |
| VideoController.LimitIgnoredAsWritten | src/controllers/video.controller.js:76-79 | for `?page=2&limit=5`, as written the limit is 2, while reading it from `limit` gives 5 |
| VideoController.BlankField | src/controllers/video.controller.js:96-98 | the guard rejects a field iff it is present and made only of white space; a missing field passes |
| VideoController.PublishAVideo | src/controllers/video.controller.js:93-141 | in source order: a blank field is a 400; `files` without a file field is a TypeError; a missing video file, then a missing thumbnail, is a 400; a failed video upload, then a failed thumbnail upload, is a 500; a missing title or description is a ValidationError. Otherwise, and only then, one published video owned by the caller is appended |
| VideoController.VideoDetailOf | src/controllers/video.controller.js:147-237 | present iff the video exists. `likesCount` counts the likes on the video; `isLiked` holds iff the viewer likes it. The owner is absent iff no user matches; otherwise it carries the owner's subscriber count and whether the viewer follows them |
| VideoController.IncrementViews | src/controllers/video.controller.js:243-247 | the `$inc` keeps every video in place with its `_id` |
| VideoController.ViewsRiseByOne | src/controllers/video.controller.js:243-247 | only the watched video changes, its views rise by exactly one, and an unknown id changes nothing |
| VideoController.WatchingRaisesChannelViews | src/controllers/video.controller.js:243-247 | watching a video raises its owner's dashboard `viewsCount` by exactly one |
| VideoController.AddToSet | src/controllers/video.controller.js:249-253 | the history gains the video once; the count of every other id is unchanged |
| VideoController.AddToSetIdempotent | src/controllers/video.controller.js:249-253 | adding the same video twice equals adding it once |
| VideoController.AddToWatchHistory | src/controllers/video.controller.js:249-253 | the `$addToSet` update keeps every user in place with its `_id` |
| VideoController.WatchHistoryHoldsVideoOnce | src/controllers/video.controller.js:249-253 | the viewer's history contains the video afterwards, exactly once if it held it at most once before; no other user or field changes |
| VideoController.GetVideoById | src/controllers/video.controller.js:143-258 | an invalid id crashes with no change; otherwise the reply is the video's details (none for a missing video), its views rise, and the viewer's history gains the id, even for a missing video |
| VideoController.UpdateVideo | src/controllers/video.controller.js:260-314 | the error cases follow source order; otherwise only the title, description and thumbnail of that video change |
| VideoController.DeleteVideoAsWritten | src/controllers/video.controller.js:316-351 | as written the owner's delete removes the video, then crashes and leaves its likes and comments behind |
| VideoController.LeftoversDangleAsWritten | src/controllers/video.controller.js:329-344 | with unique ids, those leftover likes and comments point at no video |
| VideoController.DeleteVideo | src/controllers/video.controller.js:316-351 | a non-owner or a missing video changes nothing; otherwise the video and every like and comment on it are removed, and nothing else |
| VideoController.TogglePublishStatus | src/controllers/video.controller.js:353-385 | a missing video or a non-owner is a 400 with no change; otherwise only that video's `isPublished` is negated |
| VideoController.TogglePublishTwice | src/controllers/video.controller.js:366-374 | flipping `isPublished` of the same video twice restores the collection |
| Projection.LikesOn | src/controllers/video.controller.js:154-160 | the likes joined to a subject are exactly those whose subject it is |
| Projection.IsLiked | src/controllers/video.controller.js:214-220 | true iff a viewer is given and has a like on the subject |
| Projection.LikesCountIsDistinctLikers | src/controllers/video.controller.js:207-210 | under the one-like-per-user invariant, `likesCount` is the number of distinct users who like the subject |
| Projection.SubscribersOf | src/controllers/video.controller.js:169-174 | the subscriptions joined to a channel are exactly those to it |
| Projection.IsSubscribed | src/controllers/video.controller.js:181-192 | true iff a viewer is given and follows the channel |
| Projection.FirstUser | src/controllers/tweet.controller.js:93-95 | `$first` of the owner join: a user with that `_id`, or none iff there is none |
| Stages.Select | src/controllers/video.controller.js:38 | `$match` keeps exactly the accepted records and never grows the input |
| Stages.SelectCount | src/controllers/video.controller.js:38 | `$match` keeps each accepted record exactly as often as it is stored |
| Stages.SumOf | src/controllers/dashboard.controller.js:52-60 | `$sum` over no records is 0, and over non-negative values is non-negative |
| Stages.IndexOf | src/controllers/video.controller.js:269 | `findById` finds the first record with the key; none iff no record has it |
| Stages.RemoveAt | src/controllers/tweet.controller.js:174 | a delete drops exactly the found record and keeps the order of the rest |
| Stages.FlatMapMembers | src/controllers/video.controller.js:54-74 | `$lookup` + `$unwind` yields exactly the joined documents of every input record |
| Stages.FlatMapCount | src/controllers/video.controller.js:54-74 | when each joined document names its record, `$lookup` + `$unwind` yields it as often as the record is stored times the times the record joins with it |
| Stages.FlatMapUniformCount | src/controllers/like.controller.js:94-125 | when every accepted record joins with a document the same number of times and no other record joins with it, `$lookup` + `$unwind` yields it that number times the accepted records |
| Stages.SelectSelect | src/controllers/like.controller.js:85-92 | two `$match` stages in a row keep exactly what their conjunction keeps |
| Sorting.SortBy | src/controllers/video.controller.js:40-52 | the result is ordered on the key in the requested direction and is a permutation of the input |
| Sorting.SortByMembers | src/controllers/video.controller.js:40-52 | sorting keeps the length and exactly the members |
| Sorting.FlatMapSorted | src/controllers/video.controller.js:40-74 | a join after a sort keeps the sort order |
| Sorting.NewestFirst | src/controllers/tweet.controller.js:105-109 | a descending sort on a timestamp lists the newest first |
| JsText.TrimEmptyIffBlank | src/controllers/video.controller.js:96 | `s.trim() === ""` iff `s` is made only of white space |
| JsText.ParseIntReadsDecimal | src/controllers/video.controller.js:76-78 | `parseInt` reads back a decimal, ignoring leading white space and trailing non-digits, with an optional minus sign |
| JsText.ParseIntNaN | src/controllers/comment.controller.js:80-83 | with no digit after the optional sign ("x", "-x", "+", "--5"), `parseInt` gives NaN |
| Paging.OptionsOf | src/controllers/comment.controller.js:13 | with no `page` and `limit`, the paginator is asked for page 1 of 10 |
| Paging.OptionsReadDecimals | src/controllers/comment.controller.js:80-83 | decimal `page` and `limit` are passed as their numbers |

## Left out

- HTTP handling, `asyncHandler`, and the `ApiResponse` and `ApiError` classes. Only the status, the message and the payload are kept. The `ApiError` default message (used by the like toggles) is written as the empty string.
- Success status codes other than 200 are not carried: 201 for a created tweet or comment is documented on the member only.
- Cloudinary upload and delete. Upload outcomes are inputs (`Option<Upload>`). Deleting the old thumbnail and the video files is not modelled.
- Multer's file handling. Files are given as their local paths.
- Atlas `$search` ranking. Only the set of matching ids is an input; the `$sort` that follows discards the ranking anyway.
- The internals of `aggregatePaginate`. Only the `page` and `limit` options it receives are modelled.
- Tie order of `$sort` and sort stability. The code asks for no secondary key.
- `$dateToParts` in `getChannelVideos`. The sort on the date parts is taken as the order of `createdAt`.
- Which display fields each `$project` keeps.
- The subscriber and subscribed-channel pipelines of `getUserChannelSubscribers` and `getSubscribedChannels`. They are malformed: a bare `$size(...)` call and a `$match` on a raw ObjectId. Only their id checks are modelled.
- Concurrency, including the check-then-act race of the toggles. Handlers run one at a time, under the one-edge-per-pair invariant.
- Floating-point video durations. A duration is a whole number.
- ObjectId text formats. `isValidObjectId` is abstract, and `ObjectId.toString()` is modelled only where the tweet owner check needs it.
- `parseInt` on numbers beyond 2^53. Integers are unbounded here.
- Request values that are not strings, such as a JSON number as a title, which `trim` would reject with a TypeError.
- `src/models`, `src/utils` and the auth middleware are not part of this model. Video schema validation is modelled only as the `ValidationError` for a missing title or description.
- VideoController.IsFieldPath: the server's field-path rule is modelled as non-empty segments, no `$` at the start of a segment and no NUL character. Any server exception for particular `$`-prefixed names is not modelled: every segment that starts with `$` is refused here.
- VideoField: the `updatedAt` timestamp and the `__v` version key are not fields of `Records.Video`, so `sortBy=updatedAt` compares every video as missing and imposes no order here. The Video schema is not part of this model.
- DashboardController.GetChannelVideos: assumes `ApiResponse.success` exists. `src/utils/ApiResponse.js` is not part of this model; if the class has no such static method, the handler throws a TypeError after the aggregation and sends no videos.
- VideoController.DeleteVideoAsWritten: assumes the Video model provides `deleteById`. If it does not, the handler fails before deleting anything.

## Findings

| source | as written | input that shows it | evidently intended | confidence | as-written member | corrected member |
|---|---|---|---|---|---|---|
| src/controllers/video.controller.js:338-344 | `deleteVideo` calls `Like.deleteMany` and `Comment.deleteMany`, but lines 1-7 import neither, so a `ReferenceError` follows the video's deletion | the owner deletes a video that has a like | remove the video and its likes and comments | high, not executed | VideoController.DeleteVideoAsWritten | VideoController.DeleteVideo |
| src/controllers/tweet.controller.js:141 | `tweet.owner.toString() !== req.user?._id` compares a string with an ObjectId, which is always unequal | the owner updates their own tweet | compare `req.user._id.toString()` | high, not executed | TweetController.UpdateTweetAsWritten | TweetController.UpdateTweet |
| src/controllers/tweet.controller.js:170 | the same strict comparison in `deleteTweet` | the owner deletes their own tweet | compare `req.user._id.toString()` | high, not executed | TweetController.DeleteTweetAsWritten | TweetController.DeleteTweet |
| src/controllers/comment.controller.js:15-19 | `Video.findById` is not awaited, so `!video` tests a truthy query object and never raises the 404 | comments of a deleted video (valid id, no video) | a 404 "Invalid VideoID" for a missing video | high, not executed | CommentController.GetVideoCommentsAsWritten | CommentController.GetVideoComments |
| src/controllers/video.controller.js:78 | `limit: parseInt(page, 10)` | `?page=2&limit=5` asks for pages of 2 | `limit: parseInt(limit, 10)` | high, not executed | VideoController.LimitIgnoredAsWritten | VideoController.GetAllVideos |
