# ytlite-backend controllers, modelled in Dafny

This project models the request handlers of a video-sharing backend: playlists, likes,
subscriptions, comments, tweets, videos and the channel dashboard, together with the Video
schema's required fields and defaults. Each handler follows the same short steps. It
validates ids and body fields, looks up its target (404 when absent), compares the owner
with the caller (403), and then either changes the store or runs a read-only aggregation.

Modules, in dependency order:

- `Common`: ids, timestamps, `Option` and `Result`, and how a failure turns into an HTTP
  status. Express answers 500 for anything that is not an `ApiError`. It also holds
  JavaScript's `trim` and the ObjectId syntax check.
- `Documents`: a collection of documents in natural order, plus the operations the
  handlers apply to one:
  - lookup by id (`findById`);
  - replace (`findByIdAndUpdate`);
  - delete (`findByIdAndDelete`);
  - `findOne` on a whole body;
  - the like/subscription toggle, with its lemmas.
- `Listing`: the list endpoints' query defaults and a BSON-ordered stable `$sort`. Its
  sort is proved sorted and a permutation. It also holds the hand-built zero envelope for
  an empty page.
- `Entities`, `VideoModel`, `Store`: the records and the Video schema. The database is a
  class with one sequence field per collection and the media store's set of assets. Its
  `Valid` invariant holds three things:
  - ids are unique;
  - there is at most one like per (user, target) and one subscription per (subscriber,
    channel), and nobody is subscribed to themself;
  - no playlist lists a video twice.
- `Playlists`, `Likes`, `Subscriptions`, `Comments`, `Tweets`, `Videos`, `Dashboard`: one
  module per controller.
  - A handler that writes is a method that `modifies` only the collections it touches. It
    keeps `Valid`, and it states the whole error cascade. Its new state is tied to a pure
    function about which lemmas are proved.
  - A read-only handler is a function over the database. It runs the pipeline as pure
    functions on sequences.
  - A list handler's contract says what is listed. Its page is the paginator's result
    over some order of exactly its rows, sorted on the requested key (`ListsRows`, or
    `PagesRows` for the lists that send back the paginator's page as it is).

These consequences of the code are worth knowing:

- Upload middleware keeps files in memory, so an uploaded file has no `path`. `PublishVideo`
  therefore answers 403 whenever `videoFile` has no path, which means always.
- `UpdateVideo` with a file behaves as follows. It first destroys the old thumbnail. With no
  path, the upload helper returns `null` and the handler answers 500. The record is left
  pointing at the destroyed asset (`FailedThumbnailReplacementDangles`).

## Model

| member | source | states |
|---|---|---|
| Common.TrimIdempotent | src/controllers/playlist.controller.js:20-24 | Trimming a stored, already trimmed name or content again changes nothing |
| Documents.FindUnique | src/controllers/playlist.controller.js:287 | With unique ids, `findById` of a document's own id returns exactly that document |
| Documents.ReplaceSpec | src/controllers/playlist.controller.js:429-437 | `findByIdAndUpdate` on an existing id keeps ids unique and unchanged, makes the lookup return the new document, and leaves every other document at its place |
| Documents.WithoutIds | src/controllers/playlist.controller.js:397 | `findByIdAndDelete` removes exactly that id from the collection's ids |
| Documents.WithoutUnique | src/controllers/comment.controller.js:207 | Deleting by id keeps the ids unique |
| Documents.FilterMembers | src/controllers/like.controller.js:189-194 | A `$match` keeps exactly the documents of the input that satisfy its condition |
| Documents.DocsInCount | src/controllers/playlist.controller.js:79-93 | A `$lookup` on a set of ids finds as many documents as there are ids that resolve |
| Documents.RemoveFirstMembers | src/controllers/like.controller.js:34-37 | `findOneAndDelete` removes only a document with that body, keeps all others, and changes nothing when there is none |
| Documents.RemoveFirstUniqueIds | src/controllers/like.controller.js:34-37 | `findOneAndDelete` keeps ids unique |
| Documents.RemoveFirstUniqueBodies | src/controllers/like.controller.js:34-37 | With one document per body, `findOneAndDelete` keeps that so and leaves none with the deleted body |
| Documents.ToggledSpec | src/controllers/like.controller.js:33-47 | The toggle flips whether a (user, target) like exists, keeps bodies and ids unique, and keeps every document of another body |
| Documents.ToggleTwice | src/controllers/like.controller.js:23-47 | Toggling the same pair twice restores whether it exists, and when it did not exist restores the collection exactly |
| Documents.RemoveAllSpec | src/controllers/playlist.controller.js:356-358 | The `filter` removing one video id keeps every other entry and keeps the list duplicate-free |
| Documents.RemoveAllAt | src/controllers/playlist.controller.js:356-358 | On a duplicate-free list, removing the entry at position k leaves the entries before and after it in their order |
| Documents.AppendThenRemove | src/controllers/playlist.controller.js:307-358 | Removing a freshly pushed id gives back the original list |
| Documents.DistinctCard | src/controllers/playlist.controller.js:79-93 | A duplicate-free list has as many distinct ids as entries |
| Listing.EmptyPagePastTheEnd | src/controllers/playlist.controller.js:140-158 | A page with no documents is answered by the zero envelope echoing page and limit, even when the paginator reports documents in total |
| Listing.OrEmptyPage | src/controllers/like.controller.js:295-313 | An empty page gives totalDocs 0, totalPages 0, both has-flags false and both links null; a non-empty one is passed through |
| Listing.SortRowsSpec | src/controllers/like.controller.js:278-282 | The `$sort` stage returns the rows ordered on the key, ascending or descending, as a permutation of its input |
| Listing.StrLeTrans | src/controllers/like.controller.js:278-282 | String comparison by code unit is transitive, so sorting on a string field is well defined |
| Listing.KeyLeTotal | src/controllers/like.controller.js:278-282 | Any two BSON sort values are comparable |
| Entities.OwnerDetails | src/controllers/comment.controller.js:71-94 | The `$lookup` + `$first` of a user: present exactly when the id resolves, and then that user's id, fullName, username and avatar |
| Entities.OwnerName | src/controllers/playlist.controller.js:212-235 | The same join projected to `{fullName, username}`, as the videos of getPlaylistById carry |
| Entities.FindByUsername | src/controllers/subscriber.controller.js:17-20 | `findOne({username})` finds a user exactly when one has that username |
| VideoModel.CreateVideo | src/models/video.model.js:6-58 | Creation succeeds exactly when both parts of both assets, title, description and duration are set; views is 0, isPublished and isPublic true |
| VideoModel.EachRequiredPathIsRequired | src/models/video.model.js:6-38 | Leaving out the title, the duration, a public_id or a url, or sending an empty description, fails creation |
| Playlists.CreatePlaylist | src/controllers/playlist.controller.js:13-25 | 400 for a blank name, then for a blank description; otherwise the trimmed name and description with the caller as owner and no videos are appended |
| Playlists.AddVideoToPlaylist | src/controllers/playlist.controller.js:280-313 | 400 for either id, 404 playlist, 403 owner, 404 video, 400 already listed in that order; on success the id is appended, the list stays duplicate-free, and the store is unchanged on every error |
| Playlists.WithVideoSpec | src/controllers/playlist.controller.js:307-308 | An add appends the id at the end, keeps earlier entries and keeps the list duplicate-free |
| Playlists.RemoveVideoFromPlaylist | src/controllers/playlist.controller.js:341-359 | 400 when the id is not listed, without checking the video exists; otherwise exactly that entry is removed |
| Playlists.WithoutVideoSpec | src/controllers/playlist.controller.js:356-359 | Removing the entry at position k keeps the other entries in their relative order and keeps the list duplicate-free |
| Playlists.AddThenRemoveRestores | src/controllers/playlist.controller.js:307-359 | Adding an id and removing it again restores the playlist, apart from its update time |
| Playlists.DeletePlaylist | src/controllers/playlist.controller.js:389-397 | 400, 404, then 403 for a non-owner with the playlist kept; the owner's delete removes exactly that playlist |
| Playlists.UpdatedPlaylist | src/controllers/playlist.controller.js:429-437 | Only the fields supplied are overwritten, trimmed; owner, videos and creation time are untouched |
| Playlists.UpdatePlaylist | src/controllers/playlist.controller.js:413-440 | 400 for a bad id, 400 when neither field is given, a TypeError (500) for a missing playlist, 403 for a non-owner |
| Playlists.ResolvingIdsSpec | src/controllers/playlist.controller.js:79-93 | The ids that still resolve are exactly the listed ids that name an existing video, without duplicates |
| Playlists.VideoCountIsResolvingEntries | src/controllers/playlist.controller.js:79-114 | videoCount equals the number of listed ids that still resolve to a video |
| Playlists.PopulateKeepsListOrder | src/controllers/playlist.controller.js:310-313 | Populating a playlist keeps its list order and drops the ids that no longer resolve |
| Playlists.UserPlaylistRowsSpec | src/controllers/playlist.controller.js:57-127 | One row per playlist of the user and no other rows, each with its videoCount (the listed ids that still resolve) and the owner's `{fullName, username, avatar}` when the owner exists |
| Playlists.GetUserPlaylists | src/controllers/playlist.controller.js:38-158 | 400 for a bad id, 404 for an unknown user, Ok exactly otherwise; the page is the paginator's over the user's rows sorted on `sortBy` (ascending only for "asc") as a permutation, with the zero envelope for an empty page |
| Playlists.GetPlaylistById | src/controllers/playlist.controller.js:165-274 | 400, 404, Ok exactly for an existing playlist; the playlist's own fields, its owner's details, and videos that are exactly the listed ones still in the collection, one per resolving id, counted by videoCount |
| Playlists.PlaylistVideosSpec | src/controllers/playlist.controller.js:199-243 | The `$lookup` of the listed ids yields every listed video that exists and nothing else, one per resolving id on a distinct list |
| Likes.ToggleLike | src/controllers/like.controller.js:23-47 | The like collection becomes the toggle of the old one; isLiked is true exactly when no like existed before |
| Likes.ToggleVideoLike | src/controllers/like.controller.js:10-62 | 400 for a bad id, then 404 for a missing video, before any like is read, writing nothing on error; otherwise the toggle |
| Likes.ToggleCommentLike | src/controllers/like.controller.js:64-119 | The same for a comment |
| Likes.ToggleTweetLike | src/controllers/like.controller.js:121-173 | The same for a tweet |
| Likes.LikeToggleIsolated | src/controllers/like.controller.js:23-137 | Likes of other users, targets and target kinds are unaffected; toggling twice restores the like state |
| Likes.LikedVideoRowsSpec | src/controllers/like.controller.js:189-276 | One row per video like of the caller whose video still exists, and no other rows |
| Likes.GetLikedVideos | src/controllers/like.controller.js:177-313 | The page is the paginator's over the caller's rows sorted on `sortBy` (default createdAt, ascending only for "asc") as a permutation; an empty page gives the zero envelope |
| Subscriptions.ToggleSubscription | src/controllers/subscriber.controller.js:8-66 | 400 for a blank username, 404 for an unknown channel and 400 for subscribing to oneself, all without a write; otherwise the toggle, with subscribed true exactly when no subscription existed |
| Subscriptions.SubscriptionToggleIsolated | src/controllers/subscriber.controller.js:27-48 | Other pairs are unaffected; toggling twice restores the state, exactly when the pair was absent |
| Subscriptions.SubscriptionRowsSpec | src/controllers/subscriber.controller.js:96-243 | The rows are exactly the subscriptions on the target's side, each with the other side's details and subscribedAt, as many as there are such subscriptions |
| Subscriptions.NamedUser | src/controllers/subscriber.controller.js:81-88 | 400 for a blank username, 404 for an unknown one, otherwise that user |
| Subscriptions.GetUserChannelSubscribers | src/controllers/subscriber.controller.js:69-172 | The username errors pass through; a known user always gets the paginator's page over the channel's subscriber rows sorted on `sortBy` as a permutation |
| Subscriptions.GetSubscribedChannels | src/controllers/subscriber.controller.js:175-277 | The same for the channels a user subscribes to |
| Subscriptions.SubscriptionListsPassPageThrough | src/controllers/subscriber.controller.js:157-276 | Neither list special-cases an empty page: the paginator's result is returned as is |
| Subscriptions.DefaultSortIgnoresTime | src/controllers/subscriber.controller.js:141-146 | With the default `sortBy` the rows keep pipeline order, because the projected rows have no createdAt |
| Subscriptions.DefaultSortCounterexample | src/controllers/subscriber.controller.js:141-146 | Two rows subscribed at times 1 and 2 stay oldest first under the default "newest first" sort |
| Subscriptions.IntendedDefaultSortIsNewestFirst | src/controllers/subscriber.controller.js:141-146 | Sorting the default on subscribedAt orders the rows newest first |
| Comments.AddComment | src/controllers/comment.controller.js:13-31 | 400 for a bad video id, 400 for blank content, 404 for a missing video; otherwise the trimmed content with the video id and the caller as owner is appended |
| Comments.OwnComment | src/controllers/comment.controller.js:161-168 | 400 for a bad id, 404 when absent, 403 exactly when the caller is not the owner, Ok exactly when a present comment is the caller's |
| Comments.UpdateComment | src/controllers/comment.controller.js:154-178 | The checks above in that order; on success only the content changes, trimmed |
| Comments.DeleteComment | src/controllers/comment.controller.js:194-207 | The guard, then exactly that comment is removed |
| Comments.DeleteKeepsOthers | src/controllers/comment.controller.js:194-207 | Every other comment stays; nothing is added |
| Comments.VideoCommentRowsSpec | src/controllers/comment.controller.js:65-106 | One row per comment on the video and no other rows, each with its owner's details |
| Comments.GetVideoComments | src/controllers/comment.controller.js:42-148 | 400, 404, Ok exactly otherwise; the page is the paginator's over the video's rows sorted on `sortBy` as a permutation, with the zero envelope for an empty page |
| Tweets.CreateTweet | src/controllers/tweet.controller.js:8-28 | The trimmed content is appended with the caller as owner; a missing content ends in 500 |
| Tweets.ValidateTweetDetails | src/controllers/tweet.controller.js:115-124 | 400 for a bad id, 404 when absent, 403 exactly when the caller is not the owner, Ok exactly when a present tweet is the caller's |
| Tweets.DeleteTweet | src/controllers/tweet.controller.js:126-137 | The guard, then exactly that tweet is removed |
| Tweets.UpdatedTweet | src/controllers/tweet.controller.js:144-154 | The content is set exactly as sent, untrimmed, or kept when undefined; the owner is unchanged |
| Tweets.UpdateTweet | src/controllers/tweet.controller.js:139-160 | The guard, then only that tweet is replaced by its update |
| Tweets.GetOneTweet | src/controllers/tweet.controller.js:162-175 | 400 for a bad id; for a valid id Ok exactly when the tweet exists, with its owner populated |
| Tweets.TweetRowsSpec | src/controllers/tweet.controller.js:44-83 | One row per tweet of the user and no other rows, with content, owner details and both timestamps |
| Tweets.GetUserTweets | src/controllers/tweet.controller.js:30-113 | 400 for a blank username and also 400 for an unknown one; 404 when the page is empty; a returned page is never empty |
| Tweets.UserTweetsByCreation | src/controllers/tweet.controller.js:94-97 | The paginator receives the user's rows by createdAt, ascending only for "asc", as a permutation |
| Videos.ValidateFileType | src/controllers/video.controller.js:8-20 | 400 for a missing file; "video" needs a mimetype starting with "video/", any other expected type one starting with "image/" |
| Videos.ValidateVideoDetails | src/controllers/video.controller.js:22-42 | 400 for a missing or malformed id, 404 when absent, 403 exactly when the caller is not the owner, Ok exactly when a present video is the caller's |
| Videos.PublishVideo | src/controllers/video.controller.js:49-123 | 403, 403, then the type checks before any upload. A failed thumbnail upload keeps the video asset. Once both uploads complete, Ok exactly when the schema accepts the record: a rejected record gives 500 after the as-written compensation, and success appends the record and adds both assets |
| Videos.CompensationAsWritten | src/controllers/video.controller.js:111-122 | Both public_ids are destroyed as images |
| Videos.CompensationLeavesVideoAsset | src/controllers/video.controller.js:111-116 | After the compensation the uploaded video asset is still in the media store |
| Videos.IntendedCompensationRestores | src/controllers/video.controller.js:111-122 | Destroying the video file as a video undoes both uploads exactly |
| Videos.UploadThenDestroyRestores | src/utils/cloudinary.js:12-50 | Destroying the public_id an upload answered with, under the resource type it was uploaded as, restores the media store |
| Videos.DestroyTwice | src/utils/cloudinary.js:36-50 | A second deletion of the same asset changes nothing |
| Videos.GetVideoById | src/controllers/video.controller.js:125-139 | 400 only for an empty id, a cast error (500) for a malformed one, 404 when absent, otherwise the video with its owner |
| Videos.DeleteVideo | src/controllers/video.controller.js:141-154 | The guard, then both assets are destroyed with their own resource types and the record is removed |
| Videos.UpdatedVideo | src/controllers/video.controller.js:163-200 | title and description as sent or kept when undefined, the thumbnail only when replaced; every other field unchanged |
| Videos.UpdateVideo | src/controllers/video.controller.js:156-212 | The guard; without a file only the `$set`; with one, 400 for a non-image, then the old thumbnail is destroyed (a failure swallowed), then a missing path or incomplete upload is a 500 that leaves the record unchanged |
| Videos.FailedThumbnailReplacementDangles | src/controllers/video.controller.js:174-190 | Once the old thumbnail is destroyed, the media store no longer holds the asset the record still names |
| Videos.PublishToggled | src/controllers/video.controller.js:219-227 | isPublished is negated and nothing else in the record changes |
| Videos.PublishToggledTwice | src/controllers/video.controller.js:219-227 | Toggling twice restores the video, apart from its update time |
| Videos.TogglePublishStatus | src/controllers/video.controller.js:214-240 | The guard, then only that video is replaced by its toggle |
| Dashboard.GetChannelStats | src/controllers/dashboard.controller.js:8-119 | 400 for a malformed id, 404 for an unknown channel, otherwise Ok with exactly the `$group` fold over the unwound rows, which the StatsFold lemmas describe |
| Dashboard.StatsRowsShape | src/controllers/dashboard.controller.js:45-112 | Exactly one row without a video for a channel without videos; otherwise one row per (video, comment) pair plus one per video without comments; never none, so the 500 is unreachable |
| Dashboard.StatsFoldPerRow | src/controllers/dashboard.controller.js:86-92 | totalSubscribers is the subscriber count times the rows, equal to it only for a single row; totalVideos counts the rows carrying a video |
| Dashboard.StatsCountPerComment | src/controllers/dashboard.controller.js:70-93 | For one video with k ≥ 2 comments, totalVideos is k, totalViews k times the views, totalSubscribers k times the count |
| Dashboard.StatsCountStrangersLikes | src/controllers/dashboard.controller.js:52-105 | A channel without videos is credited with every like whose video field is missing and again with every like whose comment field is missing; a tweet like anywhere counts twice |
| Dashboard.IntendedChannelStats | src/controllers/dashboard.controller.js:86-107 | One count per subscriber and per video, and no likes for a channel without videos |
| Dashboard.IntendedAgreesOnSingleRow | src/controllers/dashboard.controller.js:86-107 | With one video carrying one comment, the fold as written gives the intended statistics |
| Dashboard.ChannelVideoRowsSpec | src/controllers/dashboard.controller.js:145-201 | One row per channel video selected (on isPublished only when it is given) and no other rows |
| Dashboard.PublishedStatusExamples | src/controllers/dashboard.controller.js:151-152 | Any casing of "true" selects published videos; "1", "yes" and "false" select unpublished ones |
| Dashboard.GetChannelVideos | src/controllers/dashboard.controller.js:121-243 | 400, 404, Ok exactly for a known channel; the page is the paginator's over the selected rows sorted on `sortBy` as a permutation, with the zero envelope for an empty page |

## Left out

- The paging library (`aggregatePaginate`) is a parameter. Page slicing, `totalPages` and the `Number(page)` coercion are not modelled. Neither is the position of the sort the tweet list passes in its options: the model sorts before paging.
- MongoDB itself is reduced to in-memory sequences. This has several consequences:
  - Ids are compared as exact strings.
  - `isValidObjectId`'s acceptance of 12-character strings is not modelled, nor is the casing of hex digits.
  - Sorting on an embedded document treats all such values as equal.
  - Dotted sort paths are not modelled.
  - The order among equal sort keys is the pipeline order.
- Collections are sequences in insertion order rather than maps keyed by id. Unique ids are an invariant of `Database.Valid`.
- Failures of the database itself, such as a `findByIdAndDelete` that finds nothing after a successful lookup, are not modelled. The 500 branches for them are unreachable here.
- The media store SDK is reduced to a set of (resource type, public_id) assets. An upload's answer is a parameter. Deletions are assumed to succeed, except the swallowed one in updateVideo, whose outcome is a parameter.
- The upload helper's own argument handling (src/utils/cloudinary.js:11-33) is not part of this model, apart from returning nothing for a missing path.
- The User, Tweet, Comment, Like and Playlist schemas are not part of this model. Their records follow the fields the controllers read and write.
- `toLowerCase` is modelled for ASCII letters only.
- `getAllVideos` is an empty stub and is not modelled. The user controller is not part of this model.
- Response messages, success status codes, logging and the check-then-act races between concurrent requests are out of scope. Each request is one atomic step.
- Tweets.UserTweetsIgnoreSortBy: proved without proof steps, since `sortBy` never reaches the tweet list.
- Common.TrimEmptyIffWhitespace states a fact Dafny proves from the trim functions' own contracts.

## Findings

| source | as written | input that shows it | evidently intended | confidence | as-written member | corrected member |
|---|---|---|---|---|---|---|
| src/controllers/dashboard.controller.js:45-107 | `$group` sums over the rows left by two `$unwind` stages. Lookups on a missing `videos._id` / `comments._id` match every like without that field | One video with two comments: totalVideos 2, views and subscribers doubled. A channel without videos and a tweet like anywhere: totalLikes ≥ 2 | Each subscriber, video and view counted once; only likes of the channel's videos and their comments | not executed | Dashboard.StatsCountPerComment | Dashboard.IntendedAgreesOnSingleRow |
| src/controllers/video.controller.js:111-116 | The compensation calls `deleteOnCloudinary(videoFileResponse.public_id)` with the default resource type "image" | A schema rejection after both uploads: the video asset under that public_id stays | Destroy the video file with resource type "video" | not executed | Videos.CompensationLeavesVideoAsset | Videos.IntendedCompensationRestores |
| src/controllers/subscriber.controller.js:141-146 | The default `sortBy` is "createdAt", a field the projected rows do not carry | Subscriptions at times 1 and 2 come back oldest first under the default descending sort | Sort on `subscribedAt`, newest first | not executed | Subscriptions.DefaultSortCounterexample | Subscriptions.IntendedDefaultSortIsNewestFirst |
