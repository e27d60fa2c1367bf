/** The like handlers: one toggle per target kind (video, comment, tweet) and the
    caller's liked-videos list. */
module Likes {
  import opened Common
  import opened Documents
  import opened Entities
  import opened Store
  import opened Listing

  /** `{ isLiked, like }`: the new state and the like document created or deleted. */
  datatype LikeReply = LikeReply(isLiked: bool, like: Doc<Like>)

  /** The toggle itself, once the target is known to exist: `findOne`, then
      `findOneAndDelete` of the like found or `create` of a new one. */
  method ToggleLike(db: Database, key: Like, newId: Id, now: Time) returns (reply: LikeReply)
    requires db.Valid() && FreshId(db.likes, newId)
    modifies db`likes
    ensures db.Valid()
    ensures db.likes == Toggled(old(db.likes), key, newId, now)
    ensures reply.isLiked == !Present(old(db.likes), key)
    ensures reply.like.body == key && (reply.isLiked <==> reply.like in db.likes)
    ensures Present(db.likes, key) == reply.isLiked
  {
    ToggledSpec(db.likes, key, newId, now);
    var existing := FirstWith(db.likes, key);
    if existing.Some? {
      db.likes := RemoveFirst(db.likes, key);
      reply := LikeReply(false, existing.value);
    } else {
      var like := Doc(newId, now, now, key);
      db.likes := db.likes + [like];
      reply := LikeReply(true, like);
    }
  }

  /** toggleVideoLike: 400 for a bad id, 404 for a missing video, both before the likes
      are read; otherwise the caller's like of that video is toggled. */
  method ToggleVideoLike(db: Database, caller: Id, videoId: string, newId: Id, now: Time)
    returns (r: Result<LikeReply>)
    requires db.Valid() && FreshId(db.likes, newId)
    modifies db`likes
    ensures db.Valid()
    ensures !IsValidObjectId(videoId) ==> r == Err(ApiError(BAD_REQUEST))
    ensures IsValidObjectId(videoId) && videoId !in IdsOf(db.videos) ==> r == Err(ApiError(NOT_FOUND))
    ensures r.Err? ==> db.likes == old(db.likes)
    ensures IsValidObjectId(videoId) && videoId in IdsOf(db.videos) ==>
      r.Ok? && r.value.isLiked == !Present(old(db.likes), Like(caller, OnVideo(videoId)))
      && db.likes == Toggled(old(db.likes), Like(caller, OnVideo(videoId)), newId, now)
  {
    if !IsValidObjectId(videoId) {
      return Err(ApiError(BAD_REQUEST));
    }
    if Find(db.videos, videoId).None? {
      return Err(ApiError(NOT_FOUND));
    }
    var reply := ToggleLike(db, Like(caller, OnVideo(videoId)), newId, now);
    r := Ok(reply);
  }

  /** toggleCommentLike: the same guard against the comment collection. */
  method ToggleCommentLike(db: Database, caller: Id, commentId: string, newId: Id, now: Time)
    returns (r: Result<LikeReply>)
    requires db.Valid() && FreshId(db.likes, newId)
    modifies db`likes
    ensures db.Valid()
    ensures !IsValidObjectId(commentId) ==> r == Err(ApiError(BAD_REQUEST))
    ensures IsValidObjectId(commentId) && commentId !in IdsOf(db.comments) ==> r == Err(ApiError(NOT_FOUND))
    ensures r.Err? ==> db.likes == old(db.likes)
    ensures IsValidObjectId(commentId) && commentId in IdsOf(db.comments) ==>
      r.Ok? && r.value.isLiked == !Present(old(db.likes), Like(caller, OnComment(commentId)))
      && db.likes == Toggled(old(db.likes), Like(caller, OnComment(commentId)), newId, now)
  {
    if !IsValidObjectId(commentId) {
      return Err(ApiError(BAD_REQUEST));
    }
    if Find(db.comments, commentId).None? {
      return Err(ApiError(NOT_FOUND));
    }
    var reply := ToggleLike(db, Like(caller, OnComment(commentId)), newId, now);
    r := Ok(reply);
  }

  /** toggleTweetLike: the same guard against the tweet collection. */
  method ToggleTweetLike(db: Database, caller: Id, tweetId: string, newId: Id, now: Time)
    returns (r: Result<LikeReply>)
    requires db.Valid() && FreshId(db.likes, newId)
    modifies db`likes
    ensures db.Valid()
    ensures !IsValidObjectId(tweetId) ==> r == Err(ApiError(BAD_REQUEST))
    ensures IsValidObjectId(tweetId) && tweetId !in IdsOf(db.tweets) ==> r == Err(ApiError(NOT_FOUND))
    ensures r.Err? ==> db.likes == old(db.likes)
    ensures IsValidObjectId(tweetId) && tweetId in IdsOf(db.tweets) ==>
      r.Ok? && r.value.isLiked == !Present(old(db.likes), Like(caller, OnTweet(tweetId)))
      && db.likes == Toggled(old(db.likes), Like(caller, OnTweet(tweetId)), newId, now)
  {
    if !IsValidObjectId(tweetId) {
      return Err(ApiError(BAD_REQUEST));
    }
    if Find(db.tweets, tweetId).None? {
      return Err(ApiError(NOT_FOUND));
    }
    var reply := ToggleLike(db, Like(caller, OnTweet(tweetId)), newId, now);
    r := Ok(reply);
  }

  /** Toggling one (user, target) pair flips that pair only: every like of another user,
      another target or another target kind is kept or absent exactly as before, and two
      toggles restore the pair's state. */
  lemma LikeToggleIsolated(likes: seq<Doc<Like>>, key: Like, other: Doc<Like>,
                           id1: Id, t1: Time, id2: Id, t2: Time)
    requires UniqueBodies(likes) && UniqueIds(likes) && id1 !in IdsOf(likes)
    requires other.body.likedBy != key.likedBy || other.body.target != key.target
    ensures other in Toggled(likes, key, id1, t1) <==> other in likes
    ensures Present(Toggled(Toggled(likes, key, id1, t1), key, id2, t2), key) == Present(likes, key)
  {
    ToggledSpec(likes, key, id1, t1);
    ToggleTwice(likes, key, id1, t1, id2, t2);
  }

  // ---------------------------------------------------------------------------
  // getLikedVideos

  /** A row of the liked-videos list: the video's fields, its owner, when the caller
      liked it and when it was created. */
  datatype LikedVideoRow = LikedVideoRow(id: Id, thumbnail: Asset, videoFile: Asset, title: string,
                                         description: string, duration: int, views: int,
                                         isPublished: bool, owner: Id,
                                         videoOwnerDetails: Option<UserSummary>,
                                         likedAt: Time, createdAt: Time)

  function LikedRowOf(users: seq<Doc<User>>, v: Doc<Video>, l: Doc<Like>): LikedVideoRow {
    LikedVideoRow(v.id, v.body.thumbnail, v.body.videoFile, v.body.title, v.body.description,
                  v.body.duration, v.body.views, v.body.isPublished, v.body.owner,
                  OwnerDetails(users, v.body.owner), l.createdAt, v.createdAt)
  }

  /** The pipeline before `$sort`: the caller's likes with a `video` field, joined with
      their video (dropped when it no longer exists), then with the video's owner. */
  function LikedVideoRows(users: seq<Doc<User>>, videos: seq<Doc<Video>>, likes: seq<Doc<Like>>,
                          caller: Id): (rows: seq<LikedVideoRow>)
    ensures |rows| <= |likes|
  {
    if likes == [] then []
    else
      var l := likes[0];
      var here :=
        if l.body.likedBy == caller && l.body.target.OnVideo? then
          match Find(videos, l.body.target.video)
          case None => []
          case Some(v) => [LikedRowOf(users, v, l)]
        else [];
      here + LikedVideoRows(users, videos, likes[1..], caller)
  }

  /** Every row comes from one of the caller's video likes whose video still exists;
      every such like gives its row. */
  lemma {:induction false} LikedVideoRowsSpec(users: seq<Doc<User>>, videos: seq<Doc<Video>>,
                                              likes: seq<Doc<Like>>, caller: Id)
    ensures forall row :: row in LikedVideoRows(users, videos, likes, caller) ==>
      exists l, v :: l in likes && v in videos && l.body == Like(caller, OnVideo(v.id))
        && row == LikedRowOf(users, v, l)
    ensures forall l :: (l in likes && l.body.likedBy == caller && l.body.target.OnVideo?
                         && l.body.target.video in IdsOf(videos)) ==>
      LikedRowOf(users, Find(videos, l.body.target.video).value, l) in LikedVideoRows(users, videos, likes, caller)
    ensures |LikedVideoRows(users, videos, likes, caller)| == |Filter(likes, (l: Doc<Like>) =>
      l.body.likedBy == caller && l.body.target.OnVideo? && l.body.target.video in IdsOf(videos))|
  {
    if likes != [] {
      LikedVideoRowsSpec(users, videos, likes[1..], caller);
      assert likes == [likes[0]] + likes[1..];
    }
  }

  function LikedVideoKey(field: string): LikedVideoRow -> SortKey {
    (row: LikedVideoRow) =>
      if field == "_id" then Oid(row.id)
      else if field == "thumbnail" || field == "videoFile" then Object
      else if field == "title" then Text(row.title)
      else if field == "description" then Text(row.description)
      else if field == "duration" then Num(row.duration)
      else if field == "views" then Num(row.views)
      else if field == "isPublished" then Flag(row.isPublished)
      else if field == "owner" then Oid(row.owner)
      else if field == "videoOwnerDetails" then (if row.videoOwnerDetails.Some? then Object else Absent)
      else if field == "likedAt" then Date(row.likedAt)
      else if field == "createdAt" then Date(row.createdAt)
      else Absent
  }

  /** getLikedVideos: the caller's liked videos sorted on `sortBy`, paged, with the zero
      envelope for an empty page. */
  function GetLikedVideos(db: Database, caller: Id, q: ListQuery,
                          paginate: Paginator<LikedVideoRow>): (r: Page<LikedVideoRow>)
    reads db
    ensures ListsRows(r, LikedVideoRows(db.users, db.videos, db.likes, caller), LikedVideoKey(SortField(q)), q, paginate)
    ensures r.docs == [] ==> r == EmptyPage(PageNumber(q), LimitNumber(q))
  {
    var rows := LikedVideoRows(db.users, db.videos, db.likes, caller);
    var sorted := SortRows(rows, LikedVideoKey(SortField(q)), Ascending(q));
    SortedPageListsRows(rows, LikedVideoKey(SortField(q)), q, paginate);
    OrEmptyPage(paginate(sorted, PageNumber(q), LimitNumber(q)), PageNumber(q), LimitNumber(q))
  }
}
