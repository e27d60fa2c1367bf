/** The dashboard handlers: a channel's statistics, computed by one aggregation whose two
    `$unwind` stages multiply rows before a `$group` sums over them, and a channel's
    video list. */
module Dashboard {
  import opened Common
  import opened Documents
  import opened Entities
  import opened Store
  import opened Listing

  // ---------------------------------------------------------------------------
  // getChannelStats: the rows before `$group`

  /** The likes a `$lookup` on `video` finds for a row. For a row without a video the
      local field is missing, and MongoDB matches it against every like whose `video`
      field is missing too: every like of a comment or a tweet. */
  function VideoLikeCount(likes: seq<Doc<Like>>, video: Option<Id>): (n: nat)
    ensures n <= |likes|
  {
    if likes == [] then 0
    else
      var t := likes[0].body.target;
      (if (video.Some? && t == OnVideo(video.value)) || (video.None? && !t.OnVideo?) then 1 else 0)
      + VideoLikeCount(likes[1..], video)
  }

  /** The same for the `$lookup` on `comment`: a row without a comment matches every like
      of a video or a tweet. */
  function CommentLikeCount(likes: seq<Doc<Like>>, comment: Option<Id>): (n: nat)
    ensures n <= |likes|
  {
    if likes == [] then 0
    else
      var t := likes[0].body.target;
      (if (comment.Some? && t == OnComment(comment.value)) || (comment.None? && !t.OnComment?) then 1 else 0)
      + CommentLikeCount(likes[1..], comment)
  }

  /** One document after the second `$unwind` and the last `$lookup`: the video and the
      comment it carries (if any) and the sizes of the two like arrays. */
  datatype StatsRow = StatsRow(video: Option<Doc<Video>>, videoLikes: nat, comment: Option<Id>, commentLikes: nat)

  function ChannelVideos(videos: seq<Doc<Video>>, channel: Id): seq<Doc<Video>> {
    Filter(videos, (v: Doc<Video>) => v.body.owner == channel)
  }

  function CommentsOn(comments: seq<Doc<Comment>>, video: Id): seq<Doc<Comment>> {
    Filter(comments, (c: Doc<Comment>) => c.body.video == video)
  }

  function Max1(n: nat): nat { if n == 0 then 1 else n }

  /** The rows one video unwinds into: one per comment on it, or a single row without a
      comment when it has none. */
  function VideoRows(v: Doc<Video>, comments: seq<Doc<Comment>>, likes: seq<Doc<Like>>): (rows: seq<StatsRow>)
    ensures |rows| == Max1(|CommentsOn(comments, v.id)|)
    ensures forall i :: 0 <= i < |rows| ==> rows[i].video == Some(v)
  {
    var cs := CommentsOn(comments, v.id);
    var vl := VideoLikeCount(likes, Some(v.id));
    if cs == [] then [StatsRow(Some(v), vl, None, CommentLikeCount(likes, None))]
    else seq(|cs|, i requires 0 <= i < |cs| => StatsRow(Some(v), vl, Some(cs[i].id), CommentLikeCount(likes, Some(cs[i].id))))
  }

  function UnwoundRows(vs: seq<Doc<Video>>, comments: seq<Doc<Comment>>, likes: seq<Doc<Like>>): seq<StatsRow> {
    if vs == [] then [] else VideoRows(vs[0], comments, likes) + UnwoundRows(vs[1..], comments, likes)
  }

  /** The number of rows the channel's videos unwind into. */
  function RowCount(vs: seq<Doc<Video>>, comments: seq<Doc<Comment>>): nat {
    if vs == [] then 0 else Max1(|CommentsOn(comments, vs[0].id)|) + RowCount(vs[1..], comments)
  }

  /** The pipeline up to `$group`. A channel without videos still yields one row (the
      first `$unwind` preserves it); that row has no video, hence no comments. */
  function StatsRows(videos: seq<Doc<Video>>, comments: seq<Doc<Comment>>, likes: seq<Doc<Like>>,
                     channel: Id): (rows: seq<StatsRow>)
  {
    var vs := ChannelVideos(videos, channel);
    if vs == [] then [StatsRow(None, VideoLikeCount(likes, None), None, CommentLikeCount(likes, None))]
    else UnwoundRows(vs, comments, likes)
  }

  lemma {:induction false} UnwoundRowsShape(vs: seq<Doc<Video>>, comments: seq<Doc<Comment>>, likes: seq<Doc<Like>>)
    ensures |UnwoundRows(vs, comments, likes)| == RowCount(vs, comments)
    ensures forall r :: r in UnwoundRows(vs, comments, likes) ==> r.video.Some? && r.video.value in vs
  {
    if vs != [] {
      UnwoundRowsShape(vs[1..], comments, likes);
      var head := VideoRows(vs[0], comments, likes);
      forall r | r in head ensures r.video == Some(vs[0]) {
        var i :| 0 <= i < |head| && head[i] == r;
      }
    }
  }

  /** The rows: exactly one, without a video, for a channel without videos; otherwise
      one per (video, comment) pair plus one per video without comments, each carrying
      one of the channel's videos. Never none, so the 500 for an empty result is never
      reached. */
  lemma StatsRowsShape(videos: seq<Doc<Video>>, comments: seq<Doc<Comment>>, likes: seq<Doc<Like>>, channel: Id)
    ensures var rows := StatsRows(videos, comments, likes, channel);
      var vs := ChannelVideos(videos, channel);
      && |rows| >= 1
      && (vs == [] ==> |rows| == 1 && rows[0].video.None? && rows[0].comment.None?)
      && (vs != [] ==> |rows| == RowCount(vs, comments) && forall r :: r in rows ==> r.video.Some? && r.video.value.body.owner == channel)
  {
    var vs := ChannelVideos(videos, channel);
    if vs != [] {
      UnwoundRowsShape(vs, comments, likes);
      FilterMembers(videos, (v: Doc<Video>) => v.body.owner == channel);
      RowCountPositive(vs, comments);
    }
  }

  lemma {:induction false} RowCountPositive(vs: seq<Doc<Video>>, comments: seq<Doc<Comment>>)
    ensures RowCount(vs, comments) >= |vs|
  {
    if vs != [] {
      RowCountPositive(vs[1..], comments);
    }
  }

  // ---------------------------------------------------------------------------
  // getChannelStats: `$group` and `$project`

  datatype ChannelStats = ChannelStats(totalSubscribers: int, totalVideos: int, totalViews: int, totalLikes: int)

  function Sum(rows: seq<StatsRow>, f: StatsRow -> int): int {
    if rows == [] then 0 else f(rows[0]) + Sum(rows[1..], f)
  }

  function HasVideo(r: StatsRow): int { if r.video.Some? then 1 else 0 }
  /** `$sum: "$videos.views"` ignores rows without the field, and `$ifNull` then turns a
      missing total into 0: both come to adding 0. */
  function RowViews(r: StatsRow): int { if r.video.Some? then r.video.value.body.views else 0 }
  function RowVideoLikes(r: StatsRow): int { r.videoLikes }
  function RowCommentLikes(r: StatsRow): int { r.commentLikes }

  /** The `$group` over the rows and the `$project` after it, as written. */
  function StatsFold(rows: seq<StatsRow>, subscribers: nat): ChannelStats {
    ChannelStats(Sum(rows, (r: StatsRow) => subscribers), Sum(rows, HasVideo), Sum(rows, RowViews),
                 Sum(rows, RowVideoLikes) + Sum(rows, RowCommentLikes))
  }

  lemma {:induction false} SumConst(rows: seq<StatsRow>, f: StatsRow -> int, k: int)
    requires forall r :: r in rows ==> f(r) == k
    ensures Sum(rows, f) == |rows| * k
  {
    if rows != [] {
      SumConst(rows[1..], f, k);
      assert rows[0] in rows;
    }
  }

  lemma SumSingle(r: StatsRow, f: StatsRow -> int)
    ensures Sum([r], f) == f(r)
  {
    assert [r][1..] == [];
  }

  function SubscriberCount(subscriptions: seq<Doc<Subscription>>, channel: Id): nat {
    |Filter(subscriptions, (s: Doc<Subscription>) => s.body.channel == channel)|
  }

  /** getChannelStats: 400 for a malformed id, 404 for an unknown channel, otherwise the
      fold over the unwound rows. */
  function GetChannelStats(db: Database, channelId: string): (r: Result<ChannelStats>)
    reads db
    ensures !IsValidObjectId(channelId) ==> r == Err(ApiError(BAD_REQUEST))
    ensures IsValidObjectId(channelId) ==> (r.Ok? <==> channelId in IdsOf(db.users))
    ensures r.Err? ==> r.error.ApiError? && r.error.status in {BAD_REQUEST, NOT_FOUND}
    ensures r.Ok? ==> r.value == StatsFold(StatsRows(db.videos, db.comments, db.likes, channelId),
                                           SubscriberCount(db.subscriptions, channelId))
  {
    if channelId == "" || !IsValidObjectId(channelId) then Err(ApiError(BAD_REQUEST))
    else if Find(db.users, channelId).None? then Err(ApiError(NOT_FOUND))
    else Ok(StatsFold(StatsRows(db.videos, db.comments, db.likes, channelId),
                      SubscriberCount(db.subscriptions, channelId)))
  }

  /** As written, the subscriber count is added once per row, and every row of a
      channel with videos counts as a video. */
  lemma StatsFoldPerRow(videos: seq<Doc<Video>>, comments: seq<Doc<Comment>>, likes: seq<Doc<Like>>,
                        channel: Id, subscribers: nat)
    ensures var rows := StatsRows(videos, comments, likes, channel);
      var stats := StatsFold(rows, subscribers);
      && stats.totalSubscribers == |rows| * subscribers
      && stats.totalVideos == (if ChannelVideos(videos, channel) == [] then 0 else |rows|)
      && (stats.totalSubscribers == subscribers <==> |rows| == 1 || subscribers == 0)
  {
    var rows := StatsRows(videos, comments, likes, channel);
    StatsRowsShape(videos, comments, likes, channel);
    SumConst(rows, (r: StatsRow) => subscribers, subscribers);
    if ChannelVideos(videos, channel) == [] {
      SumConst(rows, HasVideo, 0);
    } else {
      SumConst(rows, HasVideo, 1);
    }
    ProductIsFactor(|rows|, subscribers);
  }

  lemma ProductIsFactor(n: nat, m: nat)
    ensures n * m == m <==> n == 1 || m == 0
  {
    if n * m == m && m != 0 {
      assert (n - 1) * m == n * m - m;
      assert (n - 1) * m == 0;
    }
  }

  // ---------------------------------------------------------------------------
  // The statistics the dashboard evidently means

  function TotalViews(vs: seq<Doc<Video>>): int {
    if vs == [] then 0 else vs[0].body.views + TotalViews(vs[1..])
  }

  function CommentLikesOn(cs: seq<Doc<Comment>>, likes: seq<Doc<Like>>): nat {
    if cs == [] then 0 else CommentLikeCount(likes, Some(cs[0].id)) + CommentLikesOn(cs[1..], likes)
  }

  /** Likes on the channel's videos and on the comments under them, each counted once. */
  function LikesOnVideos(vs: seq<Doc<Video>>, comments: seq<Doc<Comment>>, likes: seq<Doc<Like>>): nat {
    if vs == [] then 0
    else VideoLikeCount(likes, Some(vs[0].id)) + CommentLikesOn(CommentsOn(comments, vs[0].id), likes)
         + LikesOnVideos(vs[1..], comments, likes)
  }

  /** Each subscriber once, each video once, views per video, and only the likes of the
      channel's own videos and their comments. */
  function IntendedChannelStats(subscriptions: seq<Doc<Subscription>>, videos: seq<Doc<Video>>,
                                comments: seq<Doc<Comment>>, likes: seq<Doc<Like>>, channel: Id): (s: ChannelStats)
    ensures s.totalVideos == |ChannelVideos(videos, channel)|
    ensures s.totalSubscribers == SubscriberCount(subscriptions, channel)
    ensures ChannelVideos(videos, channel) == [] ==> s.totalViews == 0 && s.totalLikes == 0
  {
    var vs := ChannelVideos(videos, channel);
    ChannelStats(SubscriberCount(subscriptions, channel), |vs|, TotalViews(vs), LikesOnVideos(vs, comments, likes))
  }

  /** When the pipeline produces a single row carrying a video and a comment (one video,
      one comment on it), the fold as written gives the intended statistics. */
  lemma IntendedAgreesOnSingleRow(subscriptions: seq<Doc<Subscription>>, videos: seq<Doc<Video>>,
                                  comments: seq<Doc<Comment>>, likes: seq<Doc<Like>>, channel: Id)
    requires var vs := ChannelVideos(videos, channel);
      |vs| == 1 && |CommentsOn(comments, vs[0].id)| == 1
    ensures StatsFold(StatsRows(videos, comments, likes, channel), SubscriberCount(subscriptions, channel))
         == IntendedChannelStats(subscriptions, videos, comments, likes, channel)
  {
    var vs := ChannelVideos(videos, channel);
    var cs := CommentsOn(comments, vs[0].id);
    assert vs[1..] == [] && cs[1..] == [];
    assert UnwoundRows(vs[1..], comments, likes) == [];
    var rows := StatsRows(videos, comments, likes, channel);
    var row := StatsRow(Some(vs[0]), VideoLikeCount(likes, Some(vs[0].id)), Some(cs[0].id), CommentLikeCount(likes, Some(cs[0].id)));
    assert rows == VideoRows(vs[0], comments, likes) == [row];
    assert rows[1..] == [];
    assert CommentLikesOn(cs, likes) == CommentLikeCount(likes, Some(cs[0].id));
    assert LikesOnVideos(vs, comments, likes) == row.videoLikes + row.commentLikes;
    var subscribers := SubscriberCount(subscriptions, channel);
    SumSingle(row, (r: StatsRow) => subscribers);
    SumSingle(row, HasVideo);
    SumSingle(row, RowViews);
    SumSingle(row, RowVideoLikes);
    SumSingle(row, RowCommentLikes);
    assert TotalViews(vs) == vs[0].body.views;
  }

  /** As written, a video with k comments is counted k times with its views, and the
      subscribers are counted k times: for one video with two comments the totals are
      doubled. */
  lemma StatsCountPerComment(subscriptions: seq<Doc<Subscription>>, videos: seq<Doc<Video>>,
                             comments: seq<Doc<Comment>>, likes: seq<Doc<Like>>, channel: Id)
    requires var vs := ChannelVideos(videos, channel);
      |vs| == 1 && |CommentsOn(comments, vs[0].id)| >= 2
    ensures var vs := ChannelVideos(videos, channel);
      var k := |CommentsOn(comments, vs[0].id)|;
      var stats := StatsFold(StatsRows(videos, comments, likes, channel), SubscriberCount(subscriptions, channel));
      var intended := IntendedChannelStats(subscriptions, videos, comments, likes, channel);
      && stats.totalVideos == k && intended.totalVideos == 1
      && stats.totalViews == k * vs[0].body.views && intended.totalViews == vs[0].body.views
      && stats.totalSubscribers == k * intended.totalSubscribers
  {
    var vs := ChannelVideos(videos, channel);
    var rows := StatsRows(videos, comments, likes, channel);
    assert vs[1..] == [];
    assert UnwoundRows(vs[1..], comments, likes) == [];
    assert rows == VideoRows(vs[0], comments, likes);
    StatsFoldPerRow(videos, comments, likes, channel, SubscriberCount(subscriptions, channel));
    forall r | r in rows ensures RowViews(r) == vs[0].body.views {
      var i :| 0 <= i < |rows| && rows[i] == r;
    }
    SumConst(rows, RowViews, vs[0].body.views);
    var k := |CommentsOn(comments, vs[0].id)|;
    assert |rows| == k;
    var stats := StatsFold(rows, SubscriberCount(subscriptions, channel));
    assert stats.totalVideos == k;
    assert stats.totalViews == k * vs[0].body.views;
    assert TotalViews(vs) == vs[0].body.views;
  }

  lemma {:induction false} VideoLikeCountPositive(likes: seq<Doc<Like>>, l: Doc<Like>)
    requires l in likes && !l.body.target.OnVideo?
    ensures VideoLikeCount(likes, None) >= 1
  {
    if likes[0] != l {
      VideoLikeCountPositive(likes[1..], l);
    }
  }

  lemma {:induction false} CommentLikeCountPositive(likes: seq<Doc<Like>>, l: Doc<Like>)
    requires l in likes && !l.body.target.OnComment?
    ensures CommentLikeCount(likes, None) >= 1
  {
    if likes[0] != l {
      CommentLikeCountPositive(likes[1..], l);
    }
  }

  /** As written, a channel without videos is credited with every like of every tweet in
      the database, twice: the lookups of its video-less, comment-less row match all
      likes whose `video` and whose `comment` field is missing. */
  lemma StatsCountStrangersLikes(subscriptions: seq<Doc<Subscription>>, videos: seq<Doc<Video>>,
                                 comments: seq<Doc<Comment>>, likes: seq<Doc<Like>>, channel: Id, l: Doc<Like>)
    requires ChannelVideos(videos, channel) == []
    requires l in likes && l.body.target.OnTweet?
    ensures StatsFold(StatsRows(videos, comments, likes, channel), SubscriberCount(subscriptions, channel)).totalLikes
         == VideoLikeCount(likes, None) + CommentLikeCount(likes, None) >= 2
    ensures IntendedChannelStats(subscriptions, videos, comments, likes, channel).totalLikes == 0
  {
    VideoLikeCountPositive(likes, l);
    CommentLikeCountPositive(likes, l);
    var row := StatsRows(videos, comments, likes, channel)[0];
    assert StatsRows(videos, comments, likes, channel) == [row];
    SumSingle(row, RowVideoLikes);
    SumSingle(row, RowCommentLikes);
  }

  // ---------------------------------------------------------------------------
  // getChannelVideos

  /** `String(isPublished).toLowerCase() === "true"`. */
  predicate PublishedStatus(isPublished: string) {
    AsciiLower(isPublished) == "true"
  }

  /** The two `$match` stages: the channel's videos, and when `isPublished` is given only
      those whose flag equals the parsed status. */
  predicate ChannelVideoSelected(v: Doc<Video>, channel: Id, isPublished: Option<string>) {
    v.body.owner == channel && (isPublished.None? || v.body.isPublished == PublishedStatus(isPublished.value))
  }

  datatype ChannelVideoRow = ChannelVideoRow(id: Id, thumbnail: Asset, videoFile: Asset, title: string,
                                             description: string, duration: int, views: int,
                                             isPublished: bool, owner: Id,
                                             ownerDetails: Option<UserSummary>,
                                             createdAt: Time, updatedAt: Time)

  function ChannelVideoRowOf(users: seq<Doc<User>>, v: Doc<Video>): ChannelVideoRow {
    ChannelVideoRow(v.id, v.body.thumbnail, v.body.videoFile, v.body.title, v.body.description,
                    v.body.duration, v.body.views, v.body.isPublished, v.body.owner,
                    OwnerDetails(users, v.body.owner), v.createdAt, v.updatedAt)
  }

  function ChannelVideoRows(users: seq<Doc<User>>, videos: seq<Doc<Video>>, channel: Id,
                            isPublished: Option<string>): (rows: seq<ChannelVideoRow>)
    ensures |rows| <= |videos|
  {
    if videos == [] then []
    else
      (if ChannelVideoSelected(videos[0], channel, isPublished) then [ChannelVideoRowOf(users, videos[0])] else [])
      + ChannelVideoRows(users, videos[1..], channel, isPublished)
  }

  /** The rows are exactly the selected videos of the channel, each with its owner. */
  lemma {:induction false} ChannelVideoRowsSpec(users: seq<Doc<User>>, videos: seq<Doc<Video>>, channel: Id,
                                                isPublished: Option<string>)
    ensures forall row :: row in ChannelVideoRows(users, videos, channel, isPublished) ==>
      exists v :: v in videos && ChannelVideoSelected(v, channel, isPublished) && row == ChannelVideoRowOf(users, v)
    ensures forall v :: v in videos && ChannelVideoSelected(v, channel, isPublished) ==>
      ChannelVideoRowOf(users, v) in ChannelVideoRows(users, videos, channel, isPublished)
    ensures |ChannelVideoRows(users, videos, channel, isPublished)| ==
      |Filter(videos, (v: Doc<Video>) => ChannelVideoSelected(v, channel, isPublished))|
  {
    if videos != [] {
      ChannelVideoRowsSpec(users, videos[1..], channel, isPublished);
      assert videos == [videos[0]] + videos[1..];
    }
  }

  /** Any casing of "true" selects the published videos; every other value, "1" and
      "yes" included, selects the unpublished ones. */
  lemma PublishedStatusExamples()
    ensures PublishedStatus("TRUE") && PublishedStatus("True")
    ensures !PublishedStatus("1") && !PublishedStatus("yes") && !PublishedStatus("false")
  {
    assert AsciiLower("TRUE") == "true";
    assert AsciiLower("True") == "true";
  }

  function ChannelVideoKey(field: string): ChannelVideoRow -> SortKey {
    (row: ChannelVideoRow) =>
      if field == "_id" then Oid(row.id)
      else if field == "thumbnail" || field == "videoFile" then Object
      else if field == "title" then Text(row.title)
      else if field == "description" then Text(row.description)
      else if field == "duration" then Num(row.duration)
      else if field == "views" then Num(row.views)
      else if field == "isPublished" then Flag(row.isPublished)
      else if field == "owner" then Oid(row.owner)
      else if field == "ownerDetails" then (if row.ownerDetails.Some? then Object else Absent)
      else if field == "createdAt" then Date(row.createdAt)
      else if field == "updatedAt" then Date(row.updatedAt)
      else Absent
  }

  /** getChannelVideos: 400 for a malformed id, 404 for an unknown channel, otherwise the
      selected rows sorted on `sortBy` and paged, with the zero envelope for an empty
      page. */
  function GetChannelVideos(db: Database, channelId: string, isPublished: Option<string>, q: ListQuery,
                            paginate: Paginator<ChannelVideoRow>): (r: Result<Page<ChannelVideoRow>>)
    reads db
    ensures !IsValidObjectId(channelId) ==> r == Err(ApiError(BAD_REQUEST))
    ensures IsValidObjectId(channelId) ==> (r.Ok? <==> channelId in IdsOf(db.users))
    ensures r.Err? ==> r.error.ApiError? && r.error.status in {BAD_REQUEST, NOT_FOUND}
    ensures r.Ok? ==> ListsRows(r.value, ChannelVideoRows(db.users, db.videos, channelId, isPublished),
                                ChannelVideoKey(SortField(q)), q, paginate)
    ensures r.Ok? && r.value.docs == [] ==> r.value == EmptyPage(PageNumber(q), LimitNumber(q))
  {
    if channelId == "" || !IsValidObjectId(channelId) then Err(ApiError(BAD_REQUEST))
    else if Find(db.users, channelId).None? then Err(ApiError(NOT_FOUND))
    else
      var rows := ChannelVideoRows(db.users, db.videos, channelId, isPublished);
      var sorted := SortRows(rows, ChannelVideoKey(SortField(q)), Ascending(q));
      SortedPageListsRows(rows, ChannelVideoKey(SortField(q)), q, paginate);
      Ok(OrEmptyPage(paginate(sorted, PageNumber(q), LimitNumber(q)), PageNumber(q), LimitNumber(q)))
  }
}
