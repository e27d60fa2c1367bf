/** The comment handlers: add a comment to a video, list a video's comments, update and
    delete one's own comment. */
module Comments {
  import opened Common
  import opened Documents
  import opened Entities
  import opened Store
  import opened Listing

  /** addComment: 400 for a bad video id, then 400 for blank content, then 404 for a
      missing video; otherwise the trimmed content is stored for that video with the
      caller as owner. */
  method AddComment(db: Database, caller: Id, videoId: string, content: Option<string>,
                    newId: Id, now: Time) returns (r: Result<Doc<Comment>>)
    requires db.Valid() && FreshId(db.comments, newId)
    modifies db`comments
    ensures db.Valid()
    ensures !IsValidObjectId(videoId) ==> r == Err(ApiError(BAD_REQUEST))
    ensures IsValidObjectId(videoId) && Blank(content) ==> r == Err(ApiError(BAD_REQUEST))
    ensures IsValidObjectId(videoId) && !Blank(content) && videoId !in IdsOf(db.videos) ==> r == Err(ApiError(NOT_FOUND))
    ensures IsValidObjectId(videoId) && !Blank(content) && videoId in IdsOf(db.videos) ==>
      r == Ok(Doc(newId, now, now, Comment(Trim(content.value), videoId, caller)))
    ensures r.Err? ==> db.comments == old(db.comments)
    ensures r.Ok? ==> db.comments == old(db.comments) + [r.value] && r.value.body.content != ""
  {
    if !IsValidObjectId(videoId) {
      return Err(ApiError(BAD_REQUEST));
    }
    if Blank(content) {
      return Err(ApiError(BAD_REQUEST));
    }
    if Find(db.videos, videoId).None? {
      return Err(ApiError(NOT_FOUND));
    }
    var comment := Doc(newId, now, now, Comment(Trim(content.value), videoId, caller));
    AppendFresh(db.comments, comment);
    db.comments := db.comments + [comment];
    r := Ok(comment);
  }

  /** The guard shared by update and delete: 400 for a bad id, 404 when absent, 403 when
      the caller is not the owner; otherwise the comment. */
  function OwnComment(comments: seq<Doc<Comment>>, caller: Id, commentId: string): (r: Result<Doc<Comment>>)
    ensures !IsValidObjectId(commentId) ==> r == Err(ApiError(BAD_REQUEST))
    ensures IsValidObjectId(commentId) && commentId !in IdsOf(comments) ==> r == Err(ApiError(NOT_FOUND))
    ensures r.Ok? ==> r.value in comments && r.value.id == commentId && r.value.body.owner == caller
    ensures r.Ok? <==>
      IsValidObjectId(commentId) && commentId in IdsOf(comments) && Find(comments, commentId).value.body.owner == caller
    ensures r == Err(ApiError(FORBIDDEN)) <==>
      IsValidObjectId(commentId) && commentId in IdsOf(comments) && Find(comments, commentId).value.body.owner != caller
  {
    if !IsValidObjectId(commentId) then Err(ApiError(BAD_REQUEST))
    else match Find(comments, commentId)
      case None => Err(ApiError(NOT_FOUND))
      case Some(c) => if c.body.owner != caller then Err(ApiError(FORBIDDEN)) else Ok(c)
  }

  /** updateComment: 400 for a bad id, then 400 for blank content, then the 404 / 403
      guard; on success only the content changes, trimmed. */
  method UpdateComment(db: Database, caller: Id, commentId: string, content: Option<string>, now: Time)
    returns (r: Result<Doc<Comment>>)
    requires db.Valid()
    modifies db`comments
    ensures db.Valid()
    ensures !IsValidObjectId(commentId) ==> r == Err(ApiError(BAD_REQUEST))
    ensures IsValidObjectId(commentId) && Blank(content) ==> r == Err(ApiError(BAD_REQUEST))
    ensures IsValidObjectId(commentId) && !Blank(content) && OwnComment(old(db.comments), caller, commentId).Err? ==>
      r == Err(OwnComment(old(db.comments), caller, commentId).error)
    ensures !Blank(content) && OwnComment(old(db.comments), caller, commentId).Ok? ==>
      (var c := OwnComment(old(db.comments), caller, commentId).value;
       var updated := c.(updatedAt := now, body := c.body.(content := Trim(content.value)));
       r == Ok(updated) && db.comments == Replace(old(db.comments), updated))
    ensures r.Err? ==> db.comments == old(db.comments)
  {
    if !IsValidObjectId(commentId) {
      return Err(ApiError(BAD_REQUEST));
    }
    if Blank(content) {
      return Err(ApiError(BAD_REQUEST));
    }
    var found := OwnComment(db.comments, caller, commentId);
    if found.Err? {
      return Err(found.error);
    }
    var c := found.value;
    var updated := c.(updatedAt := now, body := c.body.(content := Trim(content.value)));
    ReplaceSpec(db.comments, updated);
    db.comments := Replace(db.comments, updated);
    r := Ok(updated);
  }

  /** deleteComment: the 400 / 404 / 403 guard, then exactly that comment is removed. */
  method DeleteComment(db: Database, caller: Id, commentId: string) returns (r: Result<()>)
    requires db.Valid()
    modifies db`comments
    ensures db.Valid()
    ensures OwnComment(old(db.comments), caller, commentId).Err? ==>
      r == Err(OwnComment(old(db.comments), caller, commentId).error) && db.comments == old(db.comments)
    ensures OwnComment(old(db.comments), caller, commentId).Ok? ==>
      r == Ok(()) && db.comments == Without(old(db.comments), commentId)
    ensures r.Ok? ==> IdsOf(db.comments) == IdsOf(old(db.comments)) - {commentId}
  {
    var found := OwnComment(db.comments, caller, commentId);
    if found.Err? {
      return Err(found.error);
    }
    WithoutIds(db.comments, commentId);
    WithoutUnique(db.comments, commentId);
    db.comments := Without(db.comments, commentId);
    r := Ok(());
  }

  /** Only the owner's request removes the comment; every other comment stays. */
  lemma DeleteKeepsOthers(comments: seq<Doc<Comment>>, commentId: Id)
    ensures forall c :: c in comments && c.id != commentId ==> c in Without(comments, commentId)
    ensures forall c :: c in Without(comments, commentId) ==> c in comments
  {
    WithoutMembers(comments, commentId);
  }

  // ---------------------------------------------------------------------------
  // getVideoComments

  datatype CommentRow = CommentRow(id: Id, content: string, createdAt: Time, updatedAt: Time,
                                   owner: Id, ownerDetails: Option<UserSummary>)

  function CommentRowOf(users: seq<Doc<User>>, c: Doc<Comment>): CommentRow {
    CommentRow(c.id, c.body.content, c.createdAt, c.updatedAt, c.body.owner, OwnerDetails(users, c.body.owner))
  }

  /** `$match: {video}`, the owner join, `$first` and the projection, in natural order. */
  function VideoCommentRows(users: seq<Doc<User>>, comments: seq<Doc<Comment>>, videoId: Id): seq<CommentRow> {
    var mine := Filter(comments, (c: Doc<Comment>) => c.body.video == videoId);
    seq(|mine|, i requires 0 <= i < |mine| => CommentRowOf(users, mine[i]))
  }

  /** The rows are exactly the video's comments, each with its owner's details. */
  lemma VideoCommentRowsSpec(users: seq<Doc<User>>, comments: seq<Doc<Comment>>, videoId: Id)
    ensures forall c :: c in comments && c.body.video == videoId ==>
      CommentRowOf(users, c) in VideoCommentRows(users, comments, videoId)
    ensures forall row :: row in VideoCommentRows(users, comments, videoId) ==>
      row.ownerDetails == OwnerDetails(users, row.owner) &&
      exists c :: c in comments && c.body.video == videoId && row == CommentRowOf(users, c)
    ensures |VideoCommentRows(users, comments, videoId)| == |Filter(comments, (c: Doc<Comment>) => c.body.video == videoId)|
  {
    var mine := Filter(comments, (c: Doc<Comment>) => c.body.video == videoId);
    FilterMembers(comments, (c: Doc<Comment>) => c.body.video == videoId);
    var rows := VideoCommentRows(users, comments, videoId);
    forall c | c in comments && c.body.video == videoId ensures CommentRowOf(users, c) in rows {
      var k :| 0 <= k < |mine| && mine[k] == c;
      assert rows[k] == CommentRowOf(users, c);
    }
    forall row | row in rows
      ensures row.ownerDetails == OwnerDetails(users, row.owner)
      ensures exists c :: c in comments && c.body.video == videoId && row == CommentRowOf(users, c)
    {
      var k :| 0 <= k < |rows| && rows[k] == row;
      assert mine[k] in mine;
    }
  }

  function CommentKey(field: string): CommentRow -> SortKey {
    (row: CommentRow) =>
      if field == "_id" then Oid(row.id)
      else if field == "content" then Text(row.content)
      else if field == "createdAt" then Date(row.createdAt)
      else if field == "updatedAt" then Date(row.updatedAt)
      else if field == "owner" then Oid(row.owner)
      else if field == "ownerDetails" then (if row.ownerDetails.Some? then Object else Absent)
      else Absent
  }

  /** getVideoComments: 400 for a bad id, 404 for a missing video, otherwise the video's
      rows sorted on `sortBy` and paged, with the zero envelope for an empty page. */
  function GetVideoComments(db: Database, videoId: string, q: ListQuery,
                            paginate: Paginator<CommentRow>): (r: Result<Page<CommentRow>>)
    reads db
    ensures !IsValidObjectId(videoId) ==> r == Err(ApiError(BAD_REQUEST))
    ensures IsValidObjectId(videoId) && videoId !in IdsOf(db.videos) ==> r == Err(ApiError(NOT_FOUND))
    ensures r.Ok? <==> IsValidObjectId(videoId) && videoId in IdsOf(db.videos)
    ensures r.Ok? ==> ListsRows(r.value, VideoCommentRows(db.users, db.comments, videoId),
                                CommentKey(SortField(q)), q, paginate)
    ensures r.Ok? && r.value.docs == [] ==> r.value == EmptyPage(PageNumber(q), LimitNumber(q))
  {
    if !IsValidObjectId(videoId) then Err(ApiError(BAD_REQUEST))
    else if Find(db.videos, videoId).None? then Err(ApiError(NOT_FOUND))
    else
      var rows := VideoCommentRows(db.users, db.comments, videoId);
      var sorted := SortRows(rows, CommentKey(SortField(q)), Ascending(q));
      SortedPageListsRows(rows, CommentKey(SortField(q)), q, paginate);
      Ok(OrEmptyPage(paginate(sorted, PageNumber(q), LimitNumber(q)), PageNumber(q), LimitNumber(q)))
  }
}
