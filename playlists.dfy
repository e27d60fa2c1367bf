/** The playlist handlers: create, list a user's playlists, show one, add and remove
    videos, delete and update. A playlist keeps its videos as an ordered list of ids
    without duplicates. */
module Playlists {
  import opened Common
  import opened Documents
  import opened Entities
  import opened Store
  import opened Listing

  // ---------------------------------------------------------------------------
  // The video list of a playlist

  /** The listed ids that still name a stored video, in list order. */
  function ResolvingIds(videos: seq<Doc<Video>>, ids: seq<Id>): (r: seq<Id>)
    ensures |r| <= |ids|
  {
    if ids == [] then []
    else (if ids[0] in IdsOf(videos) then [ids[0]] else []) + ResolvingIds(videos, ids[1..])
  }

  lemma {:induction false} ResolvingIdsSpec(videos: seq<Doc<Video>>, ids: seq<Id>)
    ensures Elems(ResolvingIds(videos, ids)) == Elems(ids) * IdsOf(videos)
    ensures Distinct(ids) ==> Distinct(ResolvingIds(videos, ids))
  {
    if ids != [] {
      var rest := ResolvingIds(videos, ids[1..]);
      var head := if ids[0] in IdsOf(videos) then [ids[0]] else [];
      ResolvingIdsSpec(videos, ids[1..]);
      assert ids == [ids[0]] + ids[1..];
      assert Elems(ids) == {ids[0]} + Elems(ids[1..]);
      assert Elems(head + rest) == Elems(head) + Elems(rest);
      if Distinct(ids) {
        assert Distinct(ids[1..]) && ids[0] !in Elems(ids[1..]);
        assert ids[0] !in Elems(rest);
        assert Distinct(head + rest);
      }
    }
  }

  /** `$lookup` of `videos` against the video collection followed by `$size`: for a
      duplicate-free list, the number of listed ids that still resolve. */
  function VideoCount(videos: seq<Doc<Video>>, ids: seq<Id>): int {
    |DocsIn(videos, Elems(ids))|
  }

  lemma VideoCountIsResolvingEntries(videos: seq<Doc<Video>>, ids: seq<Id>)
    requires UniqueIds(videos) && Distinct(ids)
    ensures VideoCount(videos, ids) == |ResolvingIds(videos, ids)|
    ensures VideoCount(videos, ids) <= |ids|
  {
    DocsInCount(videos, Elems(ids));
    ResolvingIdsSpec(videos, ids);
    DistinctCard(ResolvingIds(videos, ids));
  }

  /** A video populated with the `title thumbnail` selection. */
  datatype VideoTitleCard = VideoTitleCard(id: Id, title: string, thumbnail: Asset)

  /** `.populate("videos", "title thumbnail")`: each listed id replaced by its video, in
      list order, ids that no longer resolve dropped. */
  function Populate(videos: seq<Doc<Video>>, ids: seq<Id>): (r: seq<VideoTitleCard>)
    ensures |r| <= |ids|
  {
    if ids == [] then []
    else
      (match Find(videos, ids[0])
       case None => []
       case Some(v) => [VideoTitleCard(v.id, v.body.title, v.body.thumbnail)])
      + Populate(videos, ids[1..])
  }

  function CardIds(cards: seq<VideoTitleCard>): (r: seq<Id>)
    ensures |r| == |cards|
  {
    seq(|cards|, i requires 0 <= i < |cards| => cards[i].id)
  }

  /** The populated list names exactly the resolving ids, in the playlist's order. */
  lemma {:induction false} PopulateKeepsListOrder(videos: seq<Doc<Video>>, ids: seq<Id>)
    ensures CardIds(Populate(videos, ids)) == ResolvingIds(videos, ids)
  {
    if ids != [] {
      PopulateKeepsListOrder(videos, ids[1..]);
      var rest := Populate(videos, ids[1..]);
      match Find(videos, ids[0])
      case None =>
      case Some(v) =>
        assert CardIds([VideoTitleCard(v.id, v.body.title, v.body.thumbnail)] + rest)
          == [ids[0]] + CardIds(rest);
    }
  }

  /** The playlist document as the add and remove handlers answer it, re-read and
      populated. */
  datatype PopulatedPlaylist = PopulatedPlaylist(playlist: Doc<Playlist>, videos: seq<VideoTitleCard>)

  // ---------------------------------------------------------------------------
  // Store transitions

  /** `playlist.videos.push(videoId); playlist.save()`. */
  function WithVideo(p: Doc<Playlist>, videoId: Id, now: Time): Doc<Playlist> {
    p.(updatedAt := now, body := p.body.(videos := p.body.videos + [videoId]))
  }

  /** `playlist.videos = playlist.videos.filter(...); playlist.save()`. */
  function WithoutVideo(p: Doc<Playlist>, videoId: Id, now: Time): Doc<Playlist> {
    p.(updatedAt := now, body := p.body.(videos := RemoveAll(p.body.videos, videoId)))
  }

  /** Adding keeps the list duplicate-free, leaves the earlier entries where they were
      and puts the new id last. */
  lemma WithVideoSpec(p: Doc<Playlist>, videoId: Id, now: Time)
    requires Distinct(p.body.videos) && videoId !in p.body.videos
    ensures var v := WithVideo(p, videoId, now).body.videos;
      Distinct(v) && |v| == |p.body.videos| + 1 && v[..|p.body.videos|] == p.body.videos && v[|v| - 1] == videoId
  {
    AppendDistinct(p.body.videos, videoId);
  }

  /** Removing keeps the list duplicate-free; the id is gone, the other entries keep
      their relative order. */
  lemma WithoutVideoSpec(p: Doc<Playlist>, k: nat, now: Time)
    requires Distinct(p.body.videos) && k < |p.body.videos|
    ensures var v := WithoutVideo(p, p.body.videos[k], now).body.videos;
      Distinct(v) && p.body.videos[k] !in v && v == p.body.videos[..k] + p.body.videos[k + 1..]
  {
    RemoveAllSpec(p.body.videos, p.body.videos[k]);
    RemoveAllAt(p.body.videos, k);
  }

  /** Adding a video and then removing it gives back the playlist's list and every other
      field; only `updatedAt` moves. */
  lemma AddThenRemoveRestores(p: Doc<Playlist>, videoId: Id, t1: Time, t2: Time)
    requires videoId !in p.body.videos
    ensures WithoutVideo(WithVideo(p, videoId, t1), videoId, t2) == p.(updatedAt := t2)
  {
    AppendThenRemove(p.body.videos, videoId);
  }

  /** A playlist replaced by one with a duplicate-free list leaves every playlist of the
      collection duplicate-free. */
  lemma ReplaceKeepsDistinct(c: seq<Doc<Playlist>>, d: Doc<Playlist>)
    requires forall i :: 0 <= i < |c| ==> Distinct(c[i].body.videos)
    requires Distinct(d.body.videos)
    ensures forall i :: 0 <= i < |c| ==> Distinct(Replace(c, d)[i].body.videos)
  {
  }

  // ---------------------------------------------------------------------------
  // Handlers that change the store

  /** createPlaylist: a name, then a description, that is missing or blank is refused
      with 400; otherwise the trimmed fields are stored with the caller as owner and an
      empty video list. */
  method CreatePlaylist(db: Database, caller: Id, name: Option<string>, description: Option<string>,
                        newId: Id, now: Time) returns (r: Result<Doc<Playlist>>)
    requires db.Valid() && FreshId(db.playlists, newId)
    modifies db`playlists
    ensures db.Valid()
    ensures Blank(name) ==> r == Err(ApiError(BAD_REQUEST))
    ensures !Blank(name) && Blank(description) ==> r == Err(ApiError(BAD_REQUEST))
    ensures r.Err? ==> db.playlists == old(db.playlists)
    ensures !Blank(name) && !Blank(description) ==>
      r == Ok(Doc(newId, now, now, Playlist(Trim(name.value), Trim(description.value), caller, [])))
    ensures r.Ok? ==> db.playlists == old(db.playlists) + [r.value] && r.value.body.name != ""
  {
    if Blank(name) {
      return Err(ApiError(BAD_REQUEST));
    }
    if Blank(description) {
      return Err(ApiError(BAD_REQUEST));
    }
    var playlist := Doc(newId, now, now, Playlist(Trim(name.value), Trim(description.value), caller, []));
    AppendFresh(db.playlists, playlist);
    ghost var before := db.playlists;
    db.playlists := db.playlists + [playlist];
    forall i | 0 <= i < |db.playlists| ensures Distinct(db.playlists[i].body.videos) {
      if i < |before| {
        assert db.playlists[i] == before[i];
      }
    }
    r := Ok(playlist);
  }

  /** addVideoToPlaylist. Checks, in this order: playlist id, video id (400), playlist
      exists (404), caller owns it (403), video exists (404), video not yet listed (400).
      On success the id is appended and the playlist answered re-read and populated. */
  method AddVideoToPlaylist(db: Database, caller: Id, playlistId: string, videoId: string, now: Time)
    returns (r: Result<PopulatedPlaylist>)
    requires db.Valid()
    modifies db`playlists
    ensures db.Valid()
    ensures !IsValidObjectId(playlistId) || !IsValidObjectId(videoId) ==> r == Err(ApiError(BAD_REQUEST))
    ensures IsValidObjectId(playlistId) && IsValidObjectId(videoId) ==>
      match Find(old(db.playlists), playlistId)
      case None => r == Err(ApiError(NOT_FOUND))
      case Some(p) =>
        if p.body.owner != caller then r == Err(ApiError(FORBIDDEN))
        else if videoId !in IdsOf(db.videos) then r == Err(ApiError(NOT_FOUND))
        else if videoId in p.body.videos then r == Err(ApiError(BAD_REQUEST))
        else (db.playlists == Replace(old(db.playlists), WithVideo(p, videoId, now))
              && r == Ok(PopulatedPlaylist(WithVideo(p, videoId, now),
                                           Populate(db.videos, p.body.videos + [videoId]))))
    ensures r.Err? ==> db.playlists == old(db.playlists)
  {
    if !IsValidObjectId(playlistId) {
      return Err(ApiError(BAD_REQUEST));
    }
    if !IsValidObjectId(videoId) {
      return Err(ApiError(BAD_REQUEST));
    }
    var found := Find(db.playlists, playlistId);
    if found.None? {
      return Err(ApiError(NOT_FOUND));
    }
    var playlist := found.value;
    if playlist.body.owner != caller {
      return Err(ApiError(FORBIDDEN));
    }
    if Find(db.videos, videoId).None? {
      return Err(ApiError(NOT_FOUND));
    }
    if videoId in playlist.body.videos {
      return Err(ApiError(BAD_REQUEST));
    }
    var list := playlist.body.videos;
    list := list + [videoId];
    var saved := playlist.(updatedAt := now, body := playlist.body.(videos := list));
    assert playlist in db.playlists;
    AppendDistinct(playlist.body.videos, videoId);
    ReplaceSpec(db.playlists, saved);
    db.playlists := Replace(db.playlists, saved);
    r := Ok(PopulatedPlaylist(saved, Populate(db.videos, saved.body.videos)));
  }

  /** removeVideoFromPlaylist. Checks both ids (400), the playlist (404), ownership (403)
      and that the id is listed (400); it does not look the video up. On success every
      entry equal to the id is filtered out. */
  method RemoveVideoFromPlaylist(db: Database, caller: Id, playlistId: string, videoId: string, now: Time)
    returns (r: Result<PopulatedPlaylist>)
    requires db.Valid()
    modifies db`playlists
    ensures db.Valid()
    ensures !IsValidObjectId(playlistId) || !IsValidObjectId(videoId) ==> r == Err(ApiError(BAD_REQUEST))
    ensures IsValidObjectId(playlistId) && IsValidObjectId(videoId) ==>
      match Find(old(db.playlists), playlistId)
      case None => r == Err(ApiError(NOT_FOUND))
      case Some(p) =>
        if p.body.owner != caller then r == Err(ApiError(FORBIDDEN))
        else if videoId !in p.body.videos then r == Err(ApiError(BAD_REQUEST))
        else (db.playlists == Replace(old(db.playlists), WithoutVideo(p, videoId, now))
              && r == Ok(PopulatedPlaylist(WithoutVideo(p, videoId, now),
                                           Populate(db.videos, RemoveAll(p.body.videos, videoId)))))
    ensures r.Err? ==> db.playlists == old(db.playlists)
  {
    if !IsValidObjectId(playlistId) {
      return Err(ApiError(BAD_REQUEST));
    }
    if !IsValidObjectId(videoId) {
      return Err(ApiError(BAD_REQUEST));
    }
    var found := Find(db.playlists, playlistId);
    if found.None? {
      return Err(ApiError(NOT_FOUND));
    }
    var playlist := found.value;
    if playlist.body.owner != caller {
      return Err(ApiError(FORBIDDEN));
    }
    if videoId !in playlist.body.videos {
      return Err(ApiError(BAD_REQUEST));
    }
    var list := RemoveAll(playlist.body.videos, videoId);
    var saved := playlist.(updatedAt := now, body := playlist.body.(videos := list));
    assert playlist in db.playlists;
    RemoveAllSpec(playlist.body.videos, videoId);
    ReplaceSpec(db.playlists, saved);
    db.playlists := Replace(db.playlists, saved);
    r := Ok(PopulatedPlaylist(saved, Populate(db.videos, saved.body.videos)));
  }

  /** deletePlaylist: 400 for a bad id, 404 when absent, 403 for anyone but the owner;
      the owner's request removes exactly that playlist. */
  method DeletePlaylist(db: Database, caller: Id, playlistId: string) returns (r: Result<()>)
    requires db.Valid()
    modifies db`playlists
    ensures db.Valid()
    ensures !IsValidObjectId(playlistId) ==> r == Err(ApiError(BAD_REQUEST))
    ensures IsValidObjectId(playlistId) ==>
      match Find(old(db.playlists), playlistId)
      case None => r == Err(ApiError(NOT_FOUND))
      case Some(p) =>
        if p.body.owner != caller then r == Err(ApiError(FORBIDDEN))
        else r == Ok(()) && db.playlists == Without(old(db.playlists), playlistId)
    ensures r.Err? ==> db.playlists == old(db.playlists)
    ensures r.Ok? ==> playlistId !in IdsOf(db.playlists) && IdsOf(db.playlists) == IdsOf(old(db.playlists)) - {playlistId}
  {
    if !IsValidObjectId(playlistId) {
      return Err(ApiError(BAD_REQUEST));
    }
    var found := Find(db.playlists, playlistId);
    if found.None? {
      return Err(ApiError(NOT_FOUND));
    }
    if found.value.body.owner != caller {
      return Err(ApiError(FORBIDDEN));
    }
    WithoutIds(db.playlists, playlistId);
    WithoutUnique(db.playlists, playlistId);
    WithoutMembers(db.playlists, playlistId);
    ghost var before := db.playlists;
    db.playlists := Without(db.playlists, playlistId);
    forall i | 0 <= i < |db.playlists| ensures Distinct(db.playlists[i].body.videos) {
      assert db.playlists[i] in before;
    }
    r := Ok(());
  }

  /** The fields `updatePlaylist` writes: each one supplied (truthy) is trimmed and
      overwritten, the others are kept. */
  function UpdatedPlaylist(p: Doc<Playlist>, name: Option<string>, description: Option<string>, now: Time): (d: Doc<Playlist>)
    ensures d.id == p.id && d.createdAt == p.createdAt && d.updatedAt == now
    ensures d.body.owner == p.body.owner && d.body.videos == p.body.videos
    ensures d.body.name == (if Truthy(name) then Trim(name.value) else p.body.name)
    ensures d.body.description == (if Truthy(description) then Trim(description.value) else p.body.description)
  {
    var n := if Truthy(name) then Trim(name.value) else p.body.name;
    var ds := if Truthy(description) then Trim(description.value) else p.body.description;
    p.(updatedAt := now, body := p.body.(name := n, description := ds))
  }

  /** updatePlaylist: 400 for a bad id, 400 when neither field is given; a missing
      playlist raises a TypeError (500) instead of the intended 404; 403 for anyone
      but the owner. */
  method UpdatePlaylist(db: Database, caller: Id, playlistId: string, name: Option<string>,
                        description: Option<string>, now: Time) returns (r: Result<Doc<Playlist>>)
    requires db.Valid()
    modifies db`playlists
    ensures db.Valid()
    ensures !IsValidObjectId(playlistId) ==> r == Err(ApiError(BAD_REQUEST))
    ensures IsValidObjectId(playlistId) && !Truthy(name) && !Truthy(description) ==> r == Err(ApiError(BAD_REQUEST))
    ensures IsValidObjectId(playlistId) && (Truthy(name) || Truthy(description)) ==>
      match Find(old(db.playlists), playlistId)
      case None => r == Err(TypeError)
      case Some(p) =>
        if p.body.owner != caller then r == Err(ApiError(FORBIDDEN))
        else (r == Ok(UpdatedPlaylist(p, name, description, now))
              && db.playlists == Replace(old(db.playlists), UpdatedPlaylist(p, name, description, now)))
    ensures r.Err? ==> db.playlists == old(db.playlists)
  {
    if !IsValidObjectId(playlistId) {
      return Err(ApiError(BAD_REQUEST));
    }
    if !Truthy(name) && !Truthy(description) {
      return Err(ApiError(BAD_REQUEST));
    }
    var found := Find(db.playlists, playlistId);
    if found.None? {
      // `throw new new ApiError(404, ...)()`: the instance is not a constructor
      return Err(TypeError);
    }
    var playlist := found.value;
    if playlist.body.owner != caller {
      return Err(ApiError(FORBIDDEN));
    }
    var updated := UpdatedPlaylist(playlist, name, description, now);
    assert playlist in db.playlists;
    var k :| 0 <= k < |db.playlists| && db.playlists[k] == playlist;
    assert Distinct(updated.body.videos);
    ReplaceKeepsDistinct(db.playlists, updated);
    ReplaceSpec(db.playlists, updated);
    db.playlists := Replace(db.playlists, updated);
    r := Ok(updated);
  }

  // ---------------------------------------------------------------------------
  // Read-only handlers

  /** One row of getUserPlaylists. */
  datatype PlaylistRow = PlaylistRow(id: Id, name: string, description: string, videoCount: int,
                                     owner: Id, ownerDetails: Option<UserSummary>,
                                     createdAt: Time, updatedAt: Time)

  function PlaylistRowOf(users: seq<Doc<User>>, videos: seq<Doc<Video>>, p: Doc<Playlist>): PlaylistRow {
    PlaylistRow(p.id, p.body.name, p.body.description, VideoCount(videos, p.body.videos),
                p.body.owner, OwnerDetails(users, p.body.owner), p.createdAt, p.updatedAt)
  }

  /** `$match: {owner}`, the two lookups and the projection, in natural order. */
  function UserPlaylistRows(users: seq<Doc<User>>, videos: seq<Doc<Video>>,
                            playlists: seq<Doc<Playlist>>, owner: Id): (rows: seq<PlaylistRow>)
  {
    var mine := Filter(playlists, (p: Doc<Playlist>) => p.body.owner == owner);
    seq(|mine|, i requires 0 <= i < |mine| => PlaylistRowOf(users, videos, mine[i]))
  }

  /** The rows are exactly the user's playlists; each counts the listed videos that still
      exist and carries the owner's details when the owner exists. */
  lemma UserPlaylistRowsSpec(users: seq<Doc<User>>, videos: seq<Doc<Video>>,
                             playlists: seq<Doc<Playlist>>, owner: Id)
    requires UniqueIds(videos) && forall i :: 0 <= i < |playlists| ==> Distinct(playlists[i].body.videos)
    ensures forall p :: p in playlists && p.body.owner == owner ==>
      PlaylistRowOf(users, videos, p) in UserPlaylistRows(users, videos, playlists, owner)
    ensures forall row :: row in UserPlaylistRows(users, videos, playlists, owner) ==>
      row.owner == owner && row.ownerDetails == OwnerDetails(users, owner) &&
      exists p :: (p in playlists && p.id == row.id && p.body.owner == owner &&
                   row.videoCount == |ResolvingIds(videos, p.body.videos)|)
    ensures |UserPlaylistRows(users, videos, playlists, owner)| ==
      |Filter(playlists, (p: Doc<Playlist>) => p.body.owner == owner)|
  {
    var mine := Filter(playlists, (p: Doc<Playlist>) => p.body.owner == owner);
    FilterMembers(playlists, (p: Doc<Playlist>) => p.body.owner == owner);
    var rows := UserPlaylistRows(users, videos, playlists, owner);
    forall p | p in playlists && p.body.owner == owner
      ensures PlaylistRowOf(users, videos, p) in rows
    {
      var k :| 0 <= k < |mine| && mine[k] == p;
      assert rows[k] == PlaylistRowOf(users, videos, p);
    }
    forall row | row in rows
      ensures row.owner == owner && row.ownerDetails == OwnerDetails(users, owner)
      ensures exists p :: (p in playlists && p.id == row.id && p.body.owner == owner &&
                           row.videoCount == |ResolvingIds(videos, p.body.videos)|)
    {
      var k :| 0 <= k < |rows| && rows[k] == row;
      var p := mine[k];
      assert p in mine;
      var j :| 0 <= j < |playlists| && playlists[j] == p;
      VideoCountIsResolvingEntries(videos, p.body.videos);
    }
  }

  /** The `$sort: {sortBy: ±1}` key of a playlist row. */
  function PlaylistRowKey(field: string): PlaylistRow -> SortKey {
    (row: PlaylistRow) =>
      if field == "_id" then Oid(row.id)
      else if field == "name" then Text(row.name)
      else if field == "description" then Text(row.description)
      else if field == "videoCount" then Num(row.videoCount)
      else if field == "owner" then Oid(row.owner)
      else if field == "ownerDetails" then (if row.ownerDetails.Some? then Object else Absent)
      else if field == "createdAt" then Date(row.createdAt)
      else if field == "updatedAt" then Date(row.updatedAt)
      else Absent
  }

  /** getUserPlaylists: 400 for a bad user id, 404 for an unknown user, otherwise the
      user's rows sorted on `sortBy` and handed to the paginator, with the zero envelope
      for an empty page. */
  function GetUserPlaylists(db: Database, userId: string, q: ListQuery,
                            paginate: Paginator<PlaylistRow>): (r: Result<Page<PlaylistRow>>)
    reads db
    ensures !IsValidObjectId(userId) ==> r == Err(ApiError(BAD_REQUEST))
    ensures IsValidObjectId(userId) && userId !in IdsOf(db.users) ==> r == Err(ApiError(NOT_FOUND))
    ensures r.Ok? <==> IsValidObjectId(userId) && userId in IdsOf(db.users)
    ensures r.Ok? ==> ListsRows(r.value, UserPlaylistRows(db.users, db.videos, db.playlists, userId),
                                PlaylistRowKey(SortField(q)), q, paginate)
    ensures r.Ok? && r.value.docs == [] ==> r.value == EmptyPage(PageNumber(q), LimitNumber(q))
  {
    if !IsValidObjectId(userId) then Err(ApiError(BAD_REQUEST))
    else if Find(db.users, userId).None? then Err(ApiError(NOT_FOUND))
    else
      var rows := UserPlaylistRows(db.users, db.videos, db.playlists, userId);
      var sorted := SortRows(rows, PlaylistRowKey(SortField(q)), Ascending(q));
      SortedPageListsRows(rows, PlaylistRowKey(SortField(q)), q, paginate);
      Ok(OrEmptyPage(paginate(sorted, PageNumber(q), LimitNumber(q)), PageNumber(q), LimitNumber(q)))
  }

  /** A video of getPlaylistById, joined with its owner's `{fullName, username}`. */
  datatype PlaylistVideo = PlaylistVideo(id: Id, title: string, description: string, thumbnail: Asset,
                                         duration: int, views: int, createdAt: Time,
                                         videoOwnerDetails: Option<UserName>)

  datatype PlaylistDetail = PlaylistDetail(id: Id, name: string, description: string, owner: Id,
                                           ownerDetails: Option<UserSummary>, videos: seq<PlaylistVideo>,
                                           videoCount: int, createdAt: Time, updatedAt: Time)

  function PlaylistVideoOf(users: seq<Doc<User>>, v: Doc<Video>): PlaylistVideo {
    PlaylistVideo(v.id, v.body.title, v.body.description, v.body.thumbnail, v.body.duration,
                  v.body.views, v.createdAt, OwnerName(users, v.body.owner))
  }

  /** The `$lookup` of the listed ids into the video collection, each video joined with
      its owner; the videos come in the collection's order. */
  function PlaylistVideos(users: seq<Doc<User>>, videos: seq<Doc<Video>>, ids: seq<Id>): seq<PlaylistVideo> {
    var joined := DocsIn(videos, Elems(ids));
    seq(|joined|, i requires 0 <= i < |joined| => PlaylistVideoOf(users, joined[i]))
  }

  /** The joined videos are exactly the listed ones that exist, one per listed id that
      resolves. */
  lemma PlaylistVideosSpec(users: seq<Doc<User>>, videos: seq<Doc<Video>>, ids: seq<Id>)
    ensures forall v :: v in videos && v.id in Elems(ids) ==> PlaylistVideoOf(users, v) in PlaylistVideos(users, videos, ids)
    ensures forall pv :: pv in PlaylistVideos(users, videos, ids) ==>
      exists v :: v in videos && v.id in Elems(ids) && pv == PlaylistVideoOf(users, v)
    ensures UniqueIds(videos) && Distinct(ids) ==> |PlaylistVideos(users, videos, ids)| == |ResolvingIds(videos, ids)|
  {
    var joined := DocsIn(videos, Elems(ids));
    var vs := PlaylistVideos(users, videos, ids);
    DocsInMembers(videos, Elems(ids));
    forall v | v in videos && v.id in Elems(ids) ensures PlaylistVideoOf(users, v) in vs {
      var k :| 0 <= k < |joined| && joined[k] == v;
      assert vs[k] == PlaylistVideoOf(users, v);
    }
    forall pv | pv in vs ensures exists v :: v in videos && v.id in Elems(ids) && pv == PlaylistVideoOf(users, v) {
      var k :| 0 <= k < |vs| && vs[k] == pv;
      assert joined[k] in joined;
    }
    if UniqueIds(videos) && Distinct(ids) {
      VideoCountIsResolvingEntries(videos, ids);
    }
  }

  /** getPlaylistById: 400 for a bad id, 404 when no playlist matches; otherwise the
      playlist with its owner's details and its listed videos that still exist,
      counted by `videoCount`. */
  function GetPlaylistById(db: Database, playlistId: string): (r: Result<PlaylistDetail>)
    reads db
    ensures !IsValidObjectId(playlistId) ==> r == Err(ApiError(BAD_REQUEST))
    ensures IsValidObjectId(playlistId) && playlistId !in IdsOf(db.playlists) ==> r == Err(ApiError(NOT_FOUND))
    ensures r.Ok? <==> IsValidObjectId(playlistId) && playlistId in IdsOf(db.playlists)
    ensures r.Ok? ==> r.value.id == playlistId && r.value.videoCount == |r.value.videos|
    ensures r.Ok? ==> exists p :: p in db.playlists && p.id == playlistId && DetailOf(db, p, r.value)
  {
    if !IsValidObjectId(playlistId) then Err(ApiError(BAD_REQUEST))
    else match Find(db.playlists, playlistId)
      case None => Err(ApiError(NOT_FOUND))
      case Some(p) =>
        var vs := PlaylistVideos(db.users, db.videos, p.body.videos);
        PlaylistVideosSpec(db.users, db.videos, p.body.videos);
        var detail := PlaylistDetail(p.id, p.body.name, p.body.description, p.body.owner,
                                     OwnerDetails(db.users, p.body.owner), vs, |vs|, p.createdAt, p.updatedAt);
        assert DetailOf(db, p, detail);
        Ok(detail)
  }

  /** The detail of playlist `p`: its own fields, its owner's details, and its videos
      exactly the listed ones still in the collection, one per resolving id when the
      list is distinct. */
  ghost predicate DetailOf(db: Database, p: Doc<Playlist>, d: PlaylistDetail)
    reads db
  {
    && d.name == p.body.name && d.description == p.body.description && d.owner == p.body.owner
    && d.createdAt == p.createdAt && d.updatedAt == p.updatedAt
    && d.ownerDetails == OwnerDetails(db.users, p.body.owner)
    && (forall v :: v in db.videos && v.id in Elems(p.body.videos) ==> PlaylistVideoOf(db.users, v) in d.videos)
    && (forall pv :: pv in d.videos ==>
          exists v :: v in db.videos && v.id in Elems(p.body.videos) && pv == PlaylistVideoOf(db.users, v))
    && (UniqueIds(db.videos) && Distinct(p.body.videos) ==> |d.videos| == |ResolvingIds(db.videos, p.body.videos)|)
  }
}
