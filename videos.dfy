/** The video handlers: publishing with its upload compensation, fetching, deleting,
    updating and toggling the published flag, against the video collection and the
    media store. */
module Videos {
  import opened Common
  import opened Documents
  import opened Entities
  import opened Store
  import opened VideoModel

  /** An uploaded file as the upload middleware hands it over; `path` is `None` when the
      file was kept in memory. */
  datatype FileUpload = FileUpload(fieldname: string, mimetype: string, path: Option<string>)

  /** What the media store answered to one upload: it threw, or it returned a response
      whose fields may be missing. */
  datatype UploadOutcome =
    | UploadThrew
    | Uploaded(url: Option<string>, publicId: Option<string>, duration: Option<int>)

  /** The upload went through and the response carries both a url and a public_id. */
  predicate UploadComplete(u: UploadOutcome) {
    u.Uploaded? && Truthy(u.url) && Truthy(u.publicId)
  }

  /** The asset an upload leaves in the media store, if any. */
  function AfterUpload(media: set<MediaKey>, kind: ResourceKind, u: UploadOutcome): (m: set<MediaKey>)
    ensures media <= m
    ensures u.Uploaded? && Truthy(u.publicId) ==> m == media + {MediaKey(kind, u.publicId.value)}
    ensures !(u.Uploaded? && Truthy(u.publicId)) ==> m == media
  {
    if u.Uploaded? && Truthy(u.publicId) then media + {MediaKey(kind, u.publicId.value)} else media
  }

  /** deleteOnCloudinary: nothing happens for an empty public_id; otherwise the asset of
      that resource type is destroyed. */
  function Destroy(media: set<MediaKey>, kind: ResourceKind, publicId: string): (m: set<MediaKey>)
    ensures m <= media
    ensures publicId == "" ==> m == media
    ensures publicId != "" ==> m == media - {MediaKey(kind, publicId)}
  {
    if publicId == "" then media else media - {MediaKey(kind, publicId)}
  }

  /** deleteOnCloudinary undoes an upload: destroying the public_id an upload answered
      with, as the resource type it was uploaded under, gives back the media store as it
      was before the upload. */
  lemma UploadThenDestroyRestores(media: set<MediaKey>, kind: ResourceKind, u: UploadOutcome)
    requires u.Uploaded? && Truthy(u.publicId)
    requires MediaKey(kind, u.publicId.value) !in media
    ensures Destroy(AfterUpload(media, kind, u), kind, u.publicId.value) == media
  {
  }

  /** Destroying is idempotent: a second deleteOnCloudinary of the same asset changes
      nothing. */
  lemma DestroyTwice(media: set<MediaKey>, kind: ResourceKind, publicId: string)
    ensures Destroy(Destroy(media, kind, publicId), kind, publicId) == Destroy(media, kind, publicId)
  {
  }

  // ---------------------------------------------------------------------------
  // validateFileType and validateVideoDetails

  /** validateFileType: 400 for a missing file; an expected type of "video" needs a
      mimetype starting with "video/", every other expected type one starting with
      "image/". */
  function ValidateFileType(file: Option<FileUpload>, expectedType: string): (r: Result<()>)
    ensures file.None? ==> r == Err(ApiError(BAD_REQUEST))
    ensures file.Some? && expectedType == "video" ==> (r.Ok? <==> StartsWith(file.value.mimetype, "video/"))
    ensures file.Some? && expectedType != "video" ==> (r.Ok? <==> StartsWith(file.value.mimetype, "image/"))
    ensures r.Err? ==> r == Err(ApiError(BAD_REQUEST))
  {
    if file.None? then Err(ApiError(BAD_REQUEST))
    else if !StartsWith(file.value.mimetype, if expectedType == "video" then "video/" else "image/")
    then Err(ApiError(BAD_REQUEST))
    else Ok(())
  }

  /** validateVideoDetails: 400 for a missing or malformed id, 404 when absent, 403 when
      the caller is not the owner; otherwise the video. */
  function ValidateVideoDetails(videos: seq<Doc<Video>>, caller: Id, videoId: string): (r: Result<Doc<Video>>)
    ensures !IsValidObjectId(videoId) ==> r == Err(ApiError(BAD_REQUEST))
    ensures IsValidObjectId(videoId) && videoId !in IdsOf(videos) ==> r == Err(ApiError(NOT_FOUND))
    ensures r.Ok? ==> r.value in videos && r.value.id == videoId && r.value.body.owner == caller
    ensures r.Ok? <==>
      IsValidObjectId(videoId) && videoId in IdsOf(videos) && Find(videos, videoId).value.body.owner == caller
    ensures r == Err(ApiError(FORBIDDEN)) <==>
      IsValidObjectId(videoId) && videoId in IdsOf(videos) && Find(videos, videoId).value.body.owner != caller
  {
    if videoId == "" || !IsValidObjectId(videoId) then Err(ApiError(BAD_REQUEST))
    else match Find(videos, videoId)
      case None => Err(ApiError(NOT_FOUND))
      case Some(v) => if v.body.owner != caller then Err(ApiError(FORBIDDEN)) else Ok(v)
  }

  // ---------------------------------------------------------------------------
  // publishVideo

  /** Whether an optional upload carries a truthy local path. */
  predicate HasPath(file: Option<FileUpload>) {
    file.Some? && Truthy(file.value.path)
  }

  /** The compensation in the catch block as written: both public_ids are destroyed with
      deleteOnCloudinary's default resource type, "image". */
  function CompensationAsWritten(media: set<MediaKey>, videoPid: string, thumbPid: string): (m: set<MediaKey>)
    ensures videoPid != "" && thumbPid != "" ==> m == media - {MediaKey(Image, videoPid), MediaKey(Image, thumbPid)}
  {
    Destroy(Destroy(media, Image, videoPid), Image, thumbPid)
  }

  /** The compensation as evidently intended: the video file destroyed as a video. */
  function IntendedCompensation(media: set<MediaKey>, videoPid: string, thumbPid: string): (m: set<MediaKey>)
    ensures videoPid != "" && thumbPid != "" ==> m == media - {MediaKey(VideoResource, videoPid), MediaKey(Image, thumbPid)}
  {
    Destroy(Destroy(media, VideoResource, videoPid), Image, thumbPid)
  }

  /** As written, the uploaded video asset survives the compensation. */
  lemma CompensationLeavesVideoAsset(media: set<MediaKey>, videoPid: string, thumbPid: string)
    requires videoPid != ""
    ensures var uploaded := media + {MediaKey(VideoResource, videoPid)} + {MediaKey(Image, thumbPid)};
      MediaKey(VideoResource, videoPid) in CompensationAsWritten(uploaded, videoPid, thumbPid)
  {
  }

  /** The intended compensation undoes both uploads exactly. */
  lemma IntendedCompensationRestores(media: set<MediaKey>, videoPid: string, thumbPid: string)
    requires videoPid != "" && thumbPid != ""
    requires MediaKey(VideoResource, videoPid) !in media && MediaKey(Image, thumbPid) !in media
    ensures IntendedCompensation(media + {MediaKey(VideoResource, videoPid)} + {MediaKey(Image, thumbPid)}, videoPid, thumbPid) == media
  {
  }

  /** The record handed to `Video.create` after both uploads answered. */
  function PublishInput(caller: Id, title: Option<string>, description: Option<string>,
                        videoUpload: UploadOutcome, thumbUpload: UploadOutcome): VideoInput
    requires videoUpload.Uploaded? && thumbUpload.Uploaded?
  {
    VideoInput(title, description, AssetInput(videoUpload.url, videoUpload.publicId),
               AssetInput(thumbUpload.url, thumbUpload.publicId), videoUpload.duration, caller)
  }

  /** Both files have a path and the expected type: the point from which publishVideo
      talks to the media store. */
  predicate FilesAccepted(videoFile: Option<FileUpload>, thumbnail: Option<FileUpload>) {
    HasPath(videoFile) && HasPath(thumbnail)
    && ValidateFileType(videoFile, "video").Ok? && ValidateFileType(thumbnail, "image").Ok?
  }

  /** publishVideo: 403 without a video file path, then 403 without a thumbnail path,
      then the two type checks, before anything is uploaded. An upload that throws or
      answers without url or public_id ends in 500, keeping what was uploaded so far.
      A record the schema rejects ends in 500 after the compensation. */
  method PublishVideo(db: Database, caller: Id, title: Option<string>, description: Option<string>,
                      videoFile: Option<FileUpload>, thumbnail: Option<FileUpload>,
                      videoUpload: UploadOutcome, thumbUpload: UploadOutcome, newId: Id, now: Time)
    returns (r: Result<Doc<Video>>)
    requires db.Valid() && FreshId(db.videos, newId)
    modifies db`videos, db`media
    ensures db.Valid()
    ensures !HasPath(videoFile) ==> r == Err(ApiError(FORBIDDEN))
    ensures HasPath(videoFile) && !HasPath(thumbnail) ==> r == Err(ApiError(FORBIDDEN))
    ensures HasPath(videoFile) && HasPath(thumbnail) && !FilesAccepted(videoFile, thumbnail) ==>
      r == Err(ApiError(BAD_REQUEST))
    ensures r.Err? && r.error.Status() != INTERNAL ==> db.media == old(db.media)
    ensures r.Err? ==> db.videos == old(db.videos)
    ensures FilesAccepted(videoFile, thumbnail) && !UploadComplete(videoUpload) ==>
      r.Err? && r.error.Status() == INTERNAL && db.media == AfterUpload(old(db.media), VideoResource, videoUpload)
    ensures FilesAccepted(videoFile, thumbnail) && UploadComplete(videoUpload) && !UploadComplete(thumbUpload) ==>
      r == Err(if thumbUpload.UploadThrew? then MediaError else ApiError(INTERNAL))
      && db.media == AfterUpload(AfterUpload(old(db.media), VideoResource, videoUpload), Image, thumbUpload)
    ensures FilesAccepted(videoFile, thumbnail) && UploadComplete(videoUpload) && UploadComplete(thumbUpload) ==>
      (r.Ok? <==> CreateVideo(PublishInput(caller, title, description, videoUpload, thumbUpload)).Ok?)
    ensures (FilesAccepted(videoFile, thumbnail) && UploadComplete(videoUpload) && UploadComplete(thumbUpload)
             && CreateVideo(PublishInput(caller, title, description, videoUpload, thumbUpload)).Err?) ==>
      r == Err(ApiError(INTERNAL))
      && db.media == CompensationAsWritten(old(db.media) + {MediaKey(VideoResource, videoUpload.publicId.value)}
                                                         + {MediaKey(Image, thumbUpload.publicId.value)},
                                           videoUpload.publicId.value, thumbUpload.publicId.value)
    ensures r.Ok? ==> UploadComplete(videoUpload) && UploadComplete(thumbUpload)
    ensures r.Ok? ==>
      (var created := CreateVideo(PublishInput(caller, title, description, videoUpload, thumbUpload));
       created.Ok? && r.value == Doc(newId, now, now, created.value) && db.videos == old(db.videos) + [r.value]
       && db.media == old(db.media) + {MediaKey(VideoResource, videoUpload.publicId.value), MediaKey(Image, thumbUpload.publicId.value)})
  {
    if !HasPath(videoFile) {
      return Err(ApiError(FORBIDDEN));
    }
    if !HasPath(thumbnail) {
      return Err(ApiError(FORBIDDEN));
    }
    if ValidateFileType(videoFile, "video").Err? || ValidateFileType(thumbnail, "image").Err? {
      return Err(ApiError(BAD_REQUEST));
    }
    if videoUpload.UploadThrew? {
      return Err(MediaError);
    }
    db.media := AfterUpload(db.media, VideoResource, videoUpload);
    if !UploadComplete(videoUpload) {
      return Err(ApiError(INTERNAL));
    }
    if thumbUpload.UploadThrew? {
      return Err(MediaError);
    }
    db.media := AfterUpload(db.media, Image, thumbUpload);
    if !UploadComplete(thumbUpload) {
      return Err(ApiError(INTERNAL));
    }
    match CreateVideo(PublishInput(caller, title, description, videoUpload, thumbUpload))
    case Err(_) =>
      db.media := CompensationAsWritten(db.media, videoUpload.publicId.value, thumbUpload.publicId.value);
      r := Err(ApiError(INTERNAL));
    case Ok(video) =>
      var doc := Doc(newId, now, now, video);
      AppendFresh(db.videos, doc);
      db.videos := db.videos + [doc];
      r := Ok(doc);
  }

  // ---------------------------------------------------------------------------
  // getVideoById

  /** The video with its owner populated (`null` when that user is gone). */
  datatype VideoWithOwner = VideoWithOwner(video: Doc<Video>, owner: Option<UserSummary>)

  /** getVideoById: 400 only for an empty id; an id that is not an ObjectId fails the
      cast (500); an unknown one is a 404. */
  function GetVideoById(db: Database, videoId: string): (r: Result<VideoWithOwner>)
    reads db
    ensures videoId == "" ==> r == Err(ApiError(BAD_REQUEST))
    ensures videoId != "" && !IsValidObjectId(videoId) ==> r == Err(CastError) && r.error.Status() == INTERNAL
    ensures IsValidObjectId(videoId) ==> (r.Ok? <==> videoId in IdsOf(db.videos))
    ensures IsValidObjectId(videoId) && r.Err? ==> r == Err(ApiError(NOT_FOUND))
    ensures r.Ok? ==> r.value.video in db.videos && r.value.video.id == videoId
    ensures r.Ok? ==> r.value.owner == OwnerDetails(db.users, r.value.video.body.owner)
  {
    if videoId == "" then Err(ApiError(BAD_REQUEST))
    else if !IsValidObjectId(videoId) then Err(CastError)
    else match Find(db.videos, videoId)
      case None => Err(ApiError(NOT_FOUND))
      case Some(v) => Ok(VideoWithOwner(v, OwnerDetails(db.users, v.body.owner)))
  }

  // ---------------------------------------------------------------------------
  // deleteVideo

  /** deleteVideo: the guard, then the video file (as a video) and the thumbnail (as an
      image) are destroyed, then the record is removed. Comments, likes and playlist
      entries that refer to the video are left as they are. */
  method DeleteVideo(db: Database, caller: Id, videoId: string) returns (r: Result<()>)
    requires db.Valid()
    modifies db`videos, db`media
    ensures db.Valid()
    ensures ValidateVideoDetails(old(db.videos), caller, videoId).Err? ==>
      r == Err(ValidateVideoDetails(old(db.videos), caller, videoId).error)
      && db.videos == old(db.videos) && db.media == old(db.media)
    ensures ValidateVideoDetails(old(db.videos), caller, videoId).Ok? ==>
      (var v := ValidateVideoDetails(old(db.videos), caller, videoId).value;
       r == Ok(()) && db.videos == Without(old(db.videos), videoId)
       && db.media == Destroy(Destroy(old(db.media), VideoResource, v.body.videoFile.publicId), Image, v.body.thumbnail.publicId))
    ensures r.Ok? ==> videoId !in IdsOf(db.videos) && IdsOf(db.videos) == IdsOf(old(db.videos)) - {videoId}
  {
    var checked := ValidateVideoDetails(db.videos, caller, videoId);
    if checked.Err? {
      return Err(checked.error);
    }
    var v := checked.value;
    db.media := Destroy(db.media, VideoResource, v.body.videoFile.publicId);
    db.media := Destroy(db.media, Image, v.body.thumbnail.publicId);
    WithoutIds(db.videos, videoId);
    WithoutUnique(db.videos, videoId);
    db.videos := Without(db.videos, videoId);
    r := Ok(());
  }

  // ---------------------------------------------------------------------------
  // updateVideo

  /** The `$set` of updateVideo: title and description as sent (an undefined one is
      dropped from the update), the thumbnail only when a new one was uploaded. */
  function UpdatedVideo(v: Doc<Video>, title: Option<string>, description: Option<string>,
                        thumbnail: Option<Asset>, now: Time): (u: Doc<Video>)
    ensures u.id == v.id && u.createdAt == v.createdAt && u.updatedAt == now
    ensures u.body.title == title.GetOr(v.body.title)
    ensures u.body.description == description.GetOr(v.body.description)
    ensures u.body.thumbnail == thumbnail.GetOr(v.body.thumbnail)
    ensures u.body.videoFile == v.body.videoFile && u.body.duration == v.body.duration
    ensures u.body.views == v.body.views && u.body.owner == v.body.owner
    ensures u.body.isPublished == v.body.isPublished && u.body.isPublic == v.body.isPublic
  {
    v.(updatedAt := now,
       body := v.body.(title := title.GetOr(v.body.title),
                       description := description.GetOr(v.body.description),
                       thumbnail := thumbnail.GetOr(v.body.thumbnail)))
  }

  /** The media store after the old thumbnail is (maybe) destroyed: skipped when its
      public_id is empty, and a failure (`deleted` false) is swallowed. */
  function AfterOldThumbnail(media: set<MediaKey>, v: Doc<Video>, deleted: bool): set<MediaKey> {
    if deleted then Destroy(media, Image, v.body.thumbnail.publicId) else media
  }

  /** updateVideo: the guard; without a file only title and description are set. With a
      file: 400 for a non-image, then the old thumbnail is destroyed, then the new one is
      uploaded from the file's path (no path: nothing is uploaded) and a missing url or
      public_id is a 500 that leaves the record referring to the old thumbnail. */
  method UpdateVideo(db: Database, caller: Id, videoId: string, title: Option<string>,
                     description: Option<string>, thumbnail: Option<FileUpload>,
                     oldThumbnailDeleted: bool, upload: UploadOutcome, now: Time)
    returns (r: Result<Doc<Video>>)
    requires db.Valid()
    modifies db`videos, db`media
    ensures db.Valid()
    ensures ValidateVideoDetails(old(db.videos), caller, videoId).Err? ==>
      r == Err(ValidateVideoDetails(old(db.videos), caller, videoId).error)
      && db.videos == old(db.videos) && db.media == old(db.media)
    ensures r.Err? ==> db.videos == old(db.videos)
    ensures ValidateVideoDetails(old(db.videos), caller, videoId).Ok? && thumbnail.None? ==>
      (var v := ValidateVideoDetails(old(db.videos), caller, videoId).value;
       r == Ok(UpdatedVideo(v, title, description, None, now))
       && db.videos == Replace(old(db.videos), r.value) && db.media == old(db.media))
    ensures (ValidateVideoDetails(old(db.videos), caller, videoId).Ok? && thumbnail.Some? &&
             ValidateFileType(thumbnail, "image").Err?) ==>
      r == Err(ApiError(BAD_REQUEST)) && db.media == old(db.media)
    ensures (ValidateVideoDetails(old(db.videos), caller, videoId).Ok? && thumbnail.Some? &&
             ValidateFileType(thumbnail, "image").Ok?) ==>
      (var v := ValidateVideoDetails(old(db.videos), caller, videoId).value;
       var cleared := AfterOldThumbnail(old(db.media), v, oldThumbnailDeleted);
       if !Truthy(thumbnail.value.path) then
         r == Err(ApiError(INTERNAL)) && db.media == cleared
       else if !UploadComplete(upload) then
         r.Err? && r.error.Status() == INTERNAL && db.media == AfterUpload(cleared, Image, upload)
       else
         r == Ok(UpdatedVideo(v, title, description, Some(Asset(upload.url.value, upload.publicId.value)), now))
         && db.videos == Replace(old(db.videos), r.value)
         && db.media == cleared + {MediaKey(Image, upload.publicId.value)})
  {
    var checked := ValidateVideoDetails(db.videos, caller, videoId);
    if checked.Err? {
      return Err(checked.error);
    }
    var v := checked.value;
    var newThumbnail: Option<Asset> := None;
    if thumbnail.Some? {
      if ValidateFileType(thumbnail, "image").Err? {
        return Err(ApiError(BAD_REQUEST));
      }
      db.media := AfterOldThumbnail(db.media, v, oldThumbnailDeleted);
      if !Truthy(thumbnail.value.path) {
        return Err(ApiError(INTERNAL));
      }
      if upload.UploadThrew? {
        return Err(MediaError);
      }
      db.media := AfterUpload(db.media, Image, upload);
      if !UploadComplete(upload) {
        return Err(ApiError(INTERNAL));
      }
      newThumbnail := Some(Asset(upload.url.value, upload.publicId.value));
    }
    var updated := UpdatedVideo(v, title, description, newThumbnail, now);
    ReplaceSpec(db.videos, updated);
    db.videos := Replace(db.videos, updated);
    r := Ok(updated);
  }

  /** A failed thumbnail replacement whose old-thumbnail deletion went through leaves the
      record pointing at an asset the media store no longer holds. */
  lemma FailedThumbnailReplacementDangles(media: set<MediaKey>, v: Doc<Video>)
    requires v.body.thumbnail.publicId != ""
    ensures MediaKey(Image, v.body.thumbnail.publicId) !in AfterOldThumbnail(media, v, true)
  {
  }

  // ---------------------------------------------------------------------------
  // togglePublishStatus

  /** The `$set` of togglePublishStatus. */
  function PublishToggled(v: Doc<Video>, now: Time): (u: Doc<Video>)
    ensures u.body.isPublished == !v.body.isPublished
    ensures u.id == v.id && u.createdAt == v.createdAt && u.updatedAt == now
    ensures u.body == v.body.(isPublished := u.body.isPublished)
  {
    v.(updatedAt := now, body := v.body.(isPublished := !v.body.isPublished))
  }

  /** Toggling twice restores the video, apart from its update time. */
  lemma PublishToggledTwice(v: Doc<Video>, t1: Time, t2: Time)
    ensures PublishToggled(PublishToggled(v, t1), t2) == v.(updatedAt := t2)
  {
  }

  /** togglePublishStatus: the guard, then isPublished is negated. */
  method TogglePublishStatus(db: Database, caller: Id, videoId: string, now: Time)
    returns (r: Result<Doc<Video>>)
    requires db.Valid()
    modifies db`videos
    ensures db.Valid()
    ensures ValidateVideoDetails(old(db.videos), caller, videoId).Err? ==>
      r == Err(ValidateVideoDetails(old(db.videos), caller, videoId).error) && db.videos == old(db.videos)
    ensures ValidateVideoDetails(old(db.videos), caller, videoId).Ok? ==>
      (var v := ValidateVideoDetails(old(db.videos), caller, videoId).value;
       r == Ok(PublishToggled(v, now)) && db.videos == Replace(old(db.videos), PublishToggled(v, now)))
    ensures r.Ok? ==> Find(db.videos, videoId) == Some(r.value) && IdsOf(db.videos) == IdsOf(old(db.videos))
  {
    var checked := ValidateVideoDetails(db.videos, caller, videoId);
    if checked.Err? {
      return Err(checked.error);
    }
    var updated := PublishToggled(checked.value, now);
    ReplaceSpec(db.videos, updated);
    db.videos := Replace(db.videos, updated);
    r := Ok(updated);
  }
}
