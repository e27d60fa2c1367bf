/** The Video schema: which fields a new document requires and what it defaults. */
module VideoModel {
  import opened Common
  import opened Entities

  /** The fields handed to `Video.create`; `None` is a field left undefined. */
  datatype AssetInput = AssetInput(url: Option<string>, publicId: Option<string>)

  datatype VideoInput = VideoInput(title: Option<string>, description: Option<string>,
                                   videoFile: AssetInput, thumbnail: AssetInput,
                                   duration: Option<int>, owner: Id)

  /** Mongoose's `required` check on a String path: present and not the empty string. */
  predicate RequiredString(v: Option<string>) {
    v.Some? && v.value != ""
  }

  predicate RequiredAsset(a: AssetInput) {
    RequiredString(a.url) && RequiredString(a.publicId)
  }

  /** Every required path is set: both parts of each asset, title, description, duration. */
  predicate Complete(v: VideoInput) {
    RequiredAsset(v.videoFile) && RequiredAsset(v.thumbnail)
    && RequiredString(v.title) && RequiredString(v.description) && v.duration.Some?
  }

  /** Validating and building a new Video: a ValidationError when a required path is
      missing, otherwise the record with `views` 0 and `isPublished`, `isPublic` true. */
  function CreateVideo(v: VideoInput): (r: Result<Video>)
    ensures r.Ok? <==> Complete(v)
    ensures r.Err? ==> r.error == ValidationError
    ensures r.Ok? ==> r.value.title == v.title.value && r.value.description == v.description.value
    ensures r.Ok? ==> r.value.videoFile == Asset(v.videoFile.url.value, v.videoFile.publicId.value)
    ensures r.Ok? ==> r.value.thumbnail == Asset(v.thumbnail.url.value, v.thumbnail.publicId.value)
    ensures r.Ok? ==> r.value.duration == v.duration.value && r.value.owner == v.owner
    ensures r.Ok? ==> r.value.views == 0 && r.value.isPublished && r.value.isPublic
  {
    if !Complete(v) then Err(ValidationError)
    else Ok(Video(Asset(v.videoFile.url.value, v.videoFile.publicId.value),
                  Asset(v.thumbnail.url.value, v.thumbnail.publicId.value),
                  v.title.value, v.description.value, v.duration.value, 0, true, true, v.owner))
  }

  /** Leaving out any one of the required paths makes creation fail. */
  lemma EachRequiredPathIsRequired(v: VideoInput)
    ensures CreateVideo(v.(title := None)).Err?
    ensures CreateVideo(v.(description := Some(""))).Err?
    ensures CreateVideo(v.(duration := None)).Err?
    ensures CreateVideo(v.(videoFile := v.videoFile.(publicId := None))).Err?
    ensures CreateVideo(v.(thumbnail := v.thumbnail.(url := None))).Err?
  {
  }
}
