/** The database the controllers work against: one collection per model, each in
    natural (insertion) order, and the set of assets held by the media store. */
module Store {
  import opened Common
  import opened Documents
  import opened Entities

  /** Cloudinary keeps images and videos apart: an asset is named by its resource type
      and its public_id. */
  datatype ResourceKind = Image | VideoResource
  datatype MediaKey = MediaKey(kind: ResourceKind, publicId: string)

  class Database {
    var users: seq<Doc<User>>
    var videos: seq<Doc<Video>>
    var comments: seq<Doc<Comment>>
    var likes: seq<Doc<Like>>
    var subscriptions: seq<Doc<Subscription>>
    var playlists: seq<Doc<Playlist>>
    var tweets: seq<Doc<Tweet>>
    var media: set<MediaKey>

    /** What the handlers maintain: unique ids in every collection, at most one like per
        (user, target) and one subscription per (subscriber, channel), nobody subscribed
        to themself, and no playlist listing a video twice. */
    ghost predicate Valid()
      reads this
    {
      && UniqueIds(users) && UniqueIds(videos) && UniqueIds(comments) && UniqueIds(likes)
      && UniqueIds(subscriptions) && UniqueIds(playlists) && UniqueIds(tweets)
      && UniqueBodies(likes) && UniqueBodies(subscriptions)
      && (forall i :: 0 <= i < |subscriptions| ==> subscriptions[i].body.subscriber != subscriptions[i].body.channel)
      && (forall i :: 0 <= i < |playlists| ==> Distinct(playlists[i].body.videos))
    }

    constructor ()
      ensures Valid()
      ensures users == [] && videos == [] && comments == [] && likes == []
      ensures subscriptions == [] && playlists == [] && tweets == [] && media == {}
    {
      users, videos, comments, likes := [], [], [], [];
      subscriptions, playlists, tweets, media := [], [], [], {};
    }
  }
}
