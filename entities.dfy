/** The records of the seven collections, and the user lookups every pipeline repeats. */
module Entities {
  import opened Common
  import opened Documents

  datatype User = User(username: string, fullName: string, avatar: string)

  /** A media-store asset as the Video record keeps it (`{url, public_id}`). */
  datatype Asset = Asset(url: string, publicId: string)

  datatype Video = Video(videoFile: Asset, thumbnail: Asset, title: string, description: string,
                         duration: int, views: int, isPublished: bool, isPublic: bool, owner: Id)

  datatype Comment = Comment(content: string, video: Id, owner: Id)

  /** Every like is created with exactly one of `video`, `comment` or `tweet`. */
  datatype LikeTarget = OnVideo(video: Id) | OnComment(comment: Id) | OnTweet(tweet: Id)

  datatype Like = Like(likedBy: Id, target: LikeTarget)

  datatype Subscription = Subscription(subscriber: Id, channel: Id)

  datatype Playlist = Playlist(name: string, description: string, owner: Id, videos: seq<Id>)

  datatype Tweet = Tweet(content: string, owner: Id)

  /** A joined user projected to `{fullName, username, avatar}` (`_id` comes along). */
  datatype UserSummary = UserSummary(id: Id, fullName: string, username: string, avatar: string)

  /** A joined user projected to `{fullName, username}`. */
  datatype UserName = UserName(id: Id, fullName: string, username: string)

  /** `$lookup` from users on `_id` with the `{fullName, username, avatar}` projection,
      then `$first`: the first user with that id, or no field at all. */
  function OwnerDetails(users: seq<Doc<User>>, id: Id): (r: Option<UserSummary>)
    ensures r.Some? <==> id in IdsOf(users)
    ensures r.Some? ==> (exists u :: u in users && u.id == id &&
                           r.value == UserSummary(id, u.body.fullName, u.body.username, u.body.avatar))
  {
    match Find(users, id)
    case None => None
    case Some(u) => Some(UserSummary(u.id, u.body.fullName, u.body.username, u.body.avatar))
  }

  /** The same join with the `{fullName, username}` projection. */
  function OwnerName(users: seq<Doc<User>>, id: Id): (r: Option<UserName>)
    ensures r.Some? <==> id in IdsOf(users)
    ensures r.Some? ==> (exists u :: u in users && u.id == id &&
                           r.value == UserName(id, u.body.fullName, u.body.username))
  {
    match Find(users, id)
    case None => None
    case Some(u) => Some(UserName(u.id, u.body.fullName, u.body.username))
  }

  /** `User.findOne({username})`: the first user with exactly that username. */
  function FindByUsername(users: seq<Doc<User>>, name: string): (r: Option<Doc<User>>)
    ensures r.Some? <==> exists i :: 0 <= i < |users| && users[i].body.username == name
    ensures r.Some? ==> r.value in users && r.value.body.username == name
  {
    if users == [] then None
    else if users[0].body.username == name then Some(users[0])
    else
      var r := FindByUsername(users[1..], name);
      assert forall i :: 0 < i < |users| ==> users[i] == users[1..][i - 1];
      r
  }
}
