/** The tweet handlers: create, list a user's tweets, show one, and the owner-only
    update and delete. */
module Tweets {
  import opened Common
  import opened Documents
  import opened Entities
  import opened Store
  import opened Listing

  /** createTweet: the trimmed content is stored with the caller as owner. The whole
      handler runs inside a try whose catch answers 500, so a missing content (trimming
      `undefined` throws) ends in 500. */
  method CreateTweet(db: Database, caller: Id, content: Option<string>, newId: Id, now: Time)
    returns (r: Result<Doc<Tweet>>)
    requires db.Valid() && FreshId(db.tweets, newId)
    modifies db`tweets
    ensures db.Valid()
    ensures content.None? ==> r == Err(ApiError(INTERNAL)) && db.tweets == old(db.tweets)
    ensures content.Some? ==> r == Ok(Doc(newId, now, now, Tweet(Trim(content.value), caller)))
    ensures r.Ok? ==> db.tweets == old(db.tweets) + [r.value]
  {
    match content
    case None =>
      r := Err(ApiError(INTERNAL));
    case Some(text) =>
      var tweet := Doc(newId, now, now, Tweet(Trim(text), caller));
      AppendFresh(db.tweets, tweet);
      db.tweets := db.tweets + [tweet];
      r := Ok(tweet);
  }

  /** validateTweetDetails: 400 for a bad id, 404 when absent, 403 when the caller is
      not the owner. */
  function ValidateTweetDetails(tweets: seq<Doc<Tweet>>, caller: Id, tweetId: string): (r: Result<Doc<Tweet>>)
    ensures !IsValidObjectId(tweetId) ==> r == Err(ApiError(BAD_REQUEST))
    ensures IsValidObjectId(tweetId) && tweetId !in IdsOf(tweets) ==> r == Err(ApiError(NOT_FOUND))
    ensures r.Ok? ==> r.value in tweets && r.value.id == tweetId && r.value.body.owner == caller
    ensures r.Ok? <==>
      IsValidObjectId(tweetId) && tweetId in IdsOf(tweets) && Find(tweets, tweetId).value.body.owner == caller
    ensures r == Err(ApiError(FORBIDDEN)) <==>
      IsValidObjectId(tweetId) && tweetId in IdsOf(tweets) && Find(tweets, tweetId).value.body.owner != caller
  {
    if !IsValidObjectId(tweetId) then Err(ApiError(BAD_REQUEST))
    else match Find(tweets, tweetId)
      case None => Err(ApiError(NOT_FOUND))
      case Some(t) => if t.body.owner != caller then Err(ApiError(FORBIDDEN)) else Ok(t)
  }

  /** deleteTweet: the guard, then exactly that tweet is removed. */
  method DeleteTweet(db: Database, caller: Id, tweetId: string) returns (r: Result<()>)
    requires db.Valid()
    modifies db`tweets
    ensures db.Valid()
    ensures ValidateTweetDetails(old(db.tweets), caller, tweetId).Err? ==>
      r == Err(ValidateTweetDetails(old(db.tweets), caller, tweetId).error) && db.tweets == old(db.tweets)
    ensures ValidateTweetDetails(old(db.tweets), caller, tweetId).Ok? ==>
      r == Ok(()) && db.tweets == Without(old(db.tweets), tweetId)
    ensures r.Ok? ==> IdsOf(db.tweets) == IdsOf(old(db.tweets)) - {tweetId}
  {
    var checked := ValidateTweetDetails(db.tweets, caller, tweetId);
    if checked.Err? {
      return Err(checked.error);
    }
    WithoutIds(db.tweets, tweetId);
    WithoutUnique(db.tweets, tweetId);
    db.tweets := Without(db.tweets, tweetId);
    r := Ok(());
  }

  /** The `$set: {content}` update: the content exactly as sent, not trimmed; an
      undefined content is dropped from the update and the old one stays. */
  function UpdatedTweet(t: Doc<Tweet>, content: Option<string>, now: Time): (u: Doc<Tweet>)
    ensures u.id == t.id && u.createdAt == t.createdAt && u.updatedAt == now && u.body.owner == t.body.owner
    ensures u.body.content == content.GetOr(t.body.content)
  {
    t.(updatedAt := now, body := t.body.(content := content.GetOr(t.body.content)))
  }

  /** updateTweet: the guard, then the content is set without trimming. */
  method UpdateTweet(db: Database, caller: Id, tweetId: string, content: Option<string>, now: Time)
    returns (r: Result<Doc<Tweet>>)
    requires db.Valid()
    modifies db`tweets
    ensures db.Valid()
    ensures ValidateTweetDetails(old(db.tweets), caller, tweetId).Err? ==>
      r == Err(ValidateTweetDetails(old(db.tweets), caller, tweetId).error) && db.tweets == old(db.tweets)
    ensures ValidateTweetDetails(old(db.tweets), caller, tweetId).Ok? ==>
      (var t := ValidateTweetDetails(old(db.tweets), caller, tweetId).value;
       r == Ok(UpdatedTweet(t, content, now)) && db.tweets == Replace(old(db.tweets), UpdatedTweet(t, content, now)))
  {
    var checked := ValidateTweetDetails(db.tweets, caller, tweetId);
    if checked.Err? {
      return Err(checked.error);
    }
    var updated := UpdatedTweet(checked.value, content, now);
    ReplaceSpec(db.tweets, updated);
    db.tweets := Replace(db.tweets, updated);
    r := Ok(updated);
  }

  /** getOneTweet: the tweet with its owner populated (`null` when that user is gone). */
  datatype TweetWithOwner = TweetWithOwner(tweet: Doc<Tweet>, owner: Option<UserSummary>)

  function GetOneTweet(db: Database, tweetId: string): (r: Result<TweetWithOwner>)
    reads db
    ensures !IsValidObjectId(tweetId) ==> r == Err(ApiError(BAD_REQUEST))
    ensures IsValidObjectId(tweetId) && tweetId !in IdsOf(db.tweets) ==> r == Err(ApiError(NOT_FOUND))
    ensures IsValidObjectId(tweetId) ==> (r.Ok? <==> tweetId in IdsOf(db.tweets))
    ensures r.Ok? ==> r.value.tweet in db.tweets && r.value.tweet.id == tweetId
    ensures r.Ok? ==> r.value.owner == OwnerDetails(db.users, r.value.tweet.body.owner)
  {
    if !IsValidObjectId(tweetId) then Err(ApiError(BAD_REQUEST))
    else match Find(db.tweets, tweetId)
      case None => Err(ApiError(NOT_FOUND))
      case Some(t) => Ok(TweetWithOwner(t, OwnerDetails(db.users, t.body.owner)))
  }

  // ---------------------------------------------------------------------------
  // getUserTweets

  /** A row: `_id`, content, the owner's details and the two timestamps. */
  datatype TweetRow = TweetRow(id: Id, content: string, ownerDetails: Option<UserSummary>,
                               createdAt: Time, updatedAt: Time)

  function TweetRows(users: seq<Doc<User>>, tweets: seq<Doc<Tweet>>, owner: Id): (rows: seq<TweetRow>)
    ensures |rows| <= |tweets|
  {
    if tweets == [] then []
    else
      (if tweets[0].body.owner == owner
       then [TweetRow(tweets[0].id, tweets[0].body.content, OwnerDetails(users, owner),
                      tweets[0].createdAt, tweets[0].updatedAt)]
       else [])
      + TweetRows(users, tweets[1..], owner)
  }

  /** The rows are exactly the owner's tweets. */
  lemma {:induction false} TweetRowsSpec(users: seq<Doc<User>>, tweets: seq<Doc<Tweet>>, owner: Id)
    ensures forall row :: row in TweetRows(users, tweets, owner) ==>
      row.ownerDetails == OwnerDetails(users, owner) &&
      exists t :: t in tweets && t.id == row.id && t.body.owner == owner && t.body.content == row.content
        && t.createdAt == row.createdAt && t.updatedAt == row.updatedAt
    ensures forall t :: t in tweets && t.body.owner == owner ==>
      TweetRow(t.id, t.body.content, OwnerDetails(users, owner), t.createdAt, t.updatedAt) in TweetRows(users, tweets, owner)
    ensures |TweetRows(users, tweets, owner)| == |Filter(tweets, (t: Doc<Tweet>) => t.body.owner == owner)|
  {
    if tweets != [] {
      TweetRowsSpec(users, tweets[1..], owner);
      assert tweets == [tweets[0]] + tweets[1..];
    }
  }

  /** `options.sort = {createdAt: ±1}`: whatever `sortBy` says. */
  function TweetKey(row: TweetRow): SortKey { Date(row.createdAt) }

  /** getUserTweets: 400 for a blank username and also 400 for an unknown one; 404 when
      the page comes back empty; otherwise the page. */
  function GetUserTweets(db: Database, username: string, q: ListQuery,
                         paginate: Paginator<TweetRow>): (r: Result<Page<TweetRow>>)
    reads db
    ensures Trim(username) == "" ==> r == Err(ApiError(BAD_REQUEST))
    ensures Trim(username) != "" && FindByUsername(db.users, Trim(username)).None? ==> r == Err(ApiError(BAD_REQUEST))
    ensures r.Ok? ==> r.value.docs != []
    ensures NamedTweeter(db, username).Some? ==>
      (var result := paginate(UserTweetRows(db, NamedTweeter(db, username).value.id, q), PageNumber(q), LimitNumber(q));
       r == if result.docs == [] then Err(ApiError(NOT_FOUND)) else Ok(result))
    ensures r.Err? ==> r.error.ApiError? && r.error.status in {BAD_REQUEST, NOT_FOUND}
  {
    if Trim(username) == "" then Err(ApiError(BAD_REQUEST))
    else match FindByUsername(db.users, Trim(username))
      case None => Err(ApiError(BAD_REQUEST))
      case Some(u) =>
        var result := paginate(UserTweetRows(db, u.id, q), PageNumber(q), LimitNumber(q));
        if result.docs == [] then Err(ApiError(NOT_FOUND)) else Ok(result)
  }

  /** The list ignores `sortBy`. */
  lemma UserTweetsIgnoreSortBy(db: Database, username: string, q: ListQuery, paginate: Paginator<TweetRow>, field: string)
    ensures GetUserTweets(db, username, q, paginate) == GetUserTweets(db, username, q.(sortBy := Some(field)), paginate)
  {
  }

  /** The rows handed to the paginator: the user's tweets by creation time, oldest first
      only for `sortType` "asc". */
  function UserTweetRows(db: Database, owner: Id, q: ListQuery): seq<TweetRow>
    reads db
  {
    SortRows(TweetRows(db.users, db.tweets, owner), TweetKey, Ascending(q))
  }

  lemma UserTweetsByCreation(db: Database, owner: Id, q: ListQuery)
    ensures var rows := UserTweetRows(db, owner, q);
      forall i, j :: 0 <= i < j < |rows| ==>
        if Ascending(q) then rows[i].createdAt <= rows[j].createdAt else rows[i].createdAt >= rows[j].createdAt
    ensures multiset(UserTweetRows(db, owner, q)) == multiset(TweetRows(db.users, db.tweets, owner))
  {
    var rows := UserTweetRows(db, owner, q);
    SortRowsSpec(TweetRows(db.users, db.tweets, owner), TweetKey, Ascending(q));
    forall i, j | 0 <= i < j < |rows|
      ensures if Ascending(q) then rows[i].createdAt <= rows[j].createdAt else rows[i].createdAt >= rows[j].createdAt
    {
      assert InOrder(TweetKey(rows[i]), TweetKey(rows[j]), Ascending(q));
    }
  }

  function NamedTweeter(db: Database, username: string): Option<Doc<User>>
    reads db
  {
    if Trim(username) == "" then None else FindByUsername(db.users, Trim(username))
  }
}
