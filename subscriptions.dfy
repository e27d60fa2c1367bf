/** The subscription handlers: toggling a subscription to a channel named by username,
    and the two lists (a channel's subscribers, the channels a user subscribes to). */
module Subscriptions {
  import opened Common
  import opened Documents
  import opened Entities
  import opened Store
  import opened Listing

  /** `{ subscribed, subscription }`. */
  datatype SubscriptionReply = SubscriptionReply(subscribed: bool, subscription: Doc<Subscription>)

  /** toggleSubscription: 400 for a blank username, 404 for an unknown channel, 400 for
      the caller's own channel, all before the subscriptions are read; otherwise the
      (caller, channel) subscription is deleted when it exists and created when not, and
      `subscribed` is true exactly when it did not exist before. */
  method ToggleSubscription(db: Database, caller: Id, username: string, newId: Id, now: Time)
    returns (r: Result<SubscriptionReply>)
    requires db.Valid() && FreshId(db.subscriptions, newId)
    modifies db`subscriptions
    ensures db.Valid()
    ensures Trim(username) == "" ==> r == Err(ApiError(BAD_REQUEST))
    ensures Trim(username) != "" ==>
      match FindByUsername(db.users, Trim(username))
      case None => r == Err(ApiError(NOT_FOUND))
      case Some(channel) =>
        if channel.id == caller then r == Err(ApiError(BAD_REQUEST))
        else (var key := Subscription(caller, channel.id);
              r.Ok? && r.value.subscribed == !Present(old(db.subscriptions), key)
              && r.value.subscription.body == key
              && db.subscriptions == Toggled(old(db.subscriptions), key, newId, now))
    ensures r.Err? ==> db.subscriptions == old(db.subscriptions)
  {
    var name := Trim(username);
    if name == "" {
      return Err(ApiError(BAD_REQUEST));
    }
    var channel := FindByUsername(db.users, name);
    if channel.None? {
      return Err(ApiError(NOT_FOUND));
    }
    var channelId := channel.value.id;
    if channelId == caller {
      return Err(ApiError(BAD_REQUEST));
    }
    var key := Subscription(caller, channelId);
    ToggledSpec(db.subscriptions, key, newId, now);
    ToggleKeepsNoSelfSubscription(db.subscriptions, key, newId, now);
    var existing := FirstWith(db.subscriptions, key);
    var subscription;
    if existing.Some? {
      db.subscriptions := RemoveFirst(db.subscriptions, key);
      subscription := existing.value;
    } else {
      subscription := Doc(newId, now, now, key);
      db.subscriptions := db.subscriptions + [subscription];
    }
    r := Ok(SubscriptionReply(existing.None?, subscription));
  }

  /** A toggle of a pair of two different users keeps everybody unsubscribed from
      themself. */
  lemma ToggleKeepsNoSelfSubscription(subs: seq<Doc<Subscription>>, key: Subscription, newId: Id, now: Time)
    requires UniqueBodies(subs) && UniqueIds(subs) && newId !in IdsOf(subs)
    requires key.subscriber != key.channel
    requires forall i :: 0 <= i < |subs| ==> subs[i].body.subscriber != subs[i].body.channel
    ensures var r := Toggled(subs, key, newId, now);
      forall i :: 0 <= i < |r| ==> r[i].body.subscriber != r[i].body.channel
  {
    var r := Toggled(subs, key, newId, now);
    ToggledSpec(subs, key, newId, now);
    forall i | 0 <= i < |r| ensures r[i].body.subscriber != r[i].body.channel {
      if r[i].body != key {
        assert r[i] in subs;
      }
    }
  }

  /** Two toggles of the same pair restore its state, and no other pair is touched. */
  lemma SubscriptionToggleIsolated(subs: seq<Doc<Subscription>>, key: Subscription, other: Doc<Subscription>,
                                   id1: Id, t1: Time, id2: Id, t2: Time)
    requires UniqueBodies(subs) && UniqueIds(subs) && id1 !in IdsOf(subs)
    requires other.body != key
    ensures other in Toggled(subs, key, id1, t1) <==> other in subs
    ensures Present(Toggled(Toggled(subs, key, id1, t1), key, id2, t2), key) == Present(subs, key)
    ensures !Present(subs, key) ==> Toggled(Toggled(subs, key, id1, t1), key, id2, t2) == subs
  {
    ToggledSpec(subs, key, id1, t1);
    ToggleTwice(subs, key, id1, t1, id2, t2);
  }

  // ---------------------------------------------------------------------------
  // The two lists

  /** A row of either list: the joined user's `_id`, `fullName`, `username` and `avatar`
      (all absent when that user no longer exists) and the subscription's `createdAt`
      renamed `subscribedAt`. */
  datatype SubscriptionRow = SubscriptionRow(user: Option<UserSummary>, subscribedAt: Time)

  /** `$match: {<matched>: target}`, `$lookup` of the `joined` side in users, `$first`,
      `$project`; in natural order. */
  function SubscriptionRows(users: seq<Doc<User>>, subs: seq<Doc<Subscription>>,
                            matched: Subscription -> Id, joined: Subscription -> Id,
                            target: Id): (rows: seq<SubscriptionRow>)
    ensures |rows| <= |subs|
  {
    if subs == [] then []
    else
      (if matched(subs[0].body) == target
       then [SubscriptionRow(OwnerDetails(users, joined(subs[0].body)), subs[0].createdAt)]
       else [])
      + SubscriptionRows(users, subs[1..], matched, joined, target)
  }

  /** The rows are exactly the subscriptions whose matched side is the target, each
      showing the user on the other side and when it was created. */
  lemma {:induction false} SubscriptionRowsSpec(users: seq<Doc<User>>, subs: seq<Doc<Subscription>>,
                                                matched: Subscription -> Id, joined: Subscription -> Id,
                                                target: Id)
    ensures forall row :: row in SubscriptionRows(users, subs, matched, joined, target) ==>
      exists s :: s in subs && matched(s.body) == target &&
        row == SubscriptionRow(OwnerDetails(users, joined(s.body)), s.createdAt)
    ensures forall s :: s in subs && matched(s.body) == target ==>
      SubscriptionRow(OwnerDetails(users, joined(s.body)), s.createdAt)
        in SubscriptionRows(users, subs, matched, joined, target)
    ensures |SubscriptionRows(users, subs, matched, joined, target)| ==
      |Filter(subs, (s: Doc<Subscription>) => matched(s.body) == target)|
  {
    if subs != [] {
      SubscriptionRowsSpec(users, subs[1..], matched, joined, target);
      assert subs == [subs[0]] + subs[1..];
    }
  }

  function SubscriberSide(s: Subscription): Id { s.subscriber }
  function ChannelSide(s: Subscription): Id { s.channel }

  /** The `$sort` key of a row; the pipeline's `createdAt` was renamed, so a sort on it
      finds no such field. */
  function SubscriptionKey(field: string): SubscriptionRow -> SortKey {
    (row: SubscriptionRow) =>
      if field == "subscribedAt" then Date(row.subscribedAt)
      else if row.user.None? then Absent
      else if field == "_id" then Oid(row.user.value.id)
      else if field == "fullName" then Text(row.user.value.fullName)
      else if field == "username" then Text(row.user.value.username)
      else if field == "avatar" then Text(row.user.value.avatar)
      else Absent
  }

  /** Looks up the user named in the route, as both list handlers do. */
  function NamedUser(db: Database, username: string): (r: Result<Doc<User>>)
    reads db
    ensures Trim(username) == "" ==> r == Err(ApiError(BAD_REQUEST))
    ensures r.Ok? ==> r.value in db.users && r.value.body.username == Trim(username)
    ensures Trim(username) != "" && r.Err? ==>
      r == Err(ApiError(NOT_FOUND)) && forall u :: u in db.users ==> u.body.username != Trim(username)
  {
    if Trim(username) == "" then Err(ApiError(BAD_REQUEST))
    else match FindByUsername(db.users, Trim(username))
      case None => Err(ApiError(NOT_FOUND))
      case Some(u) => Ok(u)
  }

  /** getUserChannelSubscribers: the subscriptions whose channel is the named user,
      showing each subscriber. The paginator's result is answered as it is. */
  function GetUserChannelSubscribers(db: Database, username: string, q: ListQuery,
                                     paginate: Paginator<SubscriptionRow>): (r: Result<Page<SubscriptionRow>>)
    reads db
    ensures NamedUser(db, username).Err? ==> r == Err(NamedUser(db, username).error)
    ensures NamedUser(db, username).Ok? ==> r.Ok?
    ensures r.Ok? ==> PagesRows(r.value, SubscriptionRows(db.users, db.subscriptions, ChannelSide, SubscriberSide,
                                                          NamedUser(db, username).value.id),
                                SubscriptionKey(SortField(q)), q, paginate)
  {
    match NamedUser(db, username)
    case Err(e) => Err(e)
    case Ok(channel) =>
      var rows := SubscriptionRows(db.users, db.subscriptions, ChannelSide, SubscriberSide, channel.id);
      SortedPagePagesRows(rows, SubscriptionKey(SortField(q)), q, paginate);
      Ok(paginate(SortRows(rows, SubscriptionKey(SortField(q)), Ascending(q)), PageNumber(q), LimitNumber(q)))
  }

  /** getSubscribedChannels: the mirror image, matching the subscriber side and showing
      each channel. */
  function GetSubscribedChannels(db: Database, username: string, q: ListQuery,
                                 paginate: Paginator<SubscriptionRow>): (r: Result<Page<SubscriptionRow>>)
    reads db
    ensures NamedUser(db, username).Err? ==> r == Err(NamedUser(db, username).error)
    ensures NamedUser(db, username).Ok? ==> r.Ok?
    ensures r.Ok? ==> PagesRows(r.value, SubscriptionRows(db.users, db.subscriptions, SubscriberSide, ChannelSide,
                                                          NamedUser(db, username).value.id),
                                SubscriptionKey(SortField(q)), q, paginate)
  {
    match NamedUser(db, username)
    case Err(e) => Err(e)
    case Ok(subscriber) =>
      var rows := SubscriptionRows(db.users, db.subscriptions, SubscriberSide, ChannelSide, subscriber.id);
      SortedPagePagesRows(rows, SubscriptionKey(SortField(q)), q, paginate);
      Ok(paginate(SortRows(rows, SubscriptionKey(SortField(q)), Ascending(q)), PageNumber(q), LimitNumber(q)))
  }

  /** Neither list builds the zero envelope: whatever page the paginator returns, empty
      or not, is the reply. */
  lemma SubscriptionListsPassPageThrough(db: Database, username: string, q: ListQuery,
                                         paginate: Paginator<SubscriptionRow>)
    requires NamedUser(db, username).Ok?
    ensures var u := NamedUser(db, username).value;
      var byChannel := SubscriptionRows(db.users, db.subscriptions, ChannelSide, SubscriberSide, u.id);
      var bySubscriber := SubscriptionRows(db.users, db.subscriptions, SubscriberSide, ChannelSide, u.id);
      var key := SubscriptionKey(SortField(q));
      GetUserChannelSubscribers(db, username, q, paginate)
        == Ok(paginate(SortRows(byChannel, key, Ascending(q)), PageNumber(q), LimitNumber(q)))
      && GetSubscribedChannels(db, username, q, paginate)
        == Ok(paginate(SortRows(bySubscriber, key, Ascending(q)), PageNumber(q), LimitNumber(q)))
  {
  }

  // ---------------------------------------------------------------------------
  // The default sort

  /** As written: the default `sortBy` is "createdAt", which the projection renamed to
      `subscribedAt`, so every row has the same (absent) key and the default
      "newest first" sort leaves the rows in pipeline order. */
  lemma {:induction false} DefaultSortIgnoresTime(rows: seq<SubscriptionRow>)
    ensures SortRows(rows, SubscriptionKey("createdAt"), false) == rows
  {
    if rows != [] {
      DefaultSortIgnoresTime(rows[1..]);
      assert rows == [rows[0]] + rows[1..];
    }
  }

  /** Two subscribers, the older one first in the collection: the default ascending
      order by time is not produced even for descending requests. */
  lemma DefaultSortCounterexample()
    ensures var rows := [SubscriptionRow(None, 1), SubscriptionRow(None, 2)];
      var out := SortRows(rows, SubscriptionKey("createdAt"), false);
      out[0].subscribedAt < out[1].subscribedAt
  {
    DefaultSortIgnoresTime([SubscriptionRow(None, 1), SubscriptionRow(None, 2)]);
  }

  /** Corrected: the field the comment beside the sort stage names, `subscribedAt`. */
  function IntendedSortField(q: ListQuery): string {
    if q.sortBy.None? || q.sortBy == Some("createdAt") then "subscribedAt" else q.sortBy.value
  }

  /** With the corrected default, a request without `sortBy` lists the newest
      subscription first. */
  lemma IntendedDefaultSortIsNewestFirst(rows: seq<SubscriptionRow>, q: ListQuery)
    requires q.sortBy.None? && !Ascending(q)
    ensures var out := SortRows(rows, SubscriptionKey(IntendedSortField(q)), Ascending(q));
      multiset(out) == multiset(rows) &&
      forall i, j :: 0 <= i < j < |out| ==> out[i].subscribedAt >= out[j].subscribedAt
  {
    var key := SubscriptionKey(IntendedSortField(q));
    SortRowsSpec(rows, key, Ascending(q));
    var out := SortRows(rows, key, Ascending(q));
    forall i, j | 0 <= i < j < |out| ensures out[i].subscribedAt >= out[j].subscribedAt {
      assert InOrder(key(out[i]), key(out[j]), false);
    }
  }
}
