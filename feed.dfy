/**
 * The unread-notification feed every page gets (tickets/context_processors.py): the
 * requester's five most recent unread notifications, newest first, and the number of
 * all their unread notifications. `user` is the authenticated requester, or `None`
 * for an anonymous request. The context processor only reads.
 */
module Feed {
  import opened Wrappers
  import opened Ordering
  import opened Directory
  import opened TicketModels

  const FeedSize := 5

  datatype FeedContext = FeedContext(notifications: seq<Notification>, unreadCount: nat)

  function CreatedKey(n: Notification): int { n.createdAt }

  /** `filter(user=uid, is_read=False)`. */
  function UnreadFor(uid: UserId): Notification -> bool
  {
    (n: Notification) => n.user == uid && !n.isRead
  }

  /** The queryset sliced with `[:n]`. */
  function Take<T>(s: seq<T>, n: nat): (r: seq<T>)
    ensures |r| == if |s| < n then |s| else n
    ensures r <= s
  {
    if |s| < n then s else s[..n]
  }

  /** The context the processor returns. */
  function UnreadFeed(notifications: seq<Notification>, user: Option<UserId>): (r: FeedContext)
    ensures user.None? ==> r == FeedContext([], 0)
    ensures |r.notifications| <= FeedSize && |r.notifications| <= r.unreadCount <= |notifications|
  {
    match user
    case None => FeedContext([], 0)
    case Some(uid) =>
      var unread := Filter(notifications, UnreadFor(uid));
      var sorted := SortNewestFirst(unread, CreatedKey);
      assert |sorted| == |multiset(sorted)| == |multiset(unread)| == |unread|;
      FeedContext(Take(sorted, FeedSize), |unread|)
  }

  /** Every listed notification is one of the requester's unread ones. */
  lemma FeedItemsUnread(notifications: seq<Notification>, uid: UserId)
    ensures forall i :: 0 <= i < |UnreadFeed(notifications, Some(uid)).notifications| ==>
      var n := UnreadFeed(notifications, Some(uid)).notifications[i];
      n in notifications && n.user == uid && !n.isRead
  {
    var unread := Filter(notifications, UnreadFor(uid));
    var sorted := SortNewestFirst(unread, CreatedKey);
    var list := UnreadFeed(notifications, Some(uid)).notifications;
    forall i | 0 <= i < |list|
      ensures list[i] in notifications && list[i].user == uid && !list[i].isRead
    {
      assert list[i] == sorted[i];
      assert sorted[i] in multiset(sorted);
      FilterMember(notifications, UnreadFor(uid), list[i]);
    }
  }

  /** The list is newest first and five long unless fewer are unread; the count covers all of them. */
  lemma FeedShape(notifications: seq<Notification>, uid: UserId)
    ensures var f := UnreadFeed(notifications, Some(uid));
      NewestFirst(f.notifications, CreatedKey) &&
      f.unreadCount == |Filter(notifications, UnreadFor(uid))| &&
      |f.notifications| == (if f.unreadCount < FeedSize then f.unreadCount else FeedSize)
  {
    var unread := Filter(notifications, UnreadFor(uid));
    var sorted := SortNewestFirst(unread, CreatedKey);
    assert |sorted| == |multiset(sorted)| == |multiset(unread)| == |unread|;
  }

  /** The count is zero exactly when the requester has no unread notification. */
  lemma FeedCountZero(notifications: seq<Notification>, uid: UserId)
    ensures UnreadFeed(notifications, Some(uid)).unreadCount == 0 <==>
      forall i :: 0 <= i < |notifications| ==> notifications[i].user != uid || notifications[i].isRead
  {
    var unread := Filter(notifications, UnreadFor(uid));
    if |unread| == 0 {
      forall i | 0 <= i < |notifications|
        ensures notifications[i].user != uid || notifications[i].isRead
      {
        FilterMember(notifications, UnreadFor(uid), notifications[i]);
      }
    } else {
      FilterMember(notifications, UnreadFor(uid), unread[0]);
    }
  }

  /** A left-out unread notification is never newer than any listed one. */
  lemma FeedMostRecent(notifications: seq<Notification>, uid: UserId, y: Notification)
    requires y in notifications && y.user == uid && !y.isRead
    requires y !in UnreadFeed(notifications, Some(uid)).notifications
    ensures forall i :: 0 <= i < |UnreadFeed(notifications, Some(uid)).notifications| ==>
      y.createdAt <= UnreadFeed(notifications, Some(uid)).notifications[i].createdAt
  {
    var unread := Filter(notifications, UnreadFor(uid));
    var sorted := SortNewestFirst(unread, CreatedKey);
    var list := UnreadFeed(notifications, Some(uid)).notifications;
    FilterMember(notifications, UnreadFor(uid), y);
    assert y in multiset(unread);
    assert y in sorted by { assert y in multiset(sorted); }
    var j :| 0 <= j < |sorted| && sorted[j] == y;
    assert list == sorted[..|list|];
    assert j >= |list|;
    forall i | 0 <= i < |list|
      ensures y.createdAt <= list[i].createdAt
    {
      assert list[i] == sorted[i];
      assert CreatedKey(sorted[i]) >= CreatedKey(sorted[j]);
    }
  }
}
