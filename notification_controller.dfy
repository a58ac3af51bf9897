/**
  The notification handlers: a recipient's inbox page (newest first, with the total and
  the unread count), the unread count alone, marking one or all notifications read,
  deleting one, and clearing the inbox. Only the recipient may touch a notification.
 */
module NotificationController {
  import opened Wrappers
  import opened Docs
  import opened Http
  import opened Db
  import opened Sorting
  import Paging
  import ReplyController
  import NM = NotificationModel

  const NOTIFICATION_NOT_FOUND: string := "Notification not found"
  const NOT_YOUR_UPDATE: string := "You can only update your own notifications"
  const NOT_YOUR_DELETE: string := "You can only delete your own notifications"
  /** The store's refusal of a negative `skip` (its wording is not modelled). */
  const NEGATIVE_SKIP: string := "skip must be non-negative"

  /** The filter `{ recipientId: u }`. */
  function ForRecipient(u: Id): Doc<NM.Notification> -> bool {
    (n: Doc<NM.Notification>) => n.body.recipientId == u
  }

  /** The filter `{ recipientId: u, isRead: false }`. */
  function UnreadFor(u: Id): Doc<NM.Notification> -> bool {
    (n: Doc<NM.Notification>) => n.body.recipientId == u && !n.body.isRead
  }

  /** The sort key of `.sort({ createdAt: -1 })`. */
  function Newest(n: Doc<NM.Notification>): int { -n.createdAt }

  /** All of `u`'s notifications, newest first. */
  function Inbox(st: State, u: Id): seq<Doc<NM.Notification>> {
    SortBy(Filter(st.notifications, ForRecipient(u)), Newest)
  }

  /** `countDocuments({ recipientId: u, isRead: false })`. */
  function UnreadCount(st: State, u: Id): nat {
    |Filter(st.notifications, UnreadFor(u))|
  }

  // ---------------------------------------------------------------------------
  // getUserNotifications and getUnreadCount
  // ---------------------------------------------------------------------------

  /** The response body: `total`, `unreadCount`, `page`, `limit`, `pages` (`None` is
      `Infinity` or `NaN`, sent as `null`) and the page of notifications. */
  datatype InboxPage = InboxPage(total: nat, unreadCount: nat, page: int, limit: int, pages: Option<int>,
                                 notifications: seq<Doc<NM.Notification>>)

  function List(st: State, u: Id, page: Option<int>, limit: Option<int>): Response<InboxPage> {
    var p := Paging.OrDefault(page, Paging.DEFAULT_PAGE);
    var l := Paging.OrDefault(limit, Paging.DEFAULT_LIMIT);
    var skip := Paging.Skip(p, l);
    if skip < 0 then Err(500, NEGATIVE_SKIP)
    else
      var all := Inbox(st, u);
      var total := |Filter(st.notifications, ForRecipient(u))|;
      Ok(200, InboxPage(total, UnreadCount(st, u), p, l, Paging.Pages(total, l), Paging.Window(all, skip, l)))
  }

  /** `getUserNotifications`: reads the store and changes nothing. */
  method GetUserNotifications(db: Store, caller: Caller, page: Option<int>, limit: Option<int>)
    returns (resp: Response<InboxPage>)
    ensures resp == List(db.Snapshot(), caller.id, page, limit)
  {
    var p := if page.Some? then page.value else 1;
    var l := if limit.Some? then limit.value else 10;
    var skip := (p - 1) * l;
    if skip < 0 {
      return Err(500, NEGATIVE_SKIP);
    }
    ghost var st := db.Snapshot();
    var notifications := SortBy(Filter(db.notifications, ForRecipient(caller.id)), Newest);
    var total := |Filter(db.notifications, ForRecipient(caller.id))|;
    var unreadCount := |Filter(db.notifications, UnreadFor(caller.id))|;
    assert notifications == Inbox(st, caller.id) && unreadCount == UnreadCount(st, caller.id);
    assert p == Paging.OrDefault(page, Paging.DEFAULT_PAGE) && l == Paging.OrDefault(limit, Paging.DEFAULT_LIMIT);
    resp := Ok(200, InboxPage(total, unreadCount, p, l, Paging.Pages(total, l), Paging.Window(notifications, skip, l)));
  }

  /** `getUnreadCount`: reads the store and changes nothing. */
  method GetUnreadCount(db: Store, caller: Caller) returns (resp: Response<nat>)
    ensures resp == Ok(200, UnreadCount(db.Snapshot(), caller.id))
  {
    var unreadCount := |Filter(db.notifications, UnreadFor(caller.id))|;
    resp := Ok(200, unreadCount);
  }

  // ---------------------------------------------------------------------------
  // markAsRead
  // ---------------------------------------------------------------------------

  function Read(n: Doc<NM.Notification>): Doc<NM.Notification> {
    n.(body := n.body.(isRead := true))
  }

  function MarkOne(st: State, caller: Caller, id: Id): (o: Outcome<Doc<NM.Notification>>)
    requires WellFormedState(st)
    ensures WellFormedState(o.st)
  {
    match FindById(st.notifications, id)
    case None => Outcome(st, Err(404, NOTIFICATION_NOT_FOUND))
    case Some(n) =>
      if n.body.recipientId != caller.id then Outcome(st, Err(403, NOT_YOUR_UPDATE))
      else Outcome(PutNotification(st, Read(n)), Ok(200, Read(n)))
  }

  method MarkAsRead(db: Store, caller: Caller, id: Id) returns (resp: Response<Doc<NM.Notification>>)
    requires db.Valid()
    modifies db
    ensures db.Valid()
    ensures Outcome(db.Snapshot(), resp) == MarkOne(old(db.Snapshot()), caller, id)
  {
    var notification := FindById(db.notifications, id);
    if notification.None? {
      return Err(404, NOTIFICATION_NOT_FOUND);
    }
    if notification.value.body.recipientId != caller.id {
      return Err(403, NOT_YOUR_UPDATE);
    }
    var updatedNotification := Read(notification.value);
    db.UpdateNotification(updatedNotification);
    resp := Ok(200, updatedNotification);
  }

  // ---------------------------------------------------------------------------
  // markAllAsRead
  // ---------------------------------------------------------------------------

  function MarkAll(st: State, caller: Caller): (o: Outcome<()>)
    requires WellFormedState(st)
    ensures WellFormedState(o.st)
  {
    Outcome(MarkAllRead(st, caller.id), Ok(200, ()))
  }

  method MarkAllAsRead(db: Store, caller: Caller) returns (resp: Response<()>)
    requires db.Valid()
    modifies db
    ensures db.Valid()
    ensures Outcome(db.Snapshot(), resp) == MarkAll(old(db.Snapshot()), caller)
  {
    db.ReadAll(caller.id);
    resp := Ok(200, ());
  }

  // ---------------------------------------------------------------------------
  // deleteNotification
  // ---------------------------------------------------------------------------

  function DeleteOne(st: State, caller: Caller, id: Id): (o: Outcome<()>)
    requires WellFormedState(st)
    ensures WellFormedState(o.st)
  {
    match FindById(st.notifications, id)
    case None => Outcome(st, Err(404, NOTIFICATION_NOT_FOUND))
    case Some(n) =>
      if n.body.recipientId != caller.id then Outcome(st, Err(403, NOT_YOUR_DELETE))
      else Outcome(RemoveNotification(st, id), Ok(200, ()))
  }

  method DeleteNotification(db: Store, caller: Caller, id: Id) returns (resp: Response<()>)
    requires db.Valid()
    modifies db
    ensures db.Valid()
    ensures Outcome(db.Snapshot(), resp) == DeleteOne(old(db.Snapshot()), caller, id)
  {
    var notification := FindById(db.notifications, id);
    if notification.None? {
      return Err(404, NOTIFICATION_NOT_FOUND);
    }
    if notification.value.body.recipientId != caller.id {
      return Err(403, NOT_YOUR_DELETE);
    }
    db.DeleteNotification(id);
    resp := Ok(200, ());
  }

  // ---------------------------------------------------------------------------
  // clearAllNotifications
  // ---------------------------------------------------------------------------

  function NotFor(u: Id): Doc<NM.Notification> -> bool {
    (n: Doc<NM.Notification>) => n.body.recipientId != u
  }

  function ClearAll(st: State, caller: Caller): (o: Outcome<()>)
    requires WellFormedState(st)
    ensures WellFormedState(o.st)
  {
    Outcome(KeepNotifications(st, NotFor(caller.id)), Ok(200, ()))
  }

  method ClearAllNotifications(db: Store, caller: Caller) returns (resp: Response<()>)
    requires db.Valid()
    modifies db
    ensures db.Valid()
    ensures Outcome(db.Snapshot(), resp) == ClearAll(old(db.Snapshot()), caller)
  {
    db.DeleteNotificationsWhere(NotFor(caller.id));
    resp := Ok(200, ());
  }

  // ---------------------------------------------------------------------------
  // Properties of the listing
  // ---------------------------------------------------------------------------

  /** The inbox holds exactly `u`'s notifications, each once, newest first. */
  lemma InboxFacts(st: State, u: Id, n: Doc<NM.Notification>)
    requires WellFormedState(st)
    ensures var all := Inbox(st, u);
      && (n in all <==> n in st.notifications && n.body.recipientId == u)
      && (n in all ==> multiset(all)[n] == 1)
      && (forall i, j :: 0 <= i < j < |all| ==> all[i].createdAt >= all[j].createdAt)
  {
    var fs := Filter(st.notifications, ForRecipient(u));
    SortBySorted(fs, Newest);
    SortByMembership(fs, Newest, n);
    var all := Inbox(st, u);
    assert forall i, j :: 0 <= i < j < |all| ==> Newest(all[i]) <= Newest(all[j]);
    if n in fs {
      FilterWellFormed(st.notifications, ForRecipient(u), st.nextId);
      OccursOnce(fs, n);
    }
  }

  /** The unread notifications are among the recipient's own, so the unread count never
      exceeds the total. */
  lemma UnreadAtMostTotal(st: State, u: Id)
    ensures UnreadCount(st, u) <= |Filter(st.notifications, ForRecipient(u))|
  {
    FilterFilter(st.notifications, ForRecipient(u), UnreadFor(u));
  }

  /** A page fails with 500 exactly when `(page - 1) * limit` is negative; otherwise it
      reports the recipient's total and unread count and holds only the recipient's
      notifications, those at positions `skip`, `skip + 1`, … of the newest-first inbox,
      at most `|limit|` of them. */
  lemma ListingIsWindow(st: State, u: Id, page: Option<int>, limit: Option<int>)
    requires WellFormedState(st)
    ensures var p := Paging.OrDefault(page, 1);
      var l := Paging.OrDefault(limit, 10);
      var r := List(st, u, page, limit);
      var all := Inbox(st, u);
      && (r.Err? <==> (p - 1) * l < 0)
      && (r.Ok? ==>
            var skip := (p - 1) * l;
            && r.body.total == |all| && r.body.unreadCount == UnreadCount(st, u)
            && r.body.unreadCount <= r.body.total
            && r.body.page == p && r.body.limit == l && r.body.pages == Paging.Pages(|all|, l)
            && (0 <= skip <= |all| ==> r.body.notifications <= all[skip..])
            && (skip > |all| ==> r.body.notifications == [])
            && (l != 0 ==> |r.body.notifications| <= if l > 0 then l else -l)
            && (forall n :: n in r.body.notifications ==> n in st.notifications && n.body.recipientId == u))
  {
    UnreadAtMostTotal(st, u);
    var r := List(st, u, page, limit);
    if r.Ok? {
      forall n | n in r.body.notifications ensures n in st.notifications && n.body.recipientId == u {
        InboxFacts(st, u, n);
      }
    }
  }

  // ---------------------------------------------------------------------------
  // Properties of markAsRead
  // ---------------------------------------------------------------------------

  /** 404 for a missing notification and 403 for anyone but its recipient, neither
      writing; otherwise the notification is answered and stored read, nothing else of it
      changes, no other notification and no other collection changes, the recipient's
      unread count drops by one if it was unread and stays otherwise, and nobody else's
      unread count moves. */
  lemma MarkOneEffect(st: State, caller: Caller, id: Id, k: Id, v: Id)
    requires WellFormedState(st)
    ensures var o := MarkOne(st, caller, id);
      && (FindById(st.notifications, id).None? ==> o == Outcome(st, Err(404, NOTIFICATION_NOT_FOUND)))
      && (FindById(st.notifications, id).Some? && FindById(st.notifications, id).value.body.recipientId != caller.id ==>
            o == Outcome(st, Err(403, NOT_YOUR_UPDATE)))
      && (o.resp.Err? ==> o.st == st)
      && (o.resp.Ok? ==>
            var n := FindById(st.notifications, id).value;
            && n.body.recipientId == caller.id
            && o.resp.body.id == id && o.resp.body.body.isRead
            && o.resp.body.body.(isRead := n.body.isRead) == n.body
            && FindById(o.st.notifications, id) == Some(o.resp.body)
            && UnreadCount(o.st, caller.id) == UnreadCount(st, caller.id) - (if n.body.isRead then 0 else 1)
            && (v != caller.id ==> UnreadCount(o.st, v) == UnreadCount(st, v)))
      && (k != id ==> FindById(o.st.notifications, k) == FindById(st.notifications, k))
      && o.st == st.(notifications := o.st.notifications)
  {
    match FindById(st.notifications, id)
    case None =>
    case Some(n) =>
      FindByIdReplace(st.notifications, Read(n), id);
      FindByIdReplace(st.notifications, Read(n), k);
      FilterReplaceCount(st.notifications, Read(n), UnreadFor(caller.id));
      FilterReplaceCount(st.notifications, Read(n), UnreadFor(v));
  }

  /** Marking a notification read twice is marking it once. */
  lemma MarkOneIdempotent(st: State, caller: Caller, id: Id)
    requires WellFormedState(st)
    ensures var o := MarkOne(st, caller, id);
      MarkOne(o.st, caller, id) == o
  {
    var o := MarkOne(st, caller, id);
    MarkOneEffect(st, caller, id, id, caller.id);
    if o.resp.Ok? {
      var n := FindById(st.notifications, id).value;
      assert Read(Read(n)) == Read(n);
      assert Replace(Replace(st.notifications, Read(n)), Read(n)) == Replace(st.notifications, Read(n));
    }
  }

  // ---------------------------------------------------------------------------
  // Properties of markAllAsRead
  // ---------------------------------------------------------------------------

  /** Afterwards the caller has no unread notification; the caller's notifications are
      the same ones in the same order, now read; everybody else's notifications are
      unchanged, and no other collection changes. */
  lemma MarkAllEffect(st: State, caller: Caller, v: Id)
    requires WellFormedState(st)
    ensures var o := MarkAll(st, caller);
      var u := caller.id;
      && o.resp == Ok(200, ())
      && UnreadCount(o.st, u) == 0
      && Filter(o.st.notifications, ForRecipient(u)) == MapSeq(Filter(st.notifications, ForRecipient(u)), Read)
      && (v != u ==> Filter(o.st.notifications, ForRecipient(v)) == Filter(st.notifications, ForRecipient(v)))
      && (v != u ==> UnreadCount(o.st, v) == UnreadCount(st, v))
      && o.st == st.(notifications := o.st.notifications)
  {
    var u := caller.id;
    var s := st.notifications;
    var f := ReadIfFor(u);
    var m := MapSeq(s, f);
    FilterNone(m, UnreadFor(u));
    FilterMapSeq(s, f, ForRecipient(u));
    var mine := Filter(s, ForRecipient(u));
    assert MapSeq(mine, f) == MapSeq(mine, Read) by {
      forall i | 0 <= i < |mine| ensures f(mine[i]) == Read(mine[i]) {
        assert mine[i] in mine;
      }
    }
    if v != u {
      FilterMapSeq(s, f, ForRecipient(v));
      MapSeqFixed(Filter(s, ForRecipient(v)), f);
      FilterMapSeq(s, f, UnreadFor(v));
      MapSeqFixed(Filter(s, UnreadFor(v)), f);
    }
  }

  /** Marking all read a second time changes nothing. */
  lemma MarkAllIdempotent(st: State, caller: Caller)
    requires WellFormedState(st)
    ensures var o := MarkAll(st, caller);
      MarkAll(o.st, caller) == o
  {
    var s := MarkAll(st, caller).st.notifications;
    MapSeqFixed(s, ReadIfFor(caller.id));
  }

  // ---------------------------------------------------------------------------
  // Properties of deleteNotification and clearAllNotifications
  // ---------------------------------------------------------------------------

  /** 404 for a missing notification and 403 for anyone but its recipient, neither
      writing; otherwise the recipient's inbox loses exactly that notification and nobody
      else's inbox changes. */
  lemma DeleteOneEffect(st: State, caller: Caller, id: Id, v: Id)
    requires WellFormedState(st)
    ensures var o := DeleteOne(st, caller, id);
      && (FindById(st.notifications, id).None? ==> o == Outcome(st, Err(404, NOTIFICATION_NOT_FOUND)))
      && (FindById(st.notifications, id).Some? && FindById(st.notifications, id).value.body.recipientId != caller.id ==>
            o == Outcome(st, Err(403, NOT_YOUR_DELETE)))
      && (o.resp.Err? ==> o.st == st)
      && (o.resp.Ok? ==>
            && FindById(o.st.notifications, id).None?
            && |Filter(o.st.notifications, ForRecipient(caller.id))| == |Filter(st.notifications, ForRecipient(caller.id))| - 1
            && (v != caller.id ==> Filter(o.st.notifications, ForRecipient(v)) == Filter(st.notifications, ForRecipient(v))))
      && o.st == st.(notifications := o.st.notifications)
  {
    var o := DeleteOne(st, caller, id);
    if o.resp.Ok? {
      assert o.st == RemoveNotification(st, id);
      RemoveFromInbox(st.notifications, id, caller.id, v, st.nextId);
    }
  }

  /** Removing one of `u`'s notifications shortens `u`'s inbox by one and leaves every
      other inbox alone. */
  lemma RemoveFromInbox(s: seq<Doc<NM.Notification>>, id: Id, u: Id, v: Id, bound: nat)
    requires WellFormed(s, bound)
    requires FindById(s, id).Some? && FindById(s, id).value.body.recipientId == u
    ensures |Filter(RemoveById(s, id), ForRecipient(u))| == |Filter(s, ForRecipient(u))| - 1
    ensures v != u ==> Filter(RemoveById(s, id), ForRecipient(v)) == Filter(s, ForRecipient(v))
  {
    FilterRemoveCount(s, id, ForRecipient(u));
    if v != u {
      FilterRemoveOther(s, id, ForRecipient(v));
    }
  }

  /** Clearing leaves the caller with no notification at all and everybody else's
      inbox as it was. */
  lemma ClearAllEffect(st: State, caller: Caller, v: Id)
    requires WellFormedState(st)
    ensures var o := ClearAll(st, caller);
      && o.resp == Ok(200, ())
      && Inbox(o.st, caller.id) == [] && UnreadCount(o.st, caller.id) == 0
      && (v != caller.id ==> Filter(o.st.notifications, ForRecipient(v)) == Filter(st.notifications, ForRecipient(v)))
      && o.st == st.(notifications := o.st.notifications)
  {
    var s := KeepNotifications(st, NotFor(caller.id)).notifications;
    FilterNone(s, ForRecipient(caller.id));
    FilterNone(s, UnreadFor(caller.id));
    if v != caller.id {
      FilterFilter(st.notifications, NotFor(caller.id), ForRecipient(v));
    }
  }

  // ---------------------------------------------------------------------------
  // With the reply handlers
  // ---------------------------------------------------------------------------

  /** An answer to someone else's question raises its author's unread count by one, and
      marking all read afterwards brings it back to zero. */
  lemma AnswerRaisesUnread(st: State, caller: Caller, req: ReplyController.ReplyRequest, now: int)
    requires WellFormedState(st) && ReplyController.CreateAccepted(st, caller, req)
    requires FindById(st.questions, req.target.value).value.body.authorId != caller.id
    ensures var author := FindById(st.questions, req.target.value).value.body.authorId;
      var o := ReplyController.Create(st, caller, req, now);
      && UnreadCount(o.st, author) == UnreadCount(st, author) + 1
      && UnreadCount(MarkAll(o.st, Caller(author, "", "")).st, author) == 0
  {
    var author := FindById(st.questions, req.target.value).value.body.authorId;
    var o := ReplyController.Create(st, caller, req, now);
    ReplyController.CreateNotifiesAuthor(st, caller, req, now);
    var s := st.notifications;
    var n := o.st.notifications[|s|];
    assert o.st.notifications == s + [n];
    FilterAppend(s, [n], UnreadFor(author));
    assert Filter([n], UnreadFor(author)) == [n];
    MarkAllEffect(o.st, Caller(author, "", ""), author);
  }
}
