/** `notification.service.ts`: per-user notifications with a read flag. */
module Notification {
  import opened Wrappers
  import opened Tables

  /** A `notification` row; `kind` is its `type` column. */
  datatype NotificationRow = NotificationRow(
    id: int,
    userId: int,
    kind: string,
    title: string,
    content: Option<string>,
    relatedId: Option<int>,
    isRead: bool)

  /** The fields of `createBatch` shared by every notification it creates. */
  datatype NotificationFields = NotificationFields(
    kind: string,
    title: string,
    content: Option<string>,
    relatedId: Option<int>)

  /** A page of `getUserNotifications`. */
  datatype NotificationPage = NotificationPage(notifications: seq<NotificationRow>, total: nat)

  function RowId(n: NotificationRow): int
  {
    n.id
  }

  /** `where: { userId }`. */
  function OfUser(userId: int): NotificationRow -> bool
  {
    (n: NotificationRow) => n.userId == userId
  }

  /** `where: { id, userId }`. */
  function OwnedRow(id: int, userId: int): NotificationRow -> bool
  {
    (n: NotificationRow) => n.id == id && n.userId == userId
  }

  /** `where: { userId, isRead: false }`. */
  function UnreadOf(userId: int): NotificationRow -> bool
  {
    (n: NotificationRow) => n.userId == userId && !n.isRead
  }

  function MarkRead(n: NotificationRow): NotificationRow
  {
    n.(isRead := true)
  }

  /** The `where` object of `getUserNotifications`: the user, then `isRead`
      when it is given, then `type` when it is given and not empty. */
  function Matches(userId: int, isRead: Option<bool>, kind: Option<string>): NotificationRow -> bool
  {
    (n: NotificationRow) =>
      n.userId == userId
      && (isRead.None? || n.isRead == isRead.value)
      && (kind.None? || kind.value == "" || n.kind == kind.value)
  }

  /** `createBatch(userIds, fields)`: one unsaved row per user id, in the
      order of `userIds`, with the ids the table hands out next. */
  function Batch(userIds: seq<int>, fields: NotificationFields, nextId: int): (r: seq<NotificationRow>)
    ensures |r| == |userIds|
    ensures forall k :: 0 <= k < |r| ==>
      r[k].id == nextId + k && r[k].userId == userIds[k] && !r[k].isRead
      && r[k].kind == fields.kind && r[k].title == fields.title
      && r[k].content == fields.content && r[k].relatedId == fields.relatedId
  {
    seq(|userIds|, k requires 0 <= k < |userIds| =>
      NotificationRow(nextId + k, userIds[k], fields.kind, fields.title, fields.content, fields.relatedId, false))
  }

  /** `getUserNotifications(userId, isRead, type, page, limit)`. */
  function UserNotifications(rows: seq<NotificationRow>, userId: int, isRead: Option<bool>, kind: Option<string>,
                             page: int, limit: int): NotificationPage
  {
    var matching := Where(rows, Matches(userId, isRead, kind));
    NotificationPage(NewestPage(rows, Matches(userId, isRead, kind), (page - 1) * limit, limit), |matching|)
  }

  /** `getUnreadCount(userId)`. */
  function UnreadCount(rows: seq<NotificationRow>, userId: int): nat
  {
    Count(rows, UnreadOf(userId))
  }

  /** The unread count is 0 exactly when the user has no unread
      notification, never exceeds the user's notifications, and is the
      `total` of `getUserNotifications` filtered to unread rows, whatever the page. */
  lemma UnreadCountSpec(rows: seq<NotificationRow>, userId: int, page: int, limit: int)
    ensures UnreadCount(rows, userId) == 0 <==>
      forall j :: 0 <= j < |rows| ==> !(rows[j].userId == userId && !rows[j].isRead)
    ensures UnreadCount(rows, userId) <= Count(rows, OfUser(userId))
    ensures UnreadCount(rows, userId) == UserNotifications(rows, userId, Some(false), None, page, limit).total
  {
    WhereAt(rows, UnreadOf(userId));
    CountImplies(rows, UnreadOf(userId), OfUser(userId));
    WhereSame(rows, UnreadOf(userId), Matches(userId, Some(false), None));
  }

  /** Every notification of a page belongs to the user and passes the
      filters; the page holds at most `limit` of them, newest first; its
      `k`-th row is the `((page - 1) * limit + k)`-th newest match, and it
      holds `limit` rows unless the matches run out first; and `total`
      counts every match, whatever the page. */
  lemma UserNotificationsSpec(rows: seq<NotificationRow>, nextId: int, userId: int, isRead: Option<bool>,
                              kind: Option<string>, page: int, limit: int)
    requires IdsBelow(rows, RowId, nextId)
    ensures forall n :: n in UserNotifications(rows, userId, isRead, kind, page, limit).notifications ==>
      n in rows && n.userId == userId
      && (isRead.Some? ==> n.isRead == isRead.value)
      && (kind.Some? && kind.value != "" ==> n.kind == kind.value)
    ensures limit > 0 ==> |UserNotifications(rows, userId, isRead, kind, page, limit).notifications| <= limit
    ensures Descending(UserNotifications(rows, userId, isRead, kind, page, limit).notifications, RowId)
    ensures UserNotifications(rows, userId, isRead, kind, page, limit).total == Count(rows, Matches(userId, isRead, kind))
    ensures UserNotifications(rows, userId, isRead, kind, page, limit).total
      == UserNotifications(rows, userId, isRead, kind, 1, 0).total
    ensures var w := Where(rows, Matches(userId, isRead, kind));
      var listed := UserNotifications(rows, userId, isRead, kind, page, limit).notifications;
      var from := Skipped(|w|, (page - 1) * limit);
      |listed| == (if limit > 0 && limit < |w| - from then limit else |w| - from)
      && forall k :: 0 <= k < |listed| ==> listed[k] == w[|w| - 1 - (from + k)]
  {
    NewestPageOf(rows, Matches(userId, isRead, kind), (page - 1) * limit, limit);
    PageFromWhere(rows, Matches(userId, isRead, kind), (page - 1) * limit, limit);
    NewestPageDescending(rows, Matches(userId, isRead, kind), RowId, nextId, (page - 1) * limit, limit);
  }

  /** `markAsRead(userId, notificationId)`. */
  function MarkAsReadOutcome(rows: seq<NotificationRow>, userId: int, notificationId: int): Change<NotificationRow, NotificationRow>
  {
    match FirstIndex(rows, OwnedRow(notificationId, userId))
    case None => Change(Err(NotFound("通知不存在")), rows)
    case Some(i) =>
      var n := MarkRead(rows[i]);
      Change(Ok(n), rows[i := n])
  }

  /** `markAsRead` finds only the user's own notification (not found
      otherwise, changing nothing), leaves it read and every other row as it
      was, lowers the unread count by one when it was unread, and a second
      call changes nothing more. */
  lemma MarkAsReadSpec(rows: seq<NotificationRow>, nextId: int, userId: int, notificationId: int)
    requires IdsBelow(rows, RowId, nextId)
    ensures MarkAsReadOutcome(rows, userId, notificationId).result.Err? <==>
      !exists j :: 0 <= j < |rows| && rows[j].id == notificationId && rows[j].userId == userId
    ensures MarkAsReadOutcome(rows, userId, notificationId).result.Err? ==>
      MarkAsReadOutcome(rows, userId, notificationId).rows == rows
    ensures MarkAsReadOutcome(rows, userId, notificationId).result.Ok? ==>
      var o := MarkAsReadOutcome(rows, userId, notificationId);
      o.result.value.isRead && o.result.value.id == notificationId && o.result.value.userId == userId
      && |o.rows| == |rows|
      && (forall j :: 0 <= j < |rows| ==> o.rows[j] == if rows[j].id == notificationId then MarkRead(rows[j]) else rows[j])
      && UnreadCount(o.rows, userId) + (if exists j :: 0 <= j < |rows| && rows[j].id == notificationId && !rows[j].isRead then 1 else 0)
         == UnreadCount(rows, userId)
    ensures IdsBelow(MarkAsReadOutcome(rows, userId, notificationId).rows, RowId, nextId)
    ensures var o := MarkAsReadOutcome(rows, userId, notificationId);
      MarkAsReadOutcome(o.rows, userId, notificationId) == Change(o.result, o.rows)
  {
    match FirstIndex(rows, OwnedRow(notificationId, userId))
    case None =>
    case Some(i) =>
      var n := MarkRead(rows[i]);
      SetKeepsIds(rows, RowId, nextId, i, n);
      CountUpdate(rows, i, n, UnreadOf(userId));
      forall j | 0 <= j < |rows| && j != i ensures rows[j].id != notificationId {
        IdsUnique(rows, RowId, nextId, i, j);
      }
      var t := rows[i := n];
      forall j | 0 <= j < i ensures !OwnedRow(notificationId, userId)(t[j]) {
        assert t[j] == rows[j];
      }
      FirstIndexIs(t, OwnedRow(notificationId, userId), i);
      assert t[i := MarkRead(t[i])] == t;
  }

  /** `markAllAsRead(userId)`: `update({ userId, isRead: false }, { isRead: true })`. */
  function MarkAllAsReadOutcome(rows: seq<NotificationRow>, userId: int): seq<NotificationRow>
  {
    UpdateWhere(rows, UnreadOf(userId), MarkRead)
  }

  /** After `markAllAsRead` every unread notification of the user is read
      and every other row is as it was, in place; so the user has no unread
      notification, keeps the same number of notifications, and every
      other user's rows are exactly as before. */
  lemma MarkAllAsReadSpec(rows: seq<NotificationRow>, nextId: int, userId: int)
    requires IdsBelow(rows, RowId, nextId)
    ensures |MarkAllAsReadOutcome(rows, userId)| == |rows|
    ensures forall j :: 0 <= j < |rows| ==>
      MarkAllAsReadOutcome(rows, userId)[j]
      == if rows[j].userId == userId && !rows[j].isRead then rows[j].(isRead := true) else rows[j]
    ensures UnreadCount(MarkAllAsReadOutcome(rows, userId), userId) == 0
    ensures Count(MarkAllAsReadOutcome(rows, userId), OfUser(userId)) == Count(rows, OfUser(userId))
    ensures forall v :: v != userId ==> Where(MarkAllAsReadOutcome(rows, userId), OfUser(v)) == Where(rows, OfUser(v))
    ensures IdsBelow(MarkAllAsReadOutcome(rows, userId), RowId, nextId)
  {
    forall j | 0 <= j < |rows| ensures MarkAllAsReadOutcome(rows, userId)[j]
      == if rows[j].userId == userId && !rows[j].isRead then rows[j].(isRead := true) else rows[j]
    {
      UpdateWhereAt(rows, UnreadOf(userId), MarkRead, j);
    }
    CountUpdateClears(rows, UnreadOf(userId), MarkRead);
    forall v | v != userId ensures Where(MarkAllAsReadOutcome(rows, userId), OfUser(v)) == Where(rows, OfUser(v)) {
      WhereUpdate(rows, OfUser(v), UnreadOf(userId), MarkRead);
    }
    UpdateKeepsOwner(rows, userId);
    UpdateWhereKeepsIds(rows, UnreadOf(userId), MarkRead, RowId, nextId);
  }

  lemma {:induction false} UpdateKeepsOwner(rows: seq<NotificationRow>, userId: int)
    ensures Count(UpdateWhere(rows, UnreadOf(userId), MarkRead), OfUser(userId)) == Count(rows, OfUser(userId))
  {
    if rows != [] {
      var n := |rows| - 1;
      var x := rows[n];
      UpdateKeepsOwner(rows[..n], userId);
      WhereAppend(UpdateWhere(rows[..n], UnreadOf(userId), MarkRead), if UnreadOf(userId)(x) then MarkRead(x) else x, OfUser(userId));
    }
  }

  /** `remove(userId, notificationId)`: `delete({ id, userId })`, not found when nothing was deleted. */
  function RemoveOutcome(rows: seq<NotificationRow>, userId: int, notificationId: int): Change<Unit, NotificationRow>
  {
    var kept := Drop(rows, OwnedRow(notificationId, userId));
    if Count(rows, OwnedRow(notificationId, userId)) == 0 then Change(Err(NotFound("通知不存在")), kept)
    else Change(Ok(Unit), kept)
  }

  /** `remove` fails exactly when the user owns no notification with that id,
      deletes only the user's own row, and leaves other users' rows alone. */
  lemma RemoveSpec(rows: seq<NotificationRow>, nextId: int, userId: int, notificationId: int)
    requires IdsBelow(rows, RowId, nextId)
    ensures RemoveOutcome(rows, userId, notificationId).result.Err? <==>
      !exists j :: 0 <= j < |rows| && rows[j].id == notificationId && rows[j].userId == userId
    ensures forall n :: n in RemoveOutcome(rows, userId, notificationId).rows <==>
      n in rows && !(n.id == notificationId && n.userId == userId)
    ensures forall v :: v != userId ==>
      Where(RemoveOutcome(rows, userId, notificationId).rows, OfUser(v)) == Where(rows, OfUser(v))
    ensures IdsBelow(RemoveOutcome(rows, userId, notificationId).rows, RowId, nextId)
  {
    WhereAt(rows, OwnedRow(notificationId, userId));
    forall v | v != userId ensures Where(Drop(rows, OwnedRow(notificationId, userId)), OfUser(v)) == Where(rows, OfUser(v)) {
      WhereDrop(rows, OfUser(v), OwnedRow(notificationId, userId));
    }
    DropKeepsIds(rows, OwnedRow(notificationId, userId), RowId, nextId);
  }

  /** `clearAll(userId)`: `delete({ userId })`. */
  function ClearAllOutcome(rows: seq<NotificationRow>, userId: int): seq<NotificationRow>
  {
    Drop(rows, OfUser(userId))
  }

  /** After `clearAll` the user has no notification and every other user's rows are as before. */
  lemma ClearAllSpec(rows: seq<NotificationRow>, nextId: int, userId: int)
    requires IdsBelow(rows, RowId, nextId)
    ensures Where(ClearAllOutcome(rows, userId), OfUser(userId)) == []
    ensures UnreadCount(ClearAllOutcome(rows, userId), userId) == 0
    ensures forall v :: v != userId ==> Where(ClearAllOutcome(rows, userId), OfUser(v)) == Where(rows, OfUser(v))
    ensures IdsBelow(ClearAllOutcome(rows, userId), RowId, nextId)
  {
    WhereDropAll(rows, OfUser(userId), OfUser(userId));
    WhereDropAll(rows, UnreadOf(userId), OfUser(userId));
    forall v | v != userId ensures Where(Drop(rows, OfUser(userId)), OfUser(v)) == Where(rows, OfUser(v)) {
      WhereDrop(rows, OfUser(v), OfUser(userId));
    }
    DropKeepsIds(rows, OfUser(userId), RowId, nextId);
  }

  /** The notification table and its auto-increment counter. */
  class NotificationService {
    var notifications: seq<NotificationRow>
    var nextId: int

    ghost predicate Valid()
      reads this
    {
      IdsBelow(notifications, RowId, nextId)
    }

    constructor ()
      ensures Valid() && notifications == []
    {
      notifications, nextId := [], 1;
    }

    /** `createBatch(userIds, fields)`: saves exactly one notification per user id. */
    method CreateBatch(userIds: seq<int>, fields: NotificationFields) returns (created: seq<NotificationRow>)
      requires Valid()
      modifies this
      ensures Valid()
      ensures created == Batch(userIds, fields, old(nextId))
      ensures notifications == old(notifications) + created
      ensures nextId == old(nextId) + |userIds|
    {
      created := Batch(userIds, fields, nextId);
      AppendKeepsIds(notifications, RowId, nextId, created);
      notifications := notifications + created;
      nextId := nextId + |userIds|;
    }

    method MarkAsRead(userId: int, notificationId: int) returns (r: Result<NotificationRow>)
      requires Valid()
      modifies this`notifications
      ensures Valid()
      ensures r == MarkAsReadOutcome(old(notifications), userId, notificationId).result
      ensures notifications == MarkAsReadOutcome(old(notifications), userId, notificationId).rows
    {
      MarkAsReadSpec(notifications, nextId, userId, notificationId);
      var found := FindFirst(notifications, OwnedRow(notificationId, userId));
      if found.None? {
        return Err(NotFound("通知不存在"));
      }
      var notification := notifications[found.value].(isRead := true);
      notifications := notifications[found.value := notification];
      r := Ok(notification);
    }

    method MarkAllAsRead(userId: int)
      requires Valid()
      modifies this`notifications
      ensures Valid()
      ensures notifications == MarkAllAsReadOutcome(old(notifications), userId)
    {
      MarkAllAsReadSpec(notifications, nextId, userId);
      notifications := UpdateRows(notifications, UnreadOf(userId), MarkRead);
    }

    method Remove(userId: int, notificationId: int) returns (r: Result<Unit>)
      requires Valid()
      modifies this`notifications
      ensures Valid()
      ensures r == RemoveOutcome(old(notifications), userId, notificationId).result
      ensures notifications == RemoveOutcome(old(notifications), userId, notificationId).rows
    {
      RemoveSpec(notifications, nextId, userId, notificationId);
      var affected;
      notifications, affected := DeleteWhere(notifications, OwnedRow(notificationId, userId));
      r := if affected == 0 then Err(NotFound("通知不存在")) else Ok(Unit);
    }

    method ClearAll(userId: int)
      requires Valid()
      modifies this`notifications
      ensures Valid()
      ensures notifications == ClearAllOutcome(old(notifications), userId)
    {
      ClearAllSpec(notifications, nextId, userId);
      var affected;
      notifications, affected := DeleteWhere(notifications, OfUser(userId));
    }
  }
}
