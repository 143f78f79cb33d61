/**
 * NotificationRepository: the recipient's notifications newest first, the
 * recipient-scoped bulk `markAsRead` update (an in-place change of the
 * table) and the `deleteAllByRecipient` used by the service.
 */
module NotificationRepository {
  import opened Wrappers
  import opened Seqs
  import opened Entities
  import opened Store

  /** The sort key `n.createdAt`. */
  function NotificationCreatedAtKey(notifications: map<nat, Notification>): (key: nat -> int)
    ensures forall id :: id in notifications ==> key(id) == notifications[id].createdAt
  {
    FieldKey(notifications, (n: Notification) => n.createdAt)
  }

  /** `findByRecipientOrderByCreatedAtDesc(recipient, pageable)` before paging. */
  function FindByRecipientOrderByCreatedAtDesc(notifications: map<nat, Notification>, recipient: Uuid, rows: seq<nat>)
    : (r: seq<nat>)
    ensures forall id :: id in r <==> id in rows && id in notifications && notifications[id].recipient == recipient
    ensures SortedDesc(r, NotificationCreatedAtKey(notifications))
  {
    var mine := Filter(rows, id => id in notifications && notifications[id].recipient == recipient);
    FilterMembers(rows, id => id in notifications && notifications[id].recipient == recipient);
    SortDescMembers(mine, NotificationCreatedAtKey(notifications));
    SortDescSorted(mine, NotificationCreatedAtKey(notifications));
    SortDesc(mine, NotificationCreatedAtKey(notifications))
  }

  /**
   * The table after `UPDATE Notification n SET n.isRead = true WHERE
   * n.recipient = :recipient AND n.id IN :notificationIds`.
   */
  function MarkedAsRead(notifications: map<nat, Notification>, recipient: Uuid, ids: seq<nat>)
    : (r: map<nat, Notification>)
    ensures r.Keys == notifications.Keys
    ensures forall id :: id in r ==>
              r[id].isRead == (notifications[id].isRead || (notifications[id].recipient == recipient && id in ids))
    ensures forall id :: id in r ==> r[id].(isRead := notifications[id].isRead) == notifications[id]
  {
    map id | id in notifications.Keys ::
      if notifications[id].recipient == recipient && id in ids then notifications[id].(isRead := true)
      else notifications[id]
  }

  /** Rows of other recipients, and rows not listed, are left exactly as they were. */
  lemma MarkAsReadScoped(notifications: map<nat, Notification>, recipient: Uuid, ids: seq<nat>, id: nat)
    requires id in notifications && (notifications[id].recipient != recipient || id !in ids)
    ensures MarkedAsRead(notifications, recipient, ids)[id] == notifications[id]
  {
    var r := MarkedAsRead(notifications, recipient, ids);
    assert r[id].(isRead := notifications[id].isRead) == notifications[id];
  }

  /** Marking the same ids twice is marking them once. */
  lemma MarkAsReadIdempotent(notifications: map<nat, Notification>, recipient: Uuid, ids: seq<nat>)
    ensures MarkedAsRead(MarkedAsRead(notifications, recipient, ids), recipient, ids) ==
              MarkedAsRead(notifications, recipient, ids)
  {
    var once := MarkedAsRead(notifications, recipient, ids);
    var twice := MarkedAsRead(once, recipient, ids);
    forall id | id in twice ensures twice[id] == once[id] {
      assert twice[id].(isRead := once[id].isRead) == once[id];
    }
  }

  /** Two updates for the same recipient amount to one update of both id lists. */
  lemma MarkAsReadCompose(notifications: map<nat, Notification>, recipient: Uuid, a: seq<nat>, b: seq<nat>)
    ensures MarkedAsRead(MarkedAsRead(notifications, recipient, a), recipient, b) ==
              MarkedAsRead(notifications, recipient, a + b)
  {
    var first := MarkedAsRead(notifications, recipient, a);
    var both := MarkedAsRead(first, recipient, b);
    var once := MarkedAsRead(notifications, recipient, a + b);
    forall id | id in both ensures both[id] == once[id] {
      assert both[id].(isRead := first[id].isRead) == first[id];
      assert first[id].(isRead := notifications[id].isRead) == notifications[id];
      assert once[id].(isRead := notifications[id].isRead) == notifications[id];
      assert id in a + b <==> id in a || id in b;
    }
  }

  /** The update keeps the table's invariant: keys, recipients and senders do not change. */
  lemma MarkAsReadKeepsTable(notifications: map<nat, Notification>, users: map<Uuid, User>, next: nat,
                             recipient: Uuid, ids: seq<nat>)
    requires NotificationTable(notifications, users, next)
    ensures NotificationTable(MarkedAsRead(notifications, recipient, ids), users, next)
  {
    var r := MarkedAsRead(notifications, recipient, ids);
    forall id | id in r ensures r[id].id == id && r[id].recipient in users
      && (r[id].sender.Some? ==> r[id].sender.value in users)
    {
      assert r[id].(isRead := notifications[id].isRead) == notifications[id];
    }
  }

  /** `markAsRead(recipient, ids)`: the bulk update, in place. */
  method MarkAsRead(db: Database, recipient: Uuid, ids: seq<nat>)
    requires db.Valid()
    modifies db`notifications
    ensures db.notifications == MarkedAsRead(old(db.notifications), recipient, ids)
    ensures db.Valid()
  {
    MarkAsReadKeepsTable(db.notifications, db.users, db.nextNotificationId, recipient, ids);
    db.notifications := MarkedAsRead(db.notifications, recipient, ids);
  }

  /** The table after `deleteAllByRecipient(recipient)`. */
  function DeletedForRecipient(notifications: map<nat, Notification>, recipient: Uuid): (r: map<nat, Notification>)
    ensures forall id :: id in r <==> id in notifications && notifications[id].recipient != recipient
    ensures forall id :: id in r ==> r[id] == notifications[id]
  {
    map id | id in notifications.Keys && notifications[id].recipient != recipient :: notifications[id]
  }

  /** After the delete the recipient has no notification left, and a second delete changes nothing. */
  lemma DeleteForRecipientEmpties(notifications: map<nat, Notification>, recipient: Uuid, rows: seq<nat>)
    ensures FindByRecipientOrderByCreatedAtDesc(DeletedForRecipient(notifications, recipient), recipient, rows) == []
    ensures DeletedForRecipient(DeletedForRecipient(notifications, recipient), recipient) ==
              DeletedForRecipient(notifications, recipient)
  {
  }

  /** `deleteAllByRecipient(recipient)`, in place. */
  method DeleteAllByRecipient(db: Database, recipient: Uuid)
    requires db.Valid()
    modifies db`notifications
    ensures db.notifications == DeletedForRecipient(old(db.notifications), recipient)
    ensures db.Valid()
  {
    db.notifications := DeletedForRecipient(db.notifications, recipient);
  }
}
