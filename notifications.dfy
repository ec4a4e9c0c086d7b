/** The notification feed of contexts/notifications-context.tsx: a list,
    newest first, that four operations replace, and the number of unread
    entries derived from it. Ids and timestamps, which the source takes from
    the clock, are supplied by the caller. */
module Notifications {
  import Seqs

  datatype Kind = Success | Error | Info | Warning

  datatype Notification = Notification(
    id: string, kind: Kind, title: string, message: string, timestamp: int, read: bool)

  /** `addNotification`: the new unread entry goes in front. */
  function Prepended(ns: seq<Notification>, kind: Kind, title: string, message: string,
                     freshId: string, now: int): seq<Notification> {
    [Notification(freshId, kind, title, message, now, false)] + ns
  }

  /** `markAsRead`: set `read` on the entries with id `id`. */
  function MarkedRead(ns: seq<Notification>, id: string): (r: seq<Notification>)
    ensures |r| == |ns|
    ensures forall i :: 0 <= i < |ns| ==>
      r[i] == (if ns[i].id == id then ns[i].(read := true) else ns[i])
  {
    if ns == [] then []
    else [if ns[0].id == id then ns[0].(read := true) else ns[0]] + MarkedRead(ns[1..], id)
  }

  function NotId(id: string): Notification -> bool {
    (n: Notification) => n.id != id
  }

  /** `clearNotification`: drop the entries with id `id`. */
  function Cleared(ns: seq<Notification>, id: string): seq<Notification> {
    Seqs.Filter(ns, NotId(id))
  }

  /** `unreadCount`: the number of entries not yet read. */
  function UnreadCount(ns: seq<Notification>): nat {
    if ns == [] then 0 else (if ns[0].read then 0 else 1) + UnreadCount(ns[1..])
  }

  /** The number of unread entries with id `id`. */
  function UnreadWithId(ns: seq<Notification>, id: string): nat {
    if ns == [] then 0
    else (if !ns[0].read && ns[0].id == id then 1 else 0) + UnreadWithId(ns[1..], id)
  }

  // ---------------------------------------------------------------- lemmas

  /** The new entry is first and unread; the old list follows unchanged; the
      unread count grows by exactly one. */
  lemma AddSpec(ns: seq<Notification>, kind: Kind, title: string, message: string, freshId: string, now: int)
    ensures var r := Prepended(ns, kind, title, message, freshId, now);
      r[0] == Notification(freshId, kind, title, message, now, false) && r[1..] == ns &&
      UnreadCount(r) == UnreadCount(ns) + 1
  {
    var r := Prepended(ns, kind, title, message, freshId, now);
    assert r[1..] == ns;
  }

  /** Marking read only touches the `read` flag of the entries with that id. */
  lemma MarkOnlyTouchesId(ns: seq<Notification>, id: string)
    ensures var r := MarkedRead(ns, id);
      |r| == |ns| &&
      forall i :: 0 <= i < |ns| ==>
        r[i].id == ns[i].id && r[i].kind == ns[i].kind && r[i].title == ns[i].title &&
        r[i].message == ns[i].message && r[i].timestamp == ns[i].timestamp &&
        r[i].read == (ns[i].read || ns[i].id == id)
  {
  }

  /** Marking read twice is marking read once. */
  lemma {:induction false} MarkIdempotent(ns: seq<Notification>, id: string)
    ensures MarkedRead(MarkedRead(ns, id), id) == MarkedRead(ns, id)
  {
    var once := MarkedRead(ns, id);
    var twice := MarkedRead(once, id);
    assert forall i :: 0 <= i < |ns| ==> twice[i] == once[i];
  }

  /** Marking read lowers the unread count by the number of unread entries
      with that id: by exactly one when there is one such entry. */
  lemma {:induction false} MarkUnreadCount(ns: seq<Notification>, id: string)
    ensures UnreadWithId(ns, id) <= UnreadCount(ns)
    ensures UnreadCount(MarkedRead(ns, id)) == UnreadCount(ns) - UnreadWithId(ns, id)
  {
    if ns != [] {
      MarkUnreadCount(ns[1..], id);
      assert MarkedRead(ns, id)[1..] == MarkedRead(ns[1..], id);
    }
  }

  /** Clearing removes every entry with that id and keeps the others in order. */
  lemma ClearSpec(ns: seq<Notification>, more: seq<Notification>, id: string)
    ensures forall n :: n in Cleared(ns, id) <==> n in ns && n.id != id
    ensures Cleared(ns + more, id) == Cleared(ns, id) + Cleared(more, id)
  {
    Seqs.FilterAppend(ns, more, NotId(id));
  }

  /** The unread count never exceeds the length of the list. */
  lemma {:induction false} UnreadBounded(ns: seq<Notification>)
    ensures UnreadCount(ns) <= |ns|
    ensures UnreadCount(ns) == 0 <==> forall i :: 0 <= i < |ns| ==> ns[i].read
  {
    if ns != [] {
      UnreadBounded(ns[1..]);
      assert forall i :: 1 <= i < |ns| ==> ns[i] == ns[1..][i - 1];
    }
  }

  // ------------------------------------------------------------ the store

  /** The `NotificationsProvider` state. */
  class Feed {
    var notifications: seq<Notification>

    constructor ()
      ensures notifications == []
    {
      notifications := [];
    }

    method AddNotification(kind: Kind, title: string, message: string, freshId: string, now: int)
      modifies this
      ensures notifications == Prepended(old(notifications), kind, title, message, freshId, now)
      ensures UnreadCount(notifications) == UnreadCount(old(notifications)) + 1
    {
      AddSpec(notifications, kind, title, message, freshId, now);
      notifications := Prepended(notifications, kind, title, message, freshId, now);
    }

    method MarkAsRead(id: string)
      modifies this
      ensures notifications == MarkedRead(old(notifications), id)
      ensures UnreadCount(notifications) == UnreadCount(old(notifications)) - UnreadWithId(old(notifications), id)
    {
      MarkUnreadCount(notifications, id);
      notifications := MarkedRead(notifications, id);
    }

    method ClearNotification(id: string)
      modifies this
      ensures notifications == Cleared(old(notifications), id)
      ensures forall n :: n in notifications ==> n.id != id
    {
      notifications := Cleared(notifications, id);
    }

    method ClearAll()
      modifies this
      ensures notifications == [] && UnreadCount(notifications) == 0
    {
      notifications := [];
    }

    function Unread(): (n: nat)
      reads this
      ensures n <= |notifications|
    {
      UnreadBounded(notifications);
      UnreadCount(notifications)
    }
  }
}
