/** The notification menu of src/components/Layout.tsx: the first page of ten
    notifications, an unread counter, and the handlers that fetch, mark one
    entry read (and navigate) and mark everything read. */
module Inbox {
  import opened Wrappers
  import opened Records
  import opened Api

  // ---------------------------------------------------------------------------
  // The per-entry transforms

  /** `prev.map(n => n.id === id ? { ...n, status: 'read' } : n)`. */
  function MarkRead(l: seq<Notification>, id: string): (r: seq<Notification>)
    ensures |r| == |l|
    ensures forall i :: 0 <= i < |l| ==> r[i] == if l[i].id == id then l[i].(status := Read) else l[i]
  {
    if l == [] then []
    else [if l[0].id == id then l[0].(status := Read) else l[0]] + MarkRead(l[1..], id)
  }

  /** `prev.map(n => ({ ...n, status: 'read' }))`. */
  function MarkAllRead(l: seq<Notification>): (r: seq<Notification>)
    ensures |r| == |l|
    ensures forall i :: 0 <= i < |l| ==> r[i] == l[i].(status := Read)
  {
    if l == [] then [] else [l[0].(status := Read)] + MarkAllRead(l[1..])
  }

  /** `l.filter(n => n.status === 'unread')`. */
  function UnreadEntries(l: seq<Notification>): (r: seq<Notification>)
    ensures |r| <= |l|
    ensures forall n :: n in r ==> n in l && n.status == Unread
    ensures forall i :: 0 <= i < |l| && l[i].status == Unread ==> l[i] in r
  {
    if l == [] then [] else (if l[0].status == Unread then [l[0]] else []) + UnreadEntries(l[1..])
  }

  /** The filter keeps every unread entry as often as the list holds it, and
      no read entry at all. */
  lemma {:induction false} UnreadEntriesMultiplicity(l: seq<Notification>)
    ensures forall n :: multiset(UnreadEntries(l))[n] == if n.status == Unread then multiset(l)[n] else 0
  {
    if l != [] {
      UnreadEntriesMultiplicity(l[1..]);
      assert l == [l[0]] + l[1..];
    }
  }

  /** The badge number: how many entries are unread, counted entry by entry. */
  function UnreadCount(l: seq<Notification>): (c: nat)
    ensures c <= |l|
    ensures c == 0 <==> forall i :: 0 <= i < |l| ==> l[i].status == Read
  {
    if l == [] then 0
    else
      assert forall i :: 0 < i < |l| ==> l[i] == l[1..][i - 1];
      (if l[0].status == Unread then 1 else 0) + UnreadCount(l[1..])
  }

  /** The count is the length of the filtered list, which is how the source
      computes the badge. */
  lemma {:induction false} UnreadCountIsFilterLength(l: seq<Notification>)
    ensures UnreadCount(l) == |UnreadEntries(l)|
  {
    if l != [] {
      UnreadCountIsFilterLength(l[1..]);
    }
  }

  predicate DistinctIds(l: seq<Notification>) {
    forall i, j :: 0 <= i < j < |l| ==> l[i].id != l[j].id
  }

  /** No entry of a list is unread once everything is marked read. */
  lemma {:induction false} MarkAllReadLeavesNoUnread(l: seq<Notification>)
    ensures UnreadCount(MarkAllRead(l)) == 0
  {
    if l != [] {
      MarkAllReadLeavesNoUnread(l[1..]);
      assert MarkAllRead(l)[1..] == MarkAllRead(l[1..]);
    }
  }

  /** Marking an id that no entry carries changes nothing. */
  lemma {:induction false} MarkReadAbsent(l: seq<Notification>, id: string)
    requires forall i :: 0 <= i < |l| ==> l[i].id != id
    ensures MarkRead(l, id) == l
  {
    if l != [] {
      MarkReadAbsent(l[1..], id);
    }
  }

  /** The tail of a list with distinct ids has distinct ids, none of them
      the head's. */
  lemma DistinctTail(l: seq<Notification>)
    requires DistinctIds(l) && l != []
    ensures DistinctIds(l[1..])
    ensures forall i :: 0 <= i < |l[1..]| ==> l[1..][i].id != l[0].id
  {
    forall i | 0 <= i < |l[1..]|
      ensures l[1..][i].id != l[0].id
    {
      assert l[1..][i] == l[i + 1];
    }
    forall i, j | 0 <= i < j < |l[1..]|
      ensures l[1..][i].id != l[1..][j].id
    {
      assert l[1..][i] == l[i + 1] && l[1..][j] == l[j + 1];
    }
  }

  /** With distinct ids, marking the id of an unread entry read lowers the
      number of unread entries by exactly one. */
  lemma {:induction false} MarkReadCountsDown(l: seq<Notification>, k: nat)
    requires DistinctIds(l) && k < |l| && l[k].status == Unread
    ensures UnreadCount(MarkRead(l, l[k].id)) == UnreadCount(l) - 1
  {
    var id, rest := l[k].id, l[1..];
    var marked := MarkRead(l, id);
    assert marked[1..] == MarkRead(rest, id);
    DistinctTail(l);
    if k == 0 {
      MarkReadAbsent(rest, id);
    } else {
      assert rest[k - 1] == l[k];
      MarkReadCountsDown(rest, k - 1);
    }
  }

  /** The same, for an entry given by value rather than by position. */
  lemma MarkEntryCountsDown(l: seq<Notification>, n: Notification)
    requires n in l && n.status == Unread
    ensures DistinctIds(l) ==> UnreadCount(MarkRead(l, n.id)) == UnreadCount(l) - 1
  {
    var k :| 0 <= k < |l| && l[k] == n;
    if DistinctIds(l) {
      MarkReadCountsDown(l, k);
    }
  }

  // ---------------------------------------------------------------------------
  // Navigation

  /** Where a click on a notification leads. */
  function Destination(t: Topic): (path: string)
    ensures path == "/deposits" <==> t == Deposit
    ensures path == "/withdrawals" <==> t == Withdrawal
    ensures path == "/notifications" <==> t == Profit || t == General
  {
    match t
    case Deposit => "/deposits"
    case Withdrawal => "/withdrawals"
    case _ => "/notifications"
  }

  // ---------------------------------------------------------------------------
  // The component state

  /** The call the menu fetches with: page 1 with a limit of ten. */
  const MenuFetch := GetNotifications(Some(1), Some(10))

  class NotificationMenu {
    var notifications: seq<Notification>
    var unreadCount: int
    var menuOpen: bool

    /** The counter agrees with the list. */
    predicate CountAgrees()
      reads this
    {
      unreadCount == UnreadCount(notifications)
    }

    constructor ()
      ensures notifications == [] && unreadCount == 0 && !menuOpen
      ensures CountAgrees()
    {
      notifications := [];
      unreadCount := 0;
      menuOpen := false;
    }

    /** `fetchNotifications`: the `notifications` member of the payload (empty
        when absent) replaces the list and the counter becomes its number of
        unread entries; a failure changes nothing. */
    method Fetch(reply: Reply<Option<seq<Notification>>>) returns (calls: seq<Call>)
      modifies this
      ensures calls == [MenuFetch]
      ensures menuOpen == old(menuOpen)
      ensures reply.Ok? ==> notifications == reply.data.GetOr([]) && CountAgrees()
      ensures reply.Failed? ==> notifications == old(notifications) && unreadCount == old(unreadCount)
    {
      calls := [MenuFetch];
      if reply.Ok? {
        var data := reply.data.GetOr([]);
        notifications := data;
        unreadCount := |UnreadEntries(data)|;
        UnreadCountIsFilterLength(data);
      }
    }

    /** `handleNotificationMenuOpen`: open the menu and fetch. */
    method OpenMenu(reply: Reply<Option<seq<Notification>>>) returns (calls: seq<Call>)
      modifies this
      ensures menuOpen && calls == [MenuFetch]
      ensures reply.Ok? ==> notifications == reply.data.GetOr([]) && CountAgrees()
      ensures reply.Failed? ==> notifications == old(notifications) && unreadCount == old(unreadCount)
    {
      menuOpen := true;
      calls := Fetch(reply);
    }

    /** `handleNotificationMenuClose`: only the menu closes. */
    method CloseMenu()
      modifies this
      ensures !menuOpen && notifications == old(notifications) && unreadCount == old(unreadCount)
    {
      menuOpen := false;
    }

    /** `handleNotificationClick` on an entry of the list. An unread entry is
        marked read on the backend; on success every entry with its id becomes
        read and the counter drops by one but not below 0; a read entry causes
        no call. Navigation follows the type whatever happened, and the menu
        closes. */
    method Click(n: Notification, reply: Reply<()>) returns (calls: seq<Call>, target: string)
      requires n in notifications
      modifies this
      ensures target == Destination(n.topic) && !menuOpen
      ensures n.status == Read ==>
        calls == [] && notifications == old(notifications) && unreadCount == old(unreadCount)
      ensures n.status == Unread ==> calls == [MarkNotificationAsRead(n.id)]
      ensures n.status == Unread && reply.Ok? ==>
        notifications == MarkRead(old(notifications), n.id)
        && unreadCount == if old(unreadCount) - 1 < 0 then 0 else old(unreadCount) - 1
      ensures n.status == Unread && reply.Failed? ==>
        notifications == old(notifications) && unreadCount == old(unreadCount)
      ensures old(CountAgrees()) && DistinctIds(old(notifications)) ==> CountAgrees()
    {
      calls := [];
      if n.status == Unread {
        calls := [MarkNotificationAsRead(n.id)];
        if reply.Ok? {
          MarkEntryCountsDown(notifications, n);
          notifications := MarkRead(notifications, n.id);
          unreadCount := if unreadCount - 1 < 0 then 0 else unreadCount - 1;
        }
      }
      target := Destination(n.topic);
      menuOpen := false;
    }

    /** "Mark all read", offered while the counter is positive: on success every
        entry is read and the counter is 0; a failure changes nothing. */
    method MarkAll(reply: Reply<()>) returns (calls: seq<Call>)
      modifies this
      ensures calls == [MarkAllNotificationsAsRead] && menuOpen == old(menuOpen)
      ensures reply.Ok? ==> notifications == MarkAllRead(old(notifications)) && unreadCount == 0 && CountAgrees()
      ensures reply.Failed? ==> notifications == old(notifications) && unreadCount == old(unreadCount)
    {
      calls := [MarkAllNotificationsAsRead];
      if reply.Ok? {
        MarkAllReadLeavesNoUnread(notifications);
        notifications := MarkAllRead(notifications);
        unreadCount := 0;
      }
    }
  }
}
