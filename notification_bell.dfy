/** `NotificationBell`: the unread count and its badge, "mark all read",
    the five-item dropdown and the category styling lookup. The list is
    filled on mount from a fixed mock list stamped relative to the clock,
    which enters as a parameter. */
module NotificationBell {
  import opened Optional
  import opened Seqs
  import opened JsPrims

  datatype Priority = Urgent | High | Medium | Low

  /** One notification; `createdAt` is the creation time in epoch milliseconds. */
  datatype Notification = Notification(
    id: string, title: string, content: string, category: string,
    priority: Priority, isRead: bool, actionUrl: Option<string>, createdAt: int)

  /** The list the bell loads on mount, stamped 30 minutes, 2 hours and 5 hours before `now`. */
  function MockNotifications(now: int): (ns: seq<Notification>)
    ensures |ns| == 3
    ensures forall i :: 0 <= i < |ns| ==> !ns[i].isRead && ns[i].createdAt < now
  {
    [Notification("1", "Welcome to the Starter Kit",
                  "Get started by exploring the dashboard and settings.",
                  "system", Medium, false, Some("/dashboard"), now - 1000 * 60 * 30),
     Notification("2", "Profile Setup Required",
                  "Complete your profile to unlock all features.",
                  "reminder", High, false, Some("/dashboard/settings/profile"), now - 1000 * 60 * 60 * 2),
     Notification("3", "New Feature Available",
                  "Check out our new modern table component with card view.",
                  "announcement", Medium, false, None, now - 1000 * 60 * 60 * 5)]
  }

  // ---------------------------------------------------------------------------
  // Counts
  // ---------------------------------------------------------------------------

  /** `notifications.filter(n => !n.is_read).length` */
  function UnreadCount(ns: seq<Notification>): (n: nat)
    ensures n <= |ns|
    ensures n == 0 <==> forall i :: 0 <= i < |ns| ==> ns[i].isRead
    ensures n == |Filter(ns, (x: Notification) => !x.isRead)|
  {
    CountIsFilterLength(ns, (x: Notification) => !x.isRead);
    Count(ns, (x: Notification) => !x.isRead)
  }

  /** `handleMarkAllAsRead`: a copy of every notification with `is_read` set. */
  function MarkAllRead(ns: seq<Notification>): (r: seq<Notification>)
    ensures |r| == |ns|
    ensures forall i :: 0 <= i < |ns| ==> r[i].isRead
    ensures forall i :: 0 <= i < |ns| ==> r[i] == ns[i].(isRead := true)
  {
    seq(|ns|, i requires 0 <= i < |ns| => ns[i].(isRead := true))
  }

  /** After marking all read nothing is unread, the "Mark all read" button
      is gone, and doing it again changes nothing. */
  lemma MarkAllReadClears(ns: seq<Notification>)
    ensures UnreadCount(MarkAllRead(ns)) == 0
    ensures !MarkAllButtonShown(MarkAllRead(ns))
    ensures MarkAllRead(MarkAllRead(ns)) == MarkAllRead(ns)
    ensures forall i :: 0 <= i < |ns| ==> MarkAllRead(ns)[i].id == ns[i].id
  {
  }

  /** Marking all read changes nothing on a list without unread items. */
  lemma MarkAllReadNoOp(ns: seq<Notification>)
    requires UnreadCount(ns) == 0
    ensures MarkAllRead(ns) == ns
  {
    assert forall i :: 0 <= i < |ns| ==> ns[i].(isRead := true) == ns[i];
  }

  predicate MarkAllButtonShown(ns: seq<Notification>) {
    UnreadCount(ns) > 0
  }

  /** The count the badge shows: nothing before mount, so the server-rendered
      markup matches the first client render. */
  function DisplayCount(mounted: bool, ns: seq<Notification>): (n: nat)
    ensures !mounted ==> n == 0
    ensures mounted ==> n == UnreadCount(ns)
  {
    if mounted then UnreadCount(ns) else 0
  }

  /** The badge: absent at zero, "9+" above nine, the number otherwise. */
  function BadgeText(displayCount: nat): (t: Option<string>)
    ensures t.None? <==> displayCount == 0
    ensures displayCount > 9 ==> t == Some("9+")
    ensures 0 < displayCount <= 9 ==> t == Some([DigitChar(displayCount)])
  {
    if displayCount == 0 then None
    else if displayCount > 9 then Some("9+")
    else Some(NatToString(displayCount))
  }

  /** The dropdown lists the first five notifications, in list order. */
  function DropdownItems(ns: seq<Notification>): (shown: seq<Notification>)
    ensures shown == ns[..Min(5, |ns|)]
  {
    SliceTake(ns, 5);
    Slice(ns, 0, 5)
  }

  /** An item links to its action URL, or to the notifications page. */
  function LinkTarget(n: Notification): string {
    match n.actionUrl
    case Some(url) => url
    case None => "/notifications"
  }

  // ---------------------------------------------------------------------------
  // Category style
  // ---------------------------------------------------------------------------

  const CategoryKeys: set<string> :=
    {"system", "approval", "attendance", "payroll", "leave", "claim", "announcement", "reminder", "alert"}

  /** The style entry a category gets, as corrected: its own entry, or the
      `system` entry for any other category. */
  function StyleKey(category: string): (key: string)
    ensures key in CategoryKeys
    ensures category in CategoryKeys ==> key == category
    ensures category !in CategoryKeys ==> key == "system"
  {
    if category in CategoryKeys then category else "system"
  }

  /** The lookup as written, `categoryConfig[category] || categoryConfig.system`:
      a category named after a member every object inherits finds that
      member, which has no `icon`, and rendering it throws (`None`). */
  function StyleKeyAsWritten(category: string): (key: Option<string>)
    ensures !InheritedObjectMember(category) ==> key == Some(StyleKey(category))
    ensures InheritedObjectMember(category) ==> key.None?
  {
    if category in CategoryKeys then Some(category)
    else if InheritedObjectMember(category) then None
    else Some("system")
  }

  /** A notification of category "toString" breaks the dropdown instead of
      falling back to the system style. */
  lemma InheritedCategoryBreaksDropdown()
    ensures StyleKeyAsWritten("toString").None?
    ensures StyleKey("toString") == "system"
  {
    assert "toString" !in CategoryKeys by {
      assert |"toString"| == 8;
    }
  }

  // ---------------------------------------------------------------------------
  // Component state
  // ---------------------------------------------------------------------------

  class Bell {
    var open: bool
    var notifications: seq<Notification>
    var mounted: bool

    /** The first (server) render: closed, empty, not mounted. */
    constructor ()
      ensures !open && notifications == [] && !mounted
      ensures DisplayCount(mounted, notifications) == 0
    {
      open := false;
      notifications := [];
      mounted := false;
    }

    /** The mount effect loads the mock list; every item starts unread. */
    method Mount(now: int)
      modifies this
      ensures mounted && notifications == MockNotifications(now) && open == old(open)
      ensures DisplayCount(mounted, notifications) == 3
      ensures BadgeText(DisplayCount(mounted, notifications)) == Some("3")
    {
      mounted := true;
      notifications := MockNotifications(now);
      assert UnreadCount(notifications) == 3 by {
        var isUnread := (x: Notification) => !x.isRead;
        CountIsFilterLength(notifications, isUnread);
        FilterAll(notifications, isUnread);
      }
      assert NatToString(3) == [DigitChar(3)];
    }

    /** "Mark all read". */
    method MarkAllAsRead()
      modifies this
      ensures notifications == MarkAllRead(old(notifications))
      ensures open == old(open) && mounted == old(mounted)
      ensures DisplayCount(mounted, notifications) == 0
    {
      notifications := MarkAllRead(notifications);
      MarkAllReadClears(old(notifications));
    }

    /** Opening or closing the popover, also by clicking an item or "View all". */
    method SetOpen(value: bool)
      modifies this
      ensures open == value
      ensures notifications == old(notifications) && mounted == old(mounted)
    {
      open := value;
    }
  }
}
