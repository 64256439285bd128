/** The notifications screen (src/components/Notifications.tsx): the unread count that
    drives the header, and the icon chosen for each kind of notification. */
module Notifications {
  import opened Common
  import opened Seqs
  import opened Text

  /** A notification; its `type` is kept as the string the icon switch receives. */
  datatype Notification = Notification(
    id: string, kind: string, message: string, timeAgo: string, isRead: bool, color: string)

  /** The icons the screen draws. */
  datatype Icon = Heart | MessageCircle | UserPlus | Bell

  /** `getNotificationIcon`: like, comment and follow have their own icons; anything else,
      "mention" included, gets the bell. */
  function IconFor(kind: string): (icon: Icon)
    ensures icon == Heart <==> kind == "like"
    ensures icon == MessageCircle <==> kind == "comment"
    ensures icon == UserPlus <==> kind == "follow"
    ensures icon == Bell <==> kind != "like" && kind != "comment" && kind != "follow"
  {
    match kind
    case "like" => Heart
    case "comment" => MessageCircle
    case "follow" => UserPlus
    case _ => Bell
  }

  /** The screen's fixed list (`mockNotifications`). */
  const MockNotifications: seq<Notification> := [
    Notification("1", "like", "Someone liked your whispr about finals week", "5m", false, "whispr-pink"),
    Notification("2", "comment", "New comment on your study group post", "15m", false, "whispr-blue"),
    Notification("3", "follow", "You have a new follower from your campus", "1h", true, "whispr-purple"),
    Notification("4", "like", "Your sunset photo got 10 new likes!", "2h", true, "whispr-orange"),
    Notification("5", "comment", "Someone replied to your chemistry question", "3h", true, "whispr-green"),
    Notification("6", "mention", "You were mentioned in a campus event post", "5h", true, "whispr-teal")
  ]

  predicate IsUnread(n: Notification)
  {
    !n.isRead
  }

  /** `notifications.filter(n => !n.isRead).length`: the number of unread notifications,
      never more than the list holds, and zero exactly when all have been read. */
  function UnreadCount(ns: seq<Notification>): (count: nat)
    ensures count <= |ns|
    ensures count == CountIf(ns, IsUnread)
    ensures count == 0 <==> forall i | 0 <= i < |ns| :: ns[i].isRead
  {
    FilterLength(ns, IsUnread);
    NoneUnreadIffAllRead(ns);
    |Filter(ns, IsUnread)|
  }

  /** Nothing is kept by the unread filter exactly when every notification has been read. */
  lemma NoneUnreadIffAllRead(ns: seq<Notification>)
    ensures Filter(ns, IsUnread) == [] <==> forall i | 0 <= i < |ns| :: ns[i].isRead
  {
    if i :| 0 <= i < |ns| && !ns[i].isRead {
      FilterComplete(ns, IsUnread, ns[i]);
    }
  }

  /** Two of the six fixed notifications are unread. */
  lemma MockUnreadCount()
    ensures UnreadCount(MockNotifications) == 2
  {
    var ns := MockNotifications;
    assert ns[1..][1..][1..][1..][1..][1..] == [];
    assert CountIf(ns[1..][1..][1..][1..][1..], IsUnread) == 0;
  }

  /** The header's subtitle: "You have {n} unread notification", with "s" when n > 1,
      shown only when something is unread. */
  function UnreadSubtitle(count: nat): (line: Option<string>)
    ensures line.Some? <==> count > 0
    ensures line.Some? ==> |line.value| > 0 && (line.value[|line.value| - 1] == 's' <==> count > 1)
    ensures line.Some? ==>
      var s := line.value;
      var n := |s| - |UnreadSuffix(count)|;
      10 <= n <= |s| && s[..9] == "You have " && s[n..] == UnreadSuffix(count) &&
      (forall i | 9 <= i < n :: IsDigit(s[i])) && ParseNat(s[9..n]) == count
  {
    if count > 0 then
      var digits := NatToString(count);
      var line := "You have " + digits + UnreadSuffix(count);
      assert line[9..|line| - |UnreadSuffix(count)|] == digits;
      ParseNatToString(count);
      Some(line)
    else None
  }

  /** The text after the number: " unread notification", with the plural "s" when count > 1. */
  function UnreadSuffix(count: nat): string
  {
    " unread notification" + (if count > 1 then "s" else "")
  }

  /** "Mark all read" is drawn when something is unread. */
  predicate ShowsMarkAllRead(ns: seq<Notification>)
  {
    UnreadCount(ns) > 0
  }

  /** The "All caught up!" empty state is drawn when the list is empty. */
  predicate ShowsEmptyState(ns: seq<Notification>)
  {
    |ns| == 0
  }

  /** "Mark all read" and the subtitle appear together, exactly when some notification is
      unread; the empty state never appears alongside them. */
  lemma HeaderConsistency(ns: seq<Notification>)
    ensures ShowsMarkAllRead(ns) <==> UnreadSubtitle(UnreadCount(ns)).Some?
    ensures ShowsMarkAllRead(ns) <==> exists i | 0 <= i < |ns| :: !ns[i].isRead
    ensures ShowsEmptyState(ns) ==> !ShowsMarkAllRead(ns) && UnreadSubtitle(UnreadCount(ns)).None?
  {
  }
}
