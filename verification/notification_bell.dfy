/** The pure decisions of the notification bell: where a notification leads,
    its icon and sender label, what a click does, the badge, the five-item
    window and the relative-time text. */
module NotificationBell {
  import opened Wrappers
  import opened Strings
  import opened Notifications
  import NotificationStore

  // ---------------------------------------------------------------------
  // Navigation
  // ---------------------------------------------------------------------

  /** An id interpolated into a template literal; a JSON `null` renders as "null". */
  function IdText(o: Option<nat>): string {
    if o.Some? then NatToString(o.value) else "null"
  }

  /** The notification kinds that lead somewhere. */
  predicate NavigatingKind(kind: string) {
    kind == "anime_recommend" || kind == "friend_request" || kind == "friend_accept"
  }

  /** `getNavigationUrl`: the anime page of a recommendation, the sender's
      profile of a friend request or acceptance, nothing for other kinds. */
  function NavigationUrl(n: Notification): (url: Option<string>)
    ensures url.Some? <==> NavigatingKind(n.kind)
    ensures n.kind == "anime_recommend" ==> url == Some("/anime/" + IdText(n.relatedId))
    ensures n.kind == "friend_request" || n.kind == "friend_accept" ==>
              url == Some("/profile/" + IdText(n.senderId))
  {
    if n.kind == "anime_recommend" then Some("/anime/" + IdText(n.relatedId))
    else if n.kind == "friend_request" || n.kind == "friend_accept" then Some("/profile/" + IdText(n.senderId))
    else None
  }

  /** An item is rendered clickable when it has somewhere to go, which is
      exactly the three navigating kinds. */
  function IsClickable(n: Notification): (clickable: bool)
    ensures clickable <==> n.kind in {"anime_recommend", "friend_request", "friend_accept"}
  {
    NavigationUrl(n).Some?
  }

  lemma IdTextInjective(a: Option<nat>, b: Option<nat>)
    ensures IdText(a) == IdText(b) <==> a == b
  {
    if a.Some? && b.Some? {
      NatToStringInjective(a.value, b.value);
    } else if a.Some? && b.None? {
      assert IdText(a)[0] != 'n';
    } else if a.None? && b.Some? {
      assert IdText(b)[0] != 'n';
    }
  }

  /** The URL identifies its target: equal URLs come from notifications of
      the same destination kind about the same anime or the same sender. */
  lemma NavigationUrlIdentifiesTarget(a: Notification, b: Notification)
    requires NavigationUrl(a).Some? && NavigationUrl(a) == NavigationUrl(b)
    ensures a.kind == "anime_recommend" <==> b.kind == "anime_recommend"
    ensures a.kind == "anime_recommend" ==> a.relatedId == b.relatedId
    ensures a.kind != "anime_recommend" ==> a.senderId == b.senderId
  {
    var u := NavigationUrl(a).value;
    assert a.kind == "anime_recommend" <==> u[1] == 'a';
    assert b.kind == "anime_recommend" <==> u[1] == 'a';
    if a.kind == "anime_recommend" {
      assert IdText(a.relatedId) == u[7..] == IdText(b.relatedId);
      IdTextInjective(a.relatedId, b.relatedId);
    } else {
      assert IdText(a.senderId) == u[9..] == IdText(b.senderId);
      IdTextInjective(a.senderId, b.senderId);
    }
  }

  /** `getNotificationIcon`. */
  function Icon(kind: string): (icon: string)
    ensures icon == "\U{1F514}" <==> !NavigatingKind(kind)
    ensures kind == "friend_request" ==> icon == "\U{1F464}"
    ensures kind == "friend_accept" ==> icon == "\U{2705}"
    ensures kind == "anime_recommend" ==> icon == "\U{1F4FA}"
  {
    if kind == "friend_request" then "\U{1F464}"
    else if kind == "friend_accept" then "\U{2705}"
    else if kind == "anime_recommend" then "\U{1F4FA}"
    else "\U{1F514}"
  }

  /** The sender column: display name, else username, else "System". */
  function SenderLabel(n: Notification): (sender: string)
    ensures sender != ""
    ensures Truthy(n.senderDisplayName) ==> sender == n.senderDisplayName.value
    ensures !Truthy(n.senderDisplayName) && Truthy(n.senderUsername) ==> sender == n.senderUsername.value
    ensures !Truthy(n.senderDisplayName) && !Truthy(n.senderUsername) ==> sender == "System"
  {
    if Truthy(n.senderDisplayName) then n.senderDisplayName.value
    else if Truthy(n.senderUsername) then n.senderUsername.value
    else "System"
  }

  /** The sender column names one of the sender's own names, or "System",
      and nothing but those two name fields decides it. */
  lemma SenderLabelNamesTheSender(a: Notification, b: Notification)
    ensures SenderLabel(a) == "System" || Some(SenderLabel(a)) == a.senderDisplayName
            || Some(SenderLabel(a)) == a.senderUsername
    ensures a.senderDisplayName == b.senderDisplayName && a.senderUsername == b.senderUsername ==>
              SenderLabel(a) == SenderLabel(b)
  {
  }

  // ---------------------------------------------------------------------
  // Clicking an item
  // ---------------------------------------------------------------------

  /** What a click on an item asks for: a mark-read request, whether the
      dropdown stays open, and where to navigate. */
  datatype ClickEffect = ClickEffect(markRead: Option<NotificationId>, stayOpen: bool,
                                     navigateTo: Option<string>)

  /** `handleNotificationClick`: mark read only if unread; close and
      navigate only when there is a URL. */
  function Click(n: Notification, isOpen: bool): (e: ClickEffect)
    ensures e.markRead.Some? <==> !n.isRead
    ensures e.markRead.Some? ==> e.markRead.value == n.id
    ensures e.navigateTo == NavigationUrl(n)
    ensures e.stayOpen <==> isOpen && !IsClickable(n)
  {
    var url := NavigationUrl(n);
    ClickEffect(if n.isRead then None else Some(n.id), if url.Some? then false else isOpen, url)
  }

  /** In a list with unique ids, the cached item is the first copy of its id. */
  lemma {:induction false} FindCachedItem(list: seq<Notification>, k: nat)
    requires k < |list| && NotificationStore.UniqueIds(list)
    ensures NotificationStore.FindById(list, list[k].id) == Some(list[k])
  {
    if k > 0 {
      assert list[0].id != list[k].id;
      assert NotificationStore.UniqueIds(list[1..]) by {
        forall i, j | 0 <= i < j < |list| - 1 ensures list[1..][i].id != list[1..][j].id {
          assert list[1..][i] == list[i + 1] && list[1..][j] == list[j + 1];
        }
      }
      assert list[1..][k - 1] == list[k];
      FindCachedItem(list[1..], k - 1);
    }
  }

  /** Clicking a cached unread item, and the server confirming the mark-read
      it triggers, keeps the count in step with the cache: the drift of
      `markAsRead` on a read item never comes from a click. */
  lemma ClickKeepsCountInStep(s: NotificationStore.Store, k: nat, isOpen: bool, token: Option<string>,
                              reply: NotificationStore.Reply<()>)
    requires k < |s.notifications| && NotificationStore.UniqueIds(s.notifications)
    requires NotificationStore.CountMatchesCache(s)
    requires Click(s.notifications[k], isOpen).markRead.Some?
    ensures NotificationStore.CountMatchesCache(
              NotificationStore.MarkAsRead(s, token, Click(s.notifications[k], isOpen).markRead.value, reply))
  {
    FindCachedItem(s.notifications, k);
    NotificationStore.MarkAsReadOfUnreadKeepsCount(s, token, s.notifications[k].id, reply);
  }

  // ---------------------------------------------------------------------
  // Badge and window
  // ---------------------------------------------------------------------

  /** The badge over the bell: absent for a zero count, "99+" above 99. */
  function BadgeText(count: int): (badge: Option<string>)
    ensures badge.Some? <==> count > 0
    ensures count > 99 ==> badge == Some("99+")
    ensures 0 < count <= 99 ==> badge == Some(NatToString(count))
    ensures badge.Some? ==> 1 <= |badge.value| <= 3
  {
    if count <= 0 then None
    else if count > 99 then Some("99+")
    else
      NatToStringLength(count);
      Some(NatToString(count))
  }

  /** Below a hundred the badge reads exactly the count. */
  lemma BadgeShowsExactCount(count: int)
    requires 0 < count <= 99
    ensures AllDigits(BadgeText(count).value) && DigitsValue(BadgeText(count).value) == count
  {
    NatToStringValue(count);
  }

  /** How many items the dropdown shows at most. */
  const RecentLimit := 5

  /** `notifications.slice(0, 5)`. */
  function Recent(list: seq<Notification>): (r: seq<Notification>)
    ensures |r| == if |list| <= RecentLimit then |list| else RecentLimit
    ensures r == list[..|r|]
  {
    if |list| <= RecentLimit then list else list[..RecentLimit]
  }

  /** The "See All" footer: it appears exactly when the window hides some item. */
  function ShowSeeAll(list: seq<Notification>): (show: bool)
    ensures show <==> |Recent(list)| < |list|
  {
    |list| > RecentLimit
  }

  // ---------------------------------------------------------------------
  // Relative time
  // ---------------------------------------------------------------------

  /** The relative-time buckets of `formatTimeAgo`. */
  datatype Age = JustNow | MinutesAgo(minutes: nat) | HoursAgo(hours: nat) | DaysAgo(days: nat)
               | OlderThanAWeek

  const Minute := 60
  const Hour := 3600
  const Day := 86400
  const Week := 604800

  /** The bucket of an age in whole seconds. */
  function AgeOf(seconds: int): (a: Age)
    ensures a.JustNow? <==> seconds < Minute
    ensures a.MinutesAgo? <==> Minute <= seconds < Hour
    ensures a.HoursAgo? <==> Hour <= seconds < Day
    ensures a.DaysAgo? <==> Day <= seconds < Week
    ensures a.OlderThanAWeek? <==> Week <= seconds
    ensures a.MinutesAgo? ==> 1 <= a.minutes <= 59 && a.minutes * Minute <= seconds < (a.minutes + 1) * Minute
    ensures a.HoursAgo? ==> 1 <= a.hours <= 23 && a.hours * Hour <= seconds < (a.hours + 1) * Hour
    ensures a.DaysAgo? ==> 1 <= a.days <= 6 && a.days * Day <= seconds < (a.days + 1) * Day
  {
    if seconds < Minute then JustNow
    else if seconds < Hour then MinutesAgo(seconds / Minute)
    else if seconds < Day then HoursAgo(seconds / Hour)
    else if seconds < Week then DaysAgo(seconds / Day)
    else OlderThanAWeek
  }

  /** Buckets ordered from most to least recent. */
  function Rank(a: Age): nat {
    match a
    case JustNow => 0
    case MinutesAgo(_) => 1
    case HoursAgo(_) => 2
    case DaysAgo(_) => 3
    case OlderThanAWeek => 4
  }

  /** The amount inside a bucket. */
  function Amount(a: Age): nat {
    match a
    case MinutesAgo(m) => m
    case HoursAgo(h) => h
    case DaysAgo(d) => d
    case _ => 0
  }

  /** An older item never lands in a more recent bucket, nor shows a smaller amount in the same one. */
  lemma AgeMonotone(s1: int, s2: int)
    requires s1 <= s2
    ensures Rank(AgeOf(s1)) <= Rank(AgeOf(s2))
    ensures Rank(AgeOf(s1)) == Rank(AgeOf(s2)) ==> Amount(AgeOf(s1)) <= Amount(AgeOf(s2))
  {
    var a1, a2 := AgeOf(s1), AgeOf(s2);
    if a1.MinutesAgo? && a2.MinutesAgo? {
      assert a1.minutes <= a2.minutes;
    }
  }

  /** The text of a bucket; the week-or-more bucket is a locale date, not modelled. */
  function AgeText(a: Age): Option<string> {
    match a
    case JustNow => Some("Just now")
    case MinutesAgo(m) => Some(NatToString(m) + "m ago")
    case HoursAgo(h) => Some(NatToString(h) + "h ago")
    case DaysAgo(d) => Some(NatToString(d) + "d ago")
    case OlderThanAWeek => None
  }

  /** `formatTimeAgo` given the current time and the creation time in
      milliseconds: `Math.floor` of the difference in seconds, then its bucket. */
  function FormatTimeAgo(nowMillis: int, createdMillis: int): (text: Option<string>)
    ensures text.None? <==> nowMillis - createdMillis >= Week * 1000
    ensures text == Some("Just now") <==> nowMillis - createdMillis < Minute * 1000
    ensures var d := nowMillis - createdMillis;
            Minute * 1000 <= d < Hour * 1000 ==> text == Some(NatToString(d / 60000) + "m ago")
    ensures var d := nowMillis - createdMillis;
            Hour * 1000 <= d < Day * 1000 ==> text == Some(NatToString(d / 3600000) + "h ago")
    ensures var d := nowMillis - createdMillis;
            Day * 1000 <= d < Week * 1000 ==> text == Some(NatToString(d / 86400000) + "d ago")
  {
    var a := AgeOf((nowMillis - createdMillis) / 1000);
    if a.OlderThanAWeek? then None
    else
      AgeTextFirstChar(a);
      AgeText(a)
  }

  lemma UnitTextsDiffer(x: nat, y: nat, u: char, v: char)
    requires NatToString(x) + [u] + " ago" == NatToString(y) + [v] + " ago"
    ensures x == y && u == v
  {
    var sx, sy := NatToString(x), NatToString(y);
    assert |sx| == |sy|;
    assert (sx + [u] + " ago")[|sx|] == u;
    assert (sy + [v] + " ago")[|sy|] == v;
    assert sx == (sx + [u] + " ago")[..|sx|];
    assert sy == (sy + [v] + " ago")[..|sy|];
    NatToStringInjective(x, y);
  }

  lemma AgeTextFirstChar(a: Age)
    requires AgeText(a).Some?
    ensures AgeText(a).value[0] == 'J' <==> a.JustNow?
  {
  }

  lemma AgeTextShape(a: Age)
    requires !a.JustNow? && !a.OlderThanAWeek?
    ensures AgeText(a).value == NatToString(Amount(a)) + [UnitLetter(a)] + " ago"
  {
  }

  /** Distinct buckets read differently. */
  lemma AgeTextInjective(a: Age, b: Age)
    requires AgeText(a).Some? && AgeText(a) == AgeText(b)
    ensures a == b
  {
    AgeTextFirstChar(a);
    AgeTextFirstChar(b);
    if !a.JustNow? {
      AgeTextShape(a);
      AgeTextShape(b);
      UnitTextsDiffer(Amount(a), Amount(b), UnitLetter(a), UnitLetter(b));
    }
  }

  function UnitLetter(a: Age): char {
    match a
    case MinutesAgo(_) => 'm'
    case HoursAgo(_) => 'h'
    case _ => 'd'
  }

  // ---------------------------------------------------------------------
  // The rendered bell
  // ---------------------------------------------------------------------

  /** One rendered item: its icon, sender and message, the anime title line
      when there is one, the relative time, whether it is clickable (with its
      "Click to view" hint) and whether it offers a mark-read button. */
  datatype ItemView = ItemView(id: NotificationId, icon: string, sender: string, message: string,
                               animeTitle: Option<string>, time: Option<string>, clickable: bool,
                               markReadButton: bool)

  function RenderItem(n: Notification, nowMillis: int): (v: ItemView)
    ensures v.id == n.id && v.message == n.message
    ensures v.icon == Icon(n.kind) && v.sender == SenderLabel(n)
    ensures v.animeTitle.Some? <==> Truthy(n.animeTitle)
    ensures v.animeTitle.Some? ==> v.animeTitle == n.animeTitle
    ensures v.time == FormatTimeAgo(nowMillis, n.createdAt)
    ensures v.clickable <==> NavigatingKind(n.kind)
    ensures v.markReadButton <==> !n.isRead
  {
    ItemView(n.id, Icon(n.kind), SenderLabel(n), n.message,
             if Truthy(n.animeTitle) then n.animeTitle else None,
             FormatTimeAgo(nowMillis, n.createdAt), IsClickable(n), !n.isRead)
  }

  /** The open dropdown: header buttons, the windowed items and the footer. */
  datatype Dropdown = Dropdown(markAllButton: bool, clearAllButton: bool, items: seq<ItemView>,
                               seeAllFooter: bool)

  datatype BellView = BellView(badge: Option<string>, dropdown: Option<Dropdown>)

  /** The whole bell: hidden without a user or for an admin; the mark-all
      button needs an unread count, clear-all a non-empty list. */
  function Render(hasUser: bool, isAdmin: bool, s: NotificationStore.Store, isOpen: bool,
                  nowMillis: int): (v: Option<BellView>)
    ensures v.None? <==> !hasUser || isAdmin
    ensures v.Some? ==> v.value.badge == BadgeText(s.unreadCount)
    ensures v.Some? ==> (v.value.dropdown.Some? <==> isOpen)
    ensures v.Some? && isOpen ==>
              var d := v.value.dropdown.value;
              && (d.markAllButton <==> s.unreadCount > 0)
              && (d.clearAllButton <==> |s.notifications| > 0)
              && (d.seeAllFooter <==> |s.notifications| > RecentLimit)
              && |d.items| == |Recent(s.notifications)| <= RecentLimit
              && forall k :: 0 <= k < |d.items| ==> d.items[k] == RenderItem(s.notifications[k], nowMillis)
  {
    if !hasUser || isAdmin then None
    else
      var window := Recent(s.notifications);
      var items := seq(|window|, k requires 0 <= k < |window| => RenderItem(window[k], nowMillis));
      var dropdown := if isOpen then
                        Some(Dropdown(s.unreadCount > 0, |s.notifications| > 0, items,
                                      ShowSeeAll(s.notifications)))
                      else None;
      Some(BellView(BadgeText(s.unreadCount), dropdown))
  }

  /** After "Clear All" is confirmed the open bell shows an empty dropdown:
      no badge, no header buttons, no items and no footer. */
  lemma RenderAfterClearAll(s: NotificationStore.Store, token: Option<string>,
                            reply: NotificationStore.Reply<()>, nowMillis: int)
    requires Truthy(token) && NotificationStore.Confirmed(reply)
    ensures Render(true, false, NotificationStore.DeleteAllNotifications(s, token, reply), true, nowMillis)
            == Some(BellView(None, Some(Dropdown(false, false, [], false))))
  {
  }

  /** After "Mark all as read" is confirmed the open bell keeps the same
      items but shows no badge, no mark-all button and no per-item
      mark-read button. */
  lemma RenderAfterMarkAll(s: NotificationStore.Store, token: Option<string>,
                           reply: NotificationStore.Reply<()>, nowMillis: int)
    requires Truthy(token) && NotificationStore.Delivered(reply)
    ensures var v := Render(true, false, NotificationStore.MarkAllAsRead(s, token, reply), true, nowMillis);
            var d := v.value.dropdown.value;
            && v.value.badge.None? && !d.markAllButton
            && (d.clearAllButton <==> |s.notifications| > 0)
            && |d.items| == |Recent(s.notifications)|
            && forall k :: 0 <= k < |d.items| ==> d.items[k].id == s.notifications[k].id && !d.items[k].markReadButton
  {
    var r := NotificationStore.MarkAllAsRead(s, token, reply);
    var v := Render(true, false, r, true, nowMillis);
    var d := v.value.dropdown.value;
    forall k | 0 <= k < |d.items|
      ensures d.items[k].id == s.notifications[k].id && !d.items[k].markReadButton
    {
      assert r.notifications[k] == s.notifications[k].(isRead := true);
    }
  }
}
