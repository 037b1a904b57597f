/** The client-side notification store of the notification provider: the
    cached list and unread count, the push handlers, the REST-confirmed
    mutations and the snapshot fetches, each as one atomic transition. */
module NotificationStore {
  import opened Wrappers
  import opened Strings
  import opened Notifications

  /** The provider's state: the cached list (most recent first), the unread
      count shown by the bell and the loading flag of the list fetch. */
  datatype Store = Store(notifications: seq<Notification>, unreadCount: int, loading: bool)

  /** The state before anything has been fetched. */
  const Initial := Store([], 0, false)

  /** What an awaited `fetch` produced: a rejected promise, or a response with
      its `ok` flag and its JSON body (`None` when the body does not parse or
      lacks the field the handler reads). A missing field is treated like a
      failed parse, so the handler keeps its state; the JavaScript would store
      `undefined` instead, which this model does not represent. */
  datatype Reply<T> = NetworkFailure | Response(ok: bool, json: Option<T>)

  /** The server confirmed the request (`response.ok`). */
  predicate Confirmed<T>(r: Reply<T>) {
    r.Response? && r.ok
  }

  /** The server confirmed the request and its body parsed. */
  predicate Delivered<T>(r: Reply<T>) {
    r.Response? && r.ok && r.json.Some?
  }

  // ---------------------------------------------------------------------
  // List helpers
  // ---------------------------------------------------------------------

  /** Some cached notification carries id `id`. */
  predicate HasId(list: seq<Notification>, id: NotificationId) {
    exists k :: 0 <= k < |list| && list[k].id == id
  }

  /** No two cached notifications share an id. */
  predicate UniqueIds(list: seq<Notification>) {
    forall i, j :: 0 <= i < j < |list| ==> list[i].id != list[j].id
  }

  /** `list.find(n => n.id === id)`: the first notification with that id. */
  function FindById(list: seq<Notification>, id: NotificationId): (r: Option<Notification>)
    ensures r.None? <==> !HasId(list, id)
    ensures r.Some? ==> r.value in list && r.value.id == id
    ensures r.Some? ==> exists k :: 0 <= k < |list| && list[k] == r.value
                                    && forall j :: 0 <= j < k ==> list[j].id != id
  {
    if |list| == 0 then None
    else if list[0].id == id then Some(list[0])
    else
      var r := FindById(list[1..], id);
      assert forall k :: 0 <= k < |list| - 1 ==> list[1..][k] == list[k + 1];
      r
  }

  /** `list.filter(n => n.id !== id)`. */
  function RemoveById(list: seq<Notification>, id: NotificationId): (r: seq<Notification>)
    ensures |r| <= |list|
    ensures forall k :: 0 <= k < |r| ==> r[k].id != id && r[k] in list
    ensures forall k :: 0 <= k < |list| && list[k].id != id ==> list[k] in r
    ensures !HasId(list, id) ==> r == list
    ensures |list| == 1 ==> r == (if list[0].id == id then [] else list)
  {
    if |list| == 0 then []
    else
      var rest := RemoveById(list[1..], id);
      assert forall k :: 1 <= k < |list| ==> list[k] == list[1..][k - 1];
      assert |list| == 1 ==> [list[0]] + list[1..] == list && list[1..] == [];
      if list[0].id == id then rest else [list[0]] + rest
  }

  /** `list.map(n => n.id === id ? {...n, is_read: true} : n)`. */
  function MarkRead(list: seq<Notification>, id: NotificationId): (r: seq<Notification>)
    ensures |r| == |list|
    ensures forall k :: 0 <= k < |list| && list[k].id == id ==> r[k] == list[k].(isRead := true)
    ensures forall k :: 0 <= k < |list| && list[k].id != id ==> r[k] == list[k]
  {
    if |list| == 0 then []
    else
      var head := if list[0].id == id then list[0].(isRead := true) else list[0];
      [head] + MarkRead(list[1..], id)
  }

  /** `list.map(n => ({...n, is_read: true}))`. */
  function MarkAllRead(list: seq<Notification>): (r: seq<Notification>)
    ensures |r| == |list|
    ensures forall k :: 0 <= k < |list| ==> r[k] == list[k].(isRead := true)
  {
    if |list| == 0 then [] else [list[0].(isRead := true)] + MarkAllRead(list[1..])
  }

  /** The number of unread notifications in a list. */
  function CountUnread(list: seq<Notification>): nat {
    if |list| == 0 then 0 else (if list[0].isRead then 0 else 1) + CountUnread(list[1..])
  }

  /** The number of unread notifications in a list that carry id `id`. */
  function CountUnreadWithId(list: seq<Notification>, id: NotificationId): nat {
    if |list| == 0 then 0
    else (if list[0].id == id && !list[0].isRead then 1 else 0) + CountUnreadWithId(list[1..], id)
  }

  /** `Math.max(0, count - 1)`. */
  function DecrementFloored(count: int): (r: int)
    ensures r >= 0
    ensures count >= 1 ==> r == count - 1
    ensures count <= 1 ==> r == 0
  {
    if count - 1 > 0 then count - 1 else 0
  }

  // ---------------------------------------------------------------------
  // Push handlers
  // ---------------------------------------------------------------------

  /** `newNotification`: prepend, and leave the count to the separate count push. */
  function PushNew(s: Store, n: Notification): (r: Store)
    ensures |r.notifications| == |s.notifications| + 1
    ensures r.notifications[0] == n && r.notifications[1..] == s.notifications
    ensures r.unreadCount == s.unreadCount && r.loading == s.loading
  {
    s.(notifications := [n] + s.notifications)
  }

  /** `unreadCountUpdate`: the server's count replaces the local one. */
  function PushUnreadCount(s: Store, count: int): (r: Store)
    ensures r.unreadCount == count
    ensures r.notifications == s.notifications && r.loading == s.loading
  {
    s.(unreadCount := count)
  }

  /** `notificationDeleted`: drop every cached copy of the id; the count is untouched. */
  function PushDeletion(s: Store, id: NotificationId): (r: Store)
    ensures r.notifications == RemoveById(s.notifications, id)
    ensures !HasId(r.notifications, id)
    ensures !HasId(s.notifications, id) ==> r == s
    ensures r.unreadCount == s.unreadCount && r.loading == s.loading
  {
    s.(notifications := RemoveById(s.notifications, id))
  }

  /** Dispatch of one received push event to its handler. */
  function ApplyPush(s: Store, e: PushEvent): (r: Store)
    ensures e.NewNotification? ==> r == PushNew(s, e.notification)
    ensures e.UnreadCountUpdate? ==> r == PushUnreadCount(s, e.count)
    ensures e.NotificationDeleted? ==> r == PushDeletion(s, e.notificationId)
  {
    match e
    case NewNotification(n) => PushNew(s, n)
    case UnreadCountUpdate(c) => PushUnreadCount(s, c)
    case NotificationDeleted(id) => PushDeletion(s, id)
  }

  // ---------------------------------------------------------------------
  // Client socket events
  // ---------------------------------------------------------------------

  /** What the client socket reports: lifecycle events, or a push. */
  datatype SocketEvent =
    | Connected
    | Disconnected(reason: string)
    | ConnectError(message: string)
    | Pushed(event: PushEvent)

  /** The listeners registered on the client socket. Only pushes touch the
      store: `connect`, `disconnect` and `connect_error` only log, so a
      reconnect does not re-fetch anything. */
  function HandleSocketEvent(s: Store, e: SocketEvent): (r: Store)
    ensures !e.Pushed? ==> r == s
    ensures e.Pushed? ==> r == ApplyPush(s, e.event)
  {
    if e.Pushed? then ApplyPush(s, e.event) else s
  }

  /** Who is signed in, as the auth context reports it. */
  datatype Session = Session(user: Option<UserId>, token: Option<string>, isAdmin: bool)

  /** The provider opens a socket (and fetches) only for a signed-in,
      non-admin user with a token. */
  predicate SocketEnabled(session: Session) {
    session.user.Some? && Truthy(session.token) && !session.isAdmin
  }

  /** The initial-fetch effect runs on mount and whenever one of its keys
      (user id, token, admin flag) changes, and fetches only when enabled. */
  predicate InitialFetchRuns(previous: Option<Session>, current: Session) {
    (previous.None? || previous.value != current) && SocketEnabled(current)
  }

  // ---------------------------------------------------------------------
  // REST snapshots
  // ---------------------------------------------------------------------

  /** `fetchNotifications(page)`: page 1 replaces the list, any other page
      appends; a failed fetch keeps the list; without a token nothing happens. */
  function FetchNotifications(s: Store, token: Option<string>, page: int,
                              reply: Reply<seq<Notification>>): (r: Store)
    ensures !Truthy(token) ==> r == s
    ensures Truthy(token) ==> !r.loading && r.unreadCount == s.unreadCount
    ensures Truthy(token) && Delivered(reply) && page == 1 ==> r.notifications == reply.json.value
    ensures Truthy(token) && Delivered(reply) && page != 1 ==>
              r.notifications == s.notifications + reply.json.value
    ensures !Delivered(reply) ==> r.notifications == s.notifications
  {
    if !Truthy(token) then s
    else if Delivered(reply) then
      var fetched := reply.json.value;
      Store(if page == 1 then fetched else s.notifications + fetched, s.unreadCount, false)
    else s.(loading := false)
  }

  /** `fetchUnreadCount()`: the server's count replaces the local one. */
  function FetchUnreadCount(s: Store, token: Option<string>, reply: Reply<int>): (r: Store)
    ensures !Truthy(token) ==> r == s
    ensures Truthy(token) && Delivered(reply) ==> r.unreadCount == reply.json.value
    ensures !Delivered(reply) ==> r.unreadCount == s.unreadCount
    ensures r.notifications == s.notifications && r.loading == s.loading
  {
    if Truthy(token) && Delivered(reply) then s.(unreadCount := reply.json.value) else s
  }

  /** The initial-fetch effect: page 1 (of 50) and the unread count. The
      delivered page and count become the snapshot; whatever failed is kept. */
  function InitialLoad(s: Store, token: Option<string>, pageReply: Reply<seq<Notification>>,
                       countReply: Reply<int>): (r: Store)
    ensures !Truthy(token) ==> r == s
    ensures Truthy(token) ==> !r.loading
    ensures Truthy(token) && Delivered(pageReply) ==> r.notifications == pageReply.json.value
    ensures !Delivered(pageReply) ==> r.notifications == s.notifications
    ensures Truthy(token) && Delivered(countReply) ==> r.unreadCount == countReply.json.value
    ensures !Delivered(countReply) ==> r.unreadCount == s.unreadCount
  {
    FetchUnreadCount(FetchNotifications(s, token, 1, pageReply), token, countReply)
  }

  /** The initial-fetch effect on a render of the provider: the load runs
      when the session is new or changed and enabled. Signing out or turning
      admin clears nothing, so the old list and count stay cached. */
  function OnSessionChange(previous: Option<Session>, current: Session, s: Store,
                           pageReply: Reply<seq<Notification>>, countReply: Reply<int>): (r: Store)
    ensures !SocketEnabled(current) ==> r == s
    ensures previous == Some(current) ==> r == s
    ensures InitialFetchRuns(previous, current) ==> !r.loading
    ensures InitialFetchRuns(previous, current) && Delivered(pageReply) ==>
              r.notifications == pageReply.json.value
    ensures InitialFetchRuns(previous, current) && Delivered(countReply) ==>
              r.unreadCount == countReply.json.value
  {
    if InitialFetchRuns(previous, current) then InitialLoad(s, current.token, pageReply, countReply)
    else s
  }

  /** When the effect fetches, it is the action sequence "fetch page 1,
      then fetch the count" run with the session's token. */
  lemma SessionFetchIsRun(previous: Option<Session>, current: Session, s: Store,
                          pageReply: Reply<seq<Notification>>, countReply: Reply<int>)
    requires InitialFetchRuns(previous, current)
    ensures OnSessionChange(previous, current, s, pageReply, countReply)
            == Run(s, current.token, [FetchPage(1, pageReply), FetchCount(countReply)])
  {
    var actions := [FetchPage(1, pageReply), FetchCount(countReply)];
    var afterPage := Step(s, current.token, actions[0]);
    assert actions[1..] == [FetchCount(countReply)] && actions[1..][1..] == [];
    assert Run(afterPage, current.token, actions[1..]) == Step(afterPage, current.token, FetchCount(countReply));
  }

  // ---------------------------------------------------------------------
  // REST-confirmed mutations
  // ---------------------------------------------------------------------

  /** `markAsRead(id)`: on confirmation every copy of the id is marked read
      and the count drops by one, floored at zero, whether or not the item
      was unread or even cached. */
  function MarkAsRead(s: Store, token: Option<string>, id: NotificationId, reply: Reply<()>): (r: Store)
    ensures !(Truthy(token) && Confirmed(reply)) ==> r == s
    ensures Truthy(token) && Confirmed(reply) ==>
              r.notifications == MarkRead(s.notifications, id)
              && r.unreadCount == DecrementFloored(s.unreadCount)
    ensures r.loading == s.loading
  {
    if Truthy(token) && Confirmed(reply) then
      s.(notifications := MarkRead(s.notifications, id), unreadCount := DecrementFloored(s.unreadCount))
    else s
  }

  /** `markAllAsRead()`: on confirmation (with a parseable body) everything is
      read and the count is zero. */
  function MarkAllAsRead(s: Store, token: Option<string>, reply: Reply<()>): (r: Store)
    ensures !(Truthy(token) && Delivered(reply)) ==> r == s
    ensures Truthy(token) && Delivered(reply) ==>
              r.notifications == MarkAllRead(s.notifications)
              && r.unreadCount == 0 && CountUnread(r.notifications) == 0
    ensures r.loading == s.loading
  {
    if Truthy(token) && Delivered(reply) then
      var marked := MarkAllRead(s.notifications);
      MarkAllReadLeavesNoUnread(s.notifications);
      s.(notifications := marked, unreadCount := 0)
    else s
  }

  /** The item `deleteNotification` inspects: the first cached copy is unread. */
  predicate FirstCopyUnread(list: seq<Notification>, id: NotificationId) {
    var found := FindById(list, id);
    found.Some? && !found.value.isRead
  }

  /** `deleteNotification(id)`: on confirmation the id leaves the list, and
      the count drops (floored at zero) only when the item was cached and unread. */
  function DeleteNotification(s: Store, token: Option<string>, id: NotificationId, reply: Reply<()>): (r: Store)
    ensures !(Truthy(token) && Confirmed(reply)) ==> r == s
    ensures Truthy(token) && Confirmed(reply) ==>
              r.notifications == RemoveById(s.notifications, id)
              && !HasId(r.notifications, id)
    ensures Truthy(token) && Confirmed(reply) && FirstCopyUnread(s.notifications, id) ==>
              r.unreadCount == DecrementFloored(s.unreadCount)
    ensures !FirstCopyUnread(s.notifications, id) ==> r.unreadCount == s.unreadCount
    ensures r.loading == s.loading
  {
    if Truthy(token) && Confirmed(reply) then
      var count := if FirstCopyUnread(s.notifications, id) then DecrementFloored(s.unreadCount)
                   else s.unreadCount;
      s.(notifications := RemoveById(s.notifications, id), unreadCount := count)
    else s
  }

  /** `deleteAllNotifications()`: on confirmation the list is empty and the count zero. */
  function DeleteAllNotifications(s: Store, token: Option<string>, reply: Reply<()>): (r: Store)
    ensures !(Truthy(token) && Confirmed(reply)) ==> r == s
    ensures Truthy(token) && Confirmed(reply) ==> r.notifications == [] && r.unreadCount == 0
    ensures r.loading == s.loading
  {
    if Truthy(token) && Confirmed(reply) then s.(notifications := [], unreadCount := 0) else s
  }

  // ---------------------------------------------------------------------
  // Sequences of transitions
  // ---------------------------------------------------------------------

  /** Everything that can happen to the store. */
  datatype Action =
    | Socket(event: SocketEvent)
    | FetchPage(page: int, pageReply: Reply<seq<Notification>>)
    | FetchCount(countReply: Reply<int>)
    | MarkOne(id: NotificationId, reply: Reply<()>)
    | MarkAll(reply: Reply<()>)
    | DeleteOne(id: NotificationId, reply: Reply<()>)
    | DeleteAll(reply: Reply<()>)

  function Step(s: Store, token: Option<string>, a: Action): Store {
    match a
    case Socket(e) => HandleSocketEvent(s, e)
    case FetchPage(page, reply) => FetchNotifications(s, token, page, reply)
    case FetchCount(reply) => FetchUnreadCount(s, token, reply)
    case MarkOne(id, reply) => MarkAsRead(s, token, id, reply)
    case MarkAll(reply) => MarkAllAsRead(s, token, reply)
    case DeleteOne(id, reply) => DeleteNotification(s, token, id, reply)
    case DeleteAll(reply) => DeleteAllNotifications(s, token, reply)
  }

  function Run(s: Store, token: Option<string>, actions: seq<Action>): Store
    decreases |actions|
  {
    if |actions| == 0 then s else Run(Step(s, token, actions[0]), token, actions[1..])
  }

  /** Every count the server sends (pushed or fetched) is non-negative. */
  predicate ServerCountNonNegative(a: Action) {
    && (a.Socket? && a.event.Pushed? && a.event.event.UnreadCountUpdate? ==> a.event.event.count >= 0)
    && (a.FetchCount? && Delivered(a.countReply) ==> a.countReply.json.value >= 0)
  }

  // ---------------------------------------------------------------------
  // Properties
  // ---------------------------------------------------------------------

  lemma {:induction false} MarkAllReadLeavesNoUnread(list: seq<Notification>)
    ensures CountUnread(MarkAllRead(list)) == 0
  {
    if |list| > 0 {
      MarkAllReadLeavesNoUnread(list[1..]);
    }
  }

  /** A pushed notification whose id was not cached is undone by a pushed
      deletion of that id. */
  lemma PushNewThenDeletionRestores(s: Store, n: Notification)
    requires !HasId(s.notifications, n.id)
    ensures PushDeletion(PushNew(s, n), n.id) == s
  {
    var list := [n] + s.notifications;
    assert list[1..] == s.notifications;
  }

  /** Pushed count updates are last-write-wins, so replaying one is harmless. */
  lemma PushUnreadCountIdempotent(s: Store, count: int)
    ensures PushUnreadCount(PushUnreadCount(s, count), count) == PushUnreadCount(s, count)
  {
  }

  /** Pushed deletions are idempotent. */
  lemma PushDeletionIdempotent(s: Store, id: NotificationId)
    ensures PushDeletion(PushDeletion(s, id), id) == PushDeletion(s, id)
  {
  }

  /** Filtering distributes over concatenation: the surviving items keep their order. */
  lemma {:induction false} RemoveByIdAppend(a: seq<Notification>, b: seq<Notification>, id: NotificationId)
    ensures RemoveById(a + b, id) == RemoveById(a, id) + RemoveById(b, id)
  {
    if |a| > 0 {
      assert (a + b)[1..] == a[1..] + b;
      RemoveByIdAppend(a[1..], b, id);
    } else {
      assert a + b == b;
    }
  }

  /** The two halves of the initial-fetch effect can land in either order. */
  lemma InitialFetchesCommute(s: Store, token: Option<string>, pageReply: Reply<seq<Notification>>,
                              countReply: Reply<int>)
    ensures FetchNotifications(FetchUnreadCount(s, token, countReply), token, 1, pageReply)
            == InitialLoad(s, token, pageReply, countReply)
  {
  }

  /** A reconnect leaves the store as it was: nothing is re-fetched, so
      whatever was missed while disconnected stays missing. */
  lemma ReconnectDoesNotResync(s: Store, token: Option<string>, history: seq<Action>)
    ensures Run(s, token, history + [Socket(Connected)]) == Run(s, token, history)
  {
    RunAppend(s, token, history, [Socket(Connected)]);
  }

  /** A page-1 snapshot overrides whatever the history of deltas left behind. */
  lemma {:induction false} SnapshotOverridesHistory(s: Store, token: Option<string>, history: seq<Action>,
                                                   pageReply: Reply<seq<Notification>>)
    requires Truthy(token) && Delivered(pageReply)
    ensures Run(s, token, history + [FetchPage(1, pageReply)]).notifications == pageReply.json.value
  {
    RunAppend(s, token, history, [FetchPage(1, pageReply)]);
  }

  lemma {:induction false} RunAppend(s: Store, token: Option<string>, a: seq<Action>, b: seq<Action>)
    ensures Run(s, token, a + b) == Run(Run(s, token, a), token, b)
    decreases |a|
  {
    if |a| > 0 {
      assert (a + b)[1..] == a[1..] + b;
      RunAppend(Step(s, token, a[0]), token, a[1..], b);
    } else {
      assert a + b == b;
    }
  }

  /** The displayed count never goes negative, whatever the history, as
      long as the server never sends a negative count. */
  lemma {:induction false} CountStaysNonNegative(s: Store, token: Option<string>, actions: seq<Action>)
    requires s.unreadCount >= 0
    requires forall k :: 0 <= k < |actions| ==> ServerCountNonNegative(actions[k])
    ensures Run(s, token, actions).unreadCount >= 0
    decreases |actions|
  {
    if |actions| > 0 {
      var a := actions[0];
      assert ServerCountNonNegative(a);
      var next := Step(s, token, a);
      assert next.unreadCount >= 0;
      assert forall k :: 0 <= k < |actions| - 1 ==> actions[1..][k] == actions[k + 1];
      CountStaysNonNegative(next, token, actions[1..]);
    }
  }

  // ---------------------------------------------------------------------
  // The count against the cached list
  // ---------------------------------------------------------------------

  /** The count equals the number of unread cached items (as it does when the
      cache holds every notification of the user). */
  predicate CountMatchesCache(s: Store) {
    s.unreadCount == CountUnread(s.notifications)
  }

  lemma {:induction false} CountUnreadAfterMarkRead(list: seq<Notification>, id: NotificationId)
    ensures CountUnread(MarkRead(list, id)) == CountUnread(list) - CountUnreadWithId(list, id)
  {
    if |list| > 0 {
      CountUnreadAfterMarkRead(list[1..], id);
    }
  }

  lemma {:induction false} CountUnreadAfterRemove(list: seq<Notification>, id: NotificationId)
    ensures CountUnread(RemoveById(list, id)) == CountUnread(list) - CountUnreadWithId(list, id)
  {
    if |list| > 0 {
      CountUnreadAfterRemove(list[1..], id);
    }
  }

  /** With unique ids, at most one unread item carries a given id: the first copy. */
  lemma {:induction false} CountUnreadWithUniqueId(list: seq<Notification>, id: NotificationId)
    requires UniqueIds(list)
    ensures CountUnreadWithId(list, id) == if FirstCopyUnread(list, id) then 1 else 0
  {
    if |list| > 0 {
      assert UniqueIds(list[1..]) by {
        forall i, j | 0 <= i < j < |list| - 1 ensures list[1..][i].id != list[1..][j].id {
          assert list[1..][i] == list[i + 1] && list[1..][j] == list[j + 1];
        }
      }
      CountUnreadWithUniqueId(list[1..], id);
      if list[0].id == id {
        assert !HasId(list[1..], id) by {
          forall k | 0 <= k < |list| - 1 ensures list[1..][k].id != id {
            assert list[1..][k] == list[k + 1];
          }
        }
      }
    }
  }

  lemma {:induction false} CountUnreadBoundsWithId(list: seq<Notification>, id: NotificationId)
    ensures CountUnreadWithId(list, id) <= CountUnread(list)
  {
    if |list| > 0 {
      CountUnreadBoundsWithId(list[1..], id);
    }
  }

  /** Marking an unread, uniquely cached item keeps the count in step with the cache. */
  lemma MarkAsReadOfUnreadKeepsCount(s: Store, token: Option<string>, id: NotificationId, reply: Reply<()>)
    requires CountMatchesCache(s) && UniqueIds(s.notifications)
    requires FirstCopyUnread(s.notifications, id)
    ensures CountMatchesCache(MarkAsRead(s, token, id, reply))
  {
    CountUnreadAfterMarkRead(s.notifications, id);
    CountUnreadWithUniqueId(s.notifications, id);
    CountUnreadBoundsWithId(s.notifications, id);
  }

  /** The source's decrement on an item that is already read (or not cached)
      makes the count drift below the cache whenever something is unread. */
  lemma MarkAsReadOfReadItemDrifts(s: Store, token: Option<string>, id: NotificationId, reply: Reply<()>)
    requires CountMatchesCache(s) && UniqueIds(s.notifications)
    requires !FirstCopyUnread(s.notifications, id) && CountUnread(s.notifications) > 0
    requires Truthy(token) && Confirmed(reply)
    ensures !CountMatchesCache(MarkAsRead(s, token, id, reply))
    ensures MarkAsRead(s, token, id, reply).unreadCount == s.unreadCount - 1
  {
    CountUnreadAfterMarkRead(s.notifications, id);
    CountUnreadWithUniqueId(s.notifications, id);
  }

  /** Deleting any id keeps the count in step with a uniquely keyed cache. */
  lemma DeleteNotificationKeepsCount(s: Store, token: Option<string>, id: NotificationId, reply: Reply<()>)
    requires CountMatchesCache(s) && UniqueIds(s.notifications)
    ensures CountMatchesCache(DeleteNotification(s, token, id, reply))
  {
    CountUnreadAfterRemove(s.notifications, id);
    CountUnreadWithUniqueId(s.notifications, id);
    CountUnreadBoundsWithId(s.notifications, id);
  }

  /** Mark-all and delete-all bring the count in step with the cache. */
  lemma BulkMutationsAlignCount(s: Store, token: Option<string>, reply: Reply<()>)
    requires Truthy(token) && Delivered(reply)
    ensures CountMatchesCache(MarkAllAsRead(s, token, reply))
    ensures CountMatchesCache(DeleteAllNotifications(s, token, reply))
  {
  }
}
