/** The signed-in user's own endpoints (src/routes/users.js): the
    notification list, marking one or all read, deleting one, the unread
    count, and the last-login stamp. Every handler runs after
    `authenticate`; `caller` is the id of the user it attached. The update
    queries go through the schema's timestamps, so each successful write
    also sets `updatedAt` to `now`. */
module UsersRoutes {
  import opened Json
  import opened UserModel
  import opened Responses
  import Database

  /** The ids of a list, in order. */
  function Ids(ns: seq<Notification>): (r: seq<ObjectId>)
    ensures |r| == |ns| && forall i :: 0 <= i < |ns| ==> r[i] == ns[i].id
  {
    if ns == [] then [] else [ns[0].id] + Ids(ns[1..])
  }

  /** Marking one notification read keeps every id where it was. */
  lemma MarkReadKeepsIds(ns: seq<Notification>, id: ObjectId)
    ensures Ids(MarkRead(ns, id)) == Ids(ns)
  {
  }

  /** Marking every notification read keeps every id where it was. */
  lemma MarkAllReadKeepsIds(ns: seq<Notification>)
    ensures Ids(MarkAllRead(ns)) == Ids(ns)
  {
  }

  /** Two lists with the same ids in the same order agree on the store's
      conditions on notification ids. */
  lemma SameIdsSameValidity(ns: seq<Notification>, ms: seq<Notification>, n: nat)
    requires Ids(ns) == Ids(ms)
    ensures DistinctIds(ns) <==> DistinctIds(ms)
    ensures Database.NotificationIdsBelow(ns, n) <==> Database.NotificationIdsBelow(ms, n)
  {
    assert |ns| == |Ids(ns)| == |Ids(ms)| == |ms|;
    assert forall i :: 0 <= i < |ns| ==> ns[i].id == Ids(ns)[i] == ms[i].id;
  }

  /** Pulling notifications keeps the ids below the generator's counter. */
  lemma WithoutBelow(ns: seq<Notification>, id: ObjectId, n: nat)
    requires Database.NotificationIdsBelow(ns, n)
    ensures Database.NotificationIdsBelow(Without(ns, id), n)
  {
    var r := Without(ns, id);
    forall i | 0 <= i < |r|
      ensures r[i].id < n
    {
      assert r[i] in ns;
    }
  }

  /** A deleted notification can no longer be marked read: its id is gone. */
  lemma DeletedIsNotFound(ns: seq<Notification>, id: ObjectId)
    ensures FirstWithId(Without(ns, id), id).None?
  {
    var r := Without(ns, id);
    forall j | 0 <= j < |r|
      ensures r[j].id != id
    {
      assert r[j] in r;
    }
  }

  /** A user after an update at `now` that leaves `ns` as its notifications. */
  function WithNotifications(u: User, ns: seq<Notification>, now: int): User {
    u.(notifications := ns, updatedAt := now)
  }

  /** GET /notifications: the stored list, in the order it was pushed (the
      query's sort orders users, not the embedded array). */
  function GetNotifications(users: map<ObjectId, User>, caller: ObjectId): (r: Response)
    ensures caller in users <==> r.Ok?
    ensures r.Ok? ==> r.payload == NotificationList(users[caller].notifications)
    ensures !r.Ok? ==> r == Unhandled
  {
    if caller in users then Ok(NotificationList(users[caller].notifications)) else Unhandled
  }

  /** GET /notifications/unread-count. */
  function UnreadCountOf(users: map<ObjectId, User>, caller: ObjectId): (r: Response)
    ensures caller in users <==> r.Ok?
    ensures r.Ok? ==> r.payload.Unread? && r.payload.unreadCount <= |users[caller].notifications|
    ensures r.Ok? ==> (r.payload.unreadCount == 0 <==> forall i :: 0 <= i < |users[caller].notifications| ==> users[caller].notifications[i].read)
    ensures !r.Ok? ==> r == Unhandled
    ensures r.Ok? ==> r.payload.unreadCount == UnreadCount(users[caller].notifications)
  {
    if caller in users then Ok(Unread(UnreadCount(users[caller].notifications))) else Unhandled
  }

  /** After marking everything read, the unread count is zero. */
  lemma MarkAllThenCount(users: map<ObjectId, User>, caller: ObjectId, now: int)
    requires caller in users
    ensures var u := WithNotifications(users[caller], MarkAllRead(users[caller].notifications), now);
      UnreadCountOf(users[caller := u], caller) == Ok(Unread(0))
  {
  }

  /** Marking one notification read lowers the unread count by one exactly
      when that notification was unread. */
  lemma MarkOneThenCount(users: map<ObjectId, User>, caller: ObjectId, id: ObjectId, now: int)
    requires caller in users
    ensures var ns := users[caller].notifications;
      var u := WithNotifications(users[caller], MarkRead(ns, id), now);
      UnreadCountOf(users[caller := u], caller) == Ok(Unread(
        match FirstWithId(ns, id)
        case None => UnreadCount(ns)
        case Some(k) => if ns[k].read then UnreadCount(ns) else UnreadCount(ns) - 1))
  {
    UnreadAfterMarkRead(users[caller].notifications, id);
  }

  /** PATCH /notifications/:notificationId: the caller's first notification
      with that id becomes read; 404 when the caller or the id is missing. */
  method MarkNotificationRead(s: Database.Store, caller: ObjectId, id: ObjectId, now: int) returns (resp: Response)
    requires s.Valid()
    modifies s
    ensures s.Valid()
    ensures s.questionnaires == old(s.questionnaires) && s.nextId == old(s.nextId)
    ensures var users := old(s.users);
      if caller !in users || FirstWithId(users[caller].notifications, id).None? then
        resp == NotFound(NotificationNotFound) && s.users == users
      else
        var u := WithNotifications(users[caller], MarkRead(users[caller].notifications, id), now);
        resp == Ok(NotificationList(u.notifications)) && s.users == users[caller := u]
  {
    if caller !in s.users || FirstWithId(s.users[caller].notifications, id).None? {
      return NotFound(NotificationNotFound);
    }
    var u := s.users[caller];
    var u' := WithNotifications(u, MarkRead(u.notifications, id), now);
    MarkReadKeepsIds(u.notifications, id);
    SameIdsSameValidity(u.notifications, u'.notifications, s.nextId);
    Database.ReplaceUser(s.users, s.questionnaires, s.nextId, caller, u');
    s.users := s.users[caller := u'];
    resp := Ok(NotificationList(u'.notifications));
  }

  /** DELETE /notifications/:notificationId: every notification with that id
      leaves the caller's list; a missing caller makes the handler throw. */
  method DeleteNotification(s: Database.Store, caller: ObjectId, id: ObjectId, now: int) returns (resp: Response)
    requires s.Valid()
    modifies s
    ensures s.Valid()
    ensures s.questionnaires == old(s.questionnaires) && s.nextId == old(s.nextId)
    ensures var users := old(s.users);
      if caller !in users then resp == Unhandled && s.users == users
      else
        var u := WithNotifications(users[caller], Without(users[caller].notifications, id), now);
        resp == Ok(NotificationList(u.notifications)) && s.users == users[caller := u]
  {
    if caller !in s.users {
      return Unhandled;
    }
    var u := s.users[caller];
    var u' := WithNotifications(u, Without(u.notifications, id), now);
    WithoutDistinct(u.notifications, id);
    WithoutBelow(u.notifications, id, s.nextId);
    Database.ReplaceUser(s.users, s.questionnaires, s.nextId, caller, u');
    s.users := s.users[caller := u'];
    resp := Ok(NotificationList(u'.notifications));
  }

  /** POST /notifications/mark-all-read. */
  method MarkAllNotificationsRead(s: Database.Store, caller: ObjectId, now: int) returns (resp: Response)
    requires s.Valid()
    modifies s
    ensures s.Valid()
    ensures s.questionnaires == old(s.questionnaires) && s.nextId == old(s.nextId)
    ensures var users := old(s.users);
      if caller !in users then resp == Unhandled && s.users == users
      else
        var u := WithNotifications(users[caller], MarkAllRead(users[caller].notifications), now);
        resp == Ok(NotificationList(u.notifications)) && s.users == users[caller := u]
  {
    if caller !in s.users {
      return Unhandled;
    }
    var u := s.users[caller];
    var u' := WithNotifications(u, MarkAllRead(u.notifications), now);
    MarkAllReadKeepsIds(u.notifications);
    SameIdsSameValidity(u.notifications, u'.notifications, s.nextId);
    Database.ReplaceUser(s.users, s.questionnaires, s.nextId, caller, u');
    s.users := s.users[caller := u'];
    resp := Ok(NotificationList(u'.notifications));
  }

  /** POST /update-last-login: `lastLogin` becomes `now`; a missing caller
      gets `null`. */
  method UpdateLastLogin(s: Database.Store, caller: ObjectId, now: int) returns (resp: Response)
    requires s.Valid()
    modifies s
    ensures s.Valid()
    ensures s.questionnaires == old(s.questionnaires) && s.nextId == old(s.nextId)
    ensures var users := old(s.users);
      if caller !in users then resp == Ok(NullDoc) && s.users == users
      else
        var u := users[caller].(lastLogin := now, updatedAt := now);
        resp == Ok(UserDoc(u)) && s.users == users[caller := u]
  {
    if caller !in s.users {
      return Ok(NullDoc);
    }
    var u := s.users[caller];
    var u' := u.(lastLogin := now, updatedAt := now);
    Database.ReplaceUser(s.users, s.questionnaires, s.nextId, caller, u');
    s.users := s.users[caller := u'];
    resp := Ok(UserDoc(u'));
  }
}
