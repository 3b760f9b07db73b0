/** The User record (src/models/user.js): its normalised and unique fields,
    defaults, the embedded notification list and the operations the
    notification endpoints apply to it, and the `toJSON` rendering. */
module UserModel {
  import opened Json
  import opened Text

  /** An element of the embedded `notifications` array; each carries its own id. */
  datatype Notification = Notification(id: ObjectId, message: string, read: bool, createdAt: int)

  /** A stored user. `profilePicture` is None when it has been set to null. */
  datatype User = User(
    id: ObjectId,
    firebaseUid: string,
    email: string,
    displayName: string,
    isAdmin: bool,
    profilePicture: Option<string>,
    createdAt: int,
    lastLogin: int,
    questionnaires: seq<ObjectId>,
    notifications: seq<Notification>,
    updatedAt: int)

  /** The `lowercase` and `trim` setters of `email`. */
  function NormaliseEmail(s: string): (r: string)
    ensures Trimmed(r) && |r| <= |s|
  {
    Trim(Lower(s))
  }

  /** Lower-casing and trimming commute, so the order in which the two
      setters run makes no difference. */
  lemma LowerTrimCommute(s: string)
    ensures Trim(Lower(s)) == Lower(Trim(s))
  {
    var a, b := TrimCore(s);
    var t := Trim(s);
    LowerConcat(a + t, b);
    LowerConcat(a, t);
    assert AllSpace(Lower(a)) && AllSpace(Lower(b));
    assert Trimmed(Lower(t)) by {
      if t != [] {
        assert Lower(t)[0] == LowerChar(t[0]);
        assert Lower(t)[|t| - 1] == LowerChar(t[|t| - 1]);
      }
    }
    TrimPadded(Lower(a), Lower(t), Lower(b));
  }

  /** A stored email: trimmed, without upper-case letters. */
  predicate IsNormalisedEmail(e: string) {
    Trimmed(e) && forall i :: 0 <= i < |e| ==> !('A' <= e[i] <= 'Z')
  }

  /** What the setters produce is in normal form... */
  lemma NormaliseEmailNormalises(s: string)
    ensures IsNormalisedEmail(NormaliseEmail(s))
  {
    var l := Lower(s);
    var a, b := TrimCore(l);
    var t := Trim(l);
    forall i | 0 <= i < |t|
      ensures !('A' <= t[i] <= 'Z')
    {
      assert t[i] == l[|a| + i];
    }
  }

  /** ...and a string in normal form is left alone by them. */
  lemma NormalisedEmailFixed(e: string)
    requires IsNormalisedEmail(e)
    ensures NormaliseEmail(e) == e
  {
    assert Lower(e) == e;
    TrimmedIsFixed(e);
  }

  lemma NormaliseIdempotent(s: string)
    ensures NormaliseEmail(NormaliseEmail(s)) == NormaliseEmail(s)
  {
    NormaliseEmailNormalises(s);
    NormalisedEmailFixed(NormaliseEmail(s));
  }

  /** Two addresses that differ only in letter case and surrounding white
      space are stored as the same email, so the unique index makes them
      collide. */
  lemma EmailCollision(s: string, t: string, ws1: string, ws2: string)
    requires AllSpace(ws1) && AllSpace(ws2) && Lower(s) == Lower(t)
    ensures NormaliseEmail(ws1 + s + ws2) == NormaliseEmail(t)
  {
    LowerConcat(ws1 + s, ws2);
    LowerConcat(ws1, s);
    assert AllSpace(Lower(ws1)) && AllSpace(Lower(ws2));
    TrimIgnoresPadding(Lower(ws1), Lower(s), Lower(ws2));
  }

  predicate DistinctIds(ns: seq<Notification>) {
    forall i, j :: 0 <= i < j < |ns| ==> ns[i].id != ns[j].id
  }

  /** What the schema's validators and setters guarantee of a stored user. */
  predicate WellFormed(u: User) {
    && u.firebaseUid != ""
    && u.email != "" && IsNormalisedEmail(u.email)
    && u.displayName != "" && Trimmed(u.displayName)
    && DistinctIds(u.notifications)
  }

  /** `new User({ firebaseUid, email, displayName })`: the three strings
      normalised by their setters, every other path at its default, and
      both timestamps `now`. */
  function NewUser(id: ObjectId, uid: string, email: string, displayName: string, now: int): (u: User)
    requires uid != "" && NormaliseEmail(email) != "" && Trim(displayName) != ""
    ensures WellFormed(u)
    ensures u.id == id && u.firebaseUid == uid
    ensures u.email == NormaliseEmail(email) && u.displayName == Trim(displayName)
    ensures !u.isAdmin && u.profilePicture == Some("")
    ensures u.createdAt == now && u.lastLogin == now && u.updatedAt == now
    ensures u.questionnaires == [] && u.notifications == []
  {
    NormaliseEmailNormalises(email);
    User(id, uid, NormaliseEmail(email), Trim(displayName), false, Some(""), now, now, [], [], now)
  }

  /** The same followed by `save()`: it fails validation unless all three
      required strings are present and non-empty after normalisation. */
  function ConstructUser(id: ObjectId, uid: Option<string>, email: Option<string>,
                         displayName: Option<string>, now: int): (r: Parsed<User>)
    ensures r.Valid? <==>
      (&& uid.Some? && uid.value != ""
       && email.Some? && NormaliseEmail(email.value) != ""
       && displayName.Some? && Trim(displayName.value) != "")
    ensures r.Valid? ==> r.value == NewUser(id, uid.value, email.value, displayName.value, now)
  {
    if && uid.Some? && uid.value != ""
       && email.Some? && NormaliseEmail(email.value) != ""
       && displayName.Some? && Trim(displayName.value) != ""
    then Valid(NewUser(id, uid.value, email.value, displayName.value, now))
    else Invalid
  }

  /** A `displayName` written by an update: present, a string, and not blank once trimmed. */
  function ParseDisplayName(v: Option<Value>): (r: Parsed<string>)
    ensures r.Valid? <==> v.Some? && v.value.Str? && Trim(v.value.s) != ""
    ensures r.Valid? ==> r.value == Trim(v.value.s) && Trimmed(r.value) && r.value != ""
  {
    match v
    case Some(Str(s)) => if Trim(s) != "" then Valid(Trim(s)) else Invalid
    case _ => Invalid
  }

  /** A `profilePicture` written by an update: a string, or null. */
  function ParsePicture(v: Value): (r: Parsed<Option<string>>)
    ensures r.Valid? <==> v.Str? || v.Null?
    ensures r.Valid? ==> (r.value.Some? <==> v.Str?) && (v.Str? ==> r.value.value == v.s)
  {
    match v
    case Str(s) => Valid(Some(s))
    case Null => Valid(None)
    case _ => Invalid
  }

  /** A notification pushed by the store: unread, stamped `now`. */
  function NewNotification(id: ObjectId, message: string, now: int): (r: Notification)
    ensures r.id == id && r.message == message
    ensures !r.read && r.createdAt == now
  {
    Notification(id, message, false, now)
  }

  /** The index the positional operator `notifications.$` selects: the first
      element whose id matches. */
  function FirstWithId(ns: seq<Notification>, id: ObjectId): (r: Option<nat>)
    ensures r.Some? ==> r.value < |ns| && ns[r.value].id == id
    ensures r.Some? ==> forall j :: 0 <= j < r.value ==> ns[j].id != id
    ensures r.None? <==> forall j :: 0 <= j < |ns| ==> ns[j].id != id
  {
    if ns == [] then None
    else if ns[0].id == id then Some(0)
    else match FirstWithId(ns[1..], id)
      case None => None
      case Some(k) => Some(k + 1)
  }

  /** Which notification `FirstWithId` selects depends only on the ids. */
  lemma {:induction false} FirstWithIdOfIds(ns: seq<Notification>, ms: seq<Notification>, id: ObjectId)
    requires |ns| == |ms| && forall i :: 0 <= i < |ns| ==> ns[i].id == ms[i].id
    ensures FirstWithId(ns, id) == FirstWithId(ms, id)
  {
    if ns != [] {
      FirstWithIdOfIds(ns[1..], ms[1..], id);
    }
  }

  /** `$set: { 'notifications.$.read': true }`: the first notification with
      the id becomes read; nothing else changes. */
  function MarkRead(ns: seq<Notification>, id: ObjectId): (r: seq<Notification>)
    ensures |r| == |ns|
    ensures forall i :: 0 <= i < |ns| ==>
      && r[i].id == ns[i].id && r[i].message == ns[i].message && r[i].createdAt == ns[i].createdAt
      && (r[i].read <==> ns[i].read || (ns[i].id == id && forall j :: 0 <= j < i ==> ns[j].id != id))
  {
    match FirstWithId(ns, id)
    case None => ns
    case Some(k) => ns[k := ns[k].(read := true)]
  }

  /** Marking the same notification twice leaves the list as marking it once. */
  lemma MarkReadIdempotent(ns: seq<Notification>, id: ObjectId)
    ensures MarkRead(MarkRead(ns, id), id) == MarkRead(ns, id)
  {
    var once := MarkRead(ns, id);
    FirstWithIdOfIds(ns, once, id);
  }

  /** With distinct ids (as in every stored user), exactly the notification
      carrying the id is marked read. */
  lemma MarkReadDistinct(ns: seq<Notification>, id: ObjectId)
    requires DistinctIds(ns)
    ensures forall i :: 0 <= i < |ns| ==> (MarkRead(ns, id)[i].read <==> ns[i].read || ns[i].id == id)
  {
    var r := MarkRead(ns, id);
    forall i | 0 <= i < |ns|
      ensures r[i].read <==> ns[i].read || ns[i].id == id
    {
      if ns[i].id == id {
        assert forall j :: 0 <= j < i ==> ns[j].id != id;
      }
    }
  }

  /** `notifications.filter(n => !n.read).length`. */
  function UnreadCount(ns: seq<Notification>): (r: nat)
    ensures r <= |ns|
    ensures r == 0 <==> forall i :: 0 <= i < |ns| ==> ns[i].read
  {
    if ns == [] then 0
    else (if ns[0].read then 0 else 1) + UnreadCount(ns[1..])
  }

  /** Replacing one notification changes the unread count by the change in that one's flag. */
  lemma {:induction false} UnreadCountUpdate(ns: seq<Notification>, k: nat, n: Notification)
    requires k < |ns|
    ensures UnreadCount(ns[k := n]) + (if ns[k].read then 0 else 1)
         == UnreadCount(ns) + (if n.read then 0 else 1)
  {
    if k > 0 {
      assert ns[k := n][1..] == ns[1..][k - 1 := n];
      UnreadCountUpdate(ns[1..], k - 1, n);
    } else {
      assert ns[k := n][1..] == ns[1..];
    }
  }

  /** Marking an unread notification read lowers the unread count by one;
      marking a read one, or an absent id, leaves it. */
  lemma UnreadAfterMarkRead(ns: seq<Notification>, id: ObjectId)
    ensures UnreadCount(MarkRead(ns, id)) ==
      match FirstWithId(ns, id)
      case None => UnreadCount(ns)
      case Some(k) => if ns[k].read then UnreadCount(ns) else UnreadCount(ns) - 1
  {
    match FirstWithId(ns, id)
    case None =>
    case Some(k) => UnreadCountUpdate(ns, k, ns[k].(read := true));
  }

  /** `$set: { 'notifications.$[].read': true }`: every notification becomes
      read; ids, messages, times and the length are kept. */
  function MarkAllRead(ns: seq<Notification>): (r: seq<Notification>)
    ensures |r| == |ns|
    ensures forall i :: 0 <= i < |ns| ==> r[i] == ns[i].(read := true)
    ensures UnreadCount(r) == 0
  {
    if ns == [] then [] else [ns[0].(read := true)] + MarkAllRead(ns[1..])
  }

  /** `$pull: { notifications: { _id } }`: every notification with the id is
      removed and the rest keep their order. */
  function Without(ns: seq<Notification>, id: ObjectId): (r: seq<Notification>)
    ensures |r| <= |ns|
    ensures forall n :: n in r <==> n in ns && n.id != id
    ensures (forall i :: 0 <= i < |ns| ==> ns[i].id != id) ==> r == ns
  {
    if ns == [] then []
    else
      var rest := Without(ns[1..], id);
      assert forall n :: n in ns <==> n == ns[0] || n in ns[1..];
      if ns[0].id == id then rest
      else
        assert ns == [ns[0]] + ns[1..];
        [ns[0]] + rest
  }

  /** Pulling distributes over concatenation, which is to say it preserves order. */
  lemma {:induction false} WithoutConcat(a: seq<Notification>, b: seq<Notification>, id: ObjectId)
    ensures Without(a + b, id) == Without(a, id) + Without(b, id)
  {
    if a == [] {
      assert a + b == b;
    } else {
      assert (a + b)[1..] == a[1..] + b;
      WithoutConcat(a[1..], b, id);
    }
  }

  /** Pulling leaves the distinct-ids property of a list intact. */
  lemma {:induction false} WithoutDistinct(ns: seq<Notification>, id: ObjectId)
    requires DistinctIds(ns)
    ensures DistinctIds(Without(ns, id))
  {
    if ns != [] {
      WithoutDistinct(ns[1..], id);
      var rest := Without(ns[1..], id);
      if ns[0].id != id {
        assert forall n :: n in rest ==> n in ns[1..];
        assert forall j :: 0 <= j < |rest| ==> rest[j].id != ns[0].id by {
          forall j | 0 <= j < |rest|
            ensures rest[j].id != ns[0].id
          {
            assert rest[j] in ns[1..];
            var m :| 0 <= m < |ns[1..]| && ns[1..][m] == rest[j];
            assert ns[m + 1] == rest[j];
          }
        }
      }
    }
  }

  /** `$pull` on the `questionnaires` reference list: every occurrence of the
      id goes, the rest keep their order. */
  function RemoveId(ids: seq<ObjectId>, id: ObjectId): (r: seq<ObjectId>)
    ensures |r| <= |ids|
    ensures forall x :: x in r <==> x in ids && x != id
  {
    if ids == [] then []
    else
      var rest := RemoveId(ids[1..], id);
      assert forall x :: x in ids <==> x == ids[0] || x in ids[1..];
      if ids[0] == id then rest else [ids[0]] + rest
  }

  lemma {:induction false} RemoveIdConcat(a: seq<ObjectId>, b: seq<ObjectId>, id: ObjectId)
    ensures RemoveId(a + b, id) == RemoveId(a, id) + RemoveId(b, id)
  {
    if a == [] {
      assert a + b == b;
    } else {
      assert (a + b)[1..] == a[1..] + b;
      RemoveIdConcat(a[1..], b, id);
    }
  }

  /** Pulling an id that was just pushed onto a list without it gives the list back. */
  lemma {:induction false} RemoveIdPushed(ids: seq<ObjectId>, id: ObjectId)
    requires id !in ids
    ensures RemoveId(ids + [id], id) == ids
  {
    RemoveIdConcat(ids, [id], id);
    RemoveIdAbsent(ids, id);
  }

  lemma {:induction false} RemoveIdAbsent(ids: seq<ObjectId>, id: ObjectId)
    requires id !in ids
    ensures RemoveId(ids, id) == ids
  {
    if ids != [] {
      RemoveIdAbsent(ids[1..], id);
      assert ids == [ids[0]] + ids[1..];
    }
  }

  function IdArray(ids: seq<ObjectId>): (r: seq<Value>)
    ensures |r| == |ids| && forall i :: 0 <= i < |ids| ==> r[i] == Num(ids[i])
  {
    if ids == [] then [] else [Num(ids[0])] + IdArray(ids[1..])
  }

  function NotificationJson(n: Notification): Value {
    Obj(map["_id" := Num(n.id), "message" := Str(n.message), "read" := Bool(n.read), "createdAt" := Num(n.createdAt)])
  }

  function NotificationArray(ns: seq<Notification>): (r: seq<Value>)
    ensures |r| == |ns| && forall i :: 0 <= i < |ns| ==> r[i] == NotificationJson(ns[i])
  {
    if ns == [] then [] else [NotificationJson(ns[0])] + NotificationArray(ns[1..])
  }

  /** The user's own fields as a JSON object. */
  function Fields(u: User): Body {
    map[
      "_id" := Num(u.id),
      "firebaseUid" := Str(u.firebaseUid),
      "email" := Str(u.email),
      "displayName" := Str(u.displayName),
      "isAdmin" := Bool(u.isAdmin),
      "profilePicture" := (match u.profilePicture case Some(p) => Str(p) case None => Null),
      "createdAt" := Num(u.createdAt),
      "lastLogin" := Num(u.lastLogin),
      "questionnaires" := Arr(IdArray(u.questionnaires)),
      "notifications" := Arr(NotificationArray(u.notifications)),
      "updatedAt" := Num(u.updatedAt)]
  }

  /** `toObject()` of a stored user: its fields plus the version key `__v`. */
  function Document(u: User, version: nat): Body {
    Fields(u)["__v" := Num(version)]
  }

  /** `toJSON`: the object without its `__v` key, every other key kept. */
  function ToJson(doc: Body): (r: Body)
    ensures r.Keys == doc.Keys - {"__v"}
    ensures forall k :: k in r ==> r[k] == doc[k]
  {
    map k | k in doc && k != "__v" :: doc[k]
  }

  lemma ToJsonIdempotent(doc: Body)
    ensures ToJson(ToJson(doc)) == ToJson(doc)
  {
  }

  /** A rendered user shows exactly its own fields, whatever its version. */
  lemma ToJsonDocument(u: User, version: nat)
    ensures ToJson(Document(u, version)) == Fields(u)
  {
    assert "__v" !in Fields(u);
    assert ToJson(Document(u, version)).Keys == Fields(u).Keys;
  }
}
