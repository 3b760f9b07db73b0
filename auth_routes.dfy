/** The account endpoints (src/routes/auth.js): registration, and the
    signed-in user's profile read, partial update and deletion. The identity
    provider's answers are parameters: the record `createUser` returns (None
    when it throws) and whether `deleteUser` succeeded. */
module AuthRoutes {
  import opened Json
  import opened Text
  import QuestionnaireModel
  import opened UserModel
  import opened Responses
  import Database

  type Questionnaire = QuestionnaireModel.Questionnaire

  /** What the identity provider's `createUser` returns. */
  datatype IdentityRecord = IdentityRecord(uid: string, email: Option<string>, displayName: Option<string>)

  /** The unique indexes reject a user whose uid or email is already stored. */
  predicate Collides(users: map<ObjectId, User>, u: User) {
    exists k :: k in users && (users[k].firebaseUid == u.firebaseUid || users[k].email == u.email)
  }

  /** POST /register: the local user is built from the provider's record,
      with every other field at its default (so never an admin). */
  method Register(s: Database.Store, identity: Option<IdentityRecord>, now: int) returns (resp: Response)
    requires s.Valid()
    modifies s
    ensures s.Valid()
    ensures s.questionnaires == old(s.questionnaires)
    ensures identity.None? ==> resp == Unhandled && s.users == old(s.users) && s.nextId == old(s.nextId)
    ensures identity.Some? ==> s.nextId == old(s.nextId) + 1
    ensures identity.Some? ==>
      var built := ConstructUser(old(s.nextId), Some(identity.value.uid), identity.value.email,
                                 identity.value.displayName, now);
      && (built.Invalid? ==> resp == Unhandled && s.users == old(s.users))
      && (built.Valid? && Collides(old(s.users), built.value) ==> resp == Unhandled && s.users == old(s.users))
      && (built.Valid? && !Collides(old(s.users), built.value) ==>
            resp == Created(Registered(UserCreated, built.value)) && s.users == old(s.users)[built.value.id := built.value])
  {
    if identity.None? {
      return Unhandled;
    }
    var record := identity.value;
    var id := s.NewId();
    var built := ConstructUser(id, Some(record.uid), record.email, record.displayName, now);
    if built.Invalid? {
      return Unhandled;
    }
    resp := Enrol(s, built.value);
  }

  /** The save of a newly built user: the unique indexes reject it when its
      uid or email is taken; otherwise it is stored under its own id. */
  method Enrol(s: Database.Store, u: User) returns (resp: Response)
    requires s.Valid() && u.id < s.nextId && u.id !in s.users
    requires WellFormed(u) && u.notifications == []
    modifies s
    ensures s.Valid()
    ensures s.questionnaires == old(s.questionnaires) && s.nextId == old(s.nextId)
    ensures Collides(old(s.users), u) ==> resp == Unhandled && s.users == old(s.users)
    ensures !Collides(old(s.users), u) ==>
      resp == Created(Registered(UserCreated, u)) && s.users == old(s.users)[u.id := u]
  {
    if Collides(s.users, u) {
      return Unhandled;
    }
    Database.InsertUser(s.users, s.questionnaires, s.nextId, u);
    s.users := s.users[u.id := u];
    resp := Created(Registered(UserCreated, u));
  }

  /** A registered user is exactly the provider's record, normalised, and
      holds no privileges, references or notifications. */
  lemma RegisteredUser(id: ObjectId, record: IdentityRecord, now: int)
    requires ConstructUser(id, Some(record.uid), record.email, record.displayName, now).Valid?
    ensures var u := ConstructUser(id, Some(record.uid), record.email, record.displayName, now).value;
      && u.firebaseUid == record.uid
      && u.email == NormaliseEmail(record.email.value)
      && u.displayName == Trim(record.displayName.value)
      && !u.isAdmin && u.questionnaires == [] && u.notifications == []
  {
  }

  /** `populate('questionnaires')`: each reference replaced by its record,
      in order; references to records that are gone are dropped. */
  function Expand(ids: seq<ObjectId>, qs: map<ObjectId, Questionnaire>): (r: seq<Questionnaire>)
    ensures |r| <= |ids|
    ensures forall i :: 0 <= i < |ids| && ids[i] in qs ==> qs[ids[i]] in r
    ensures forall q :: q in r ==> exists i :: 0 <= i < |ids| && ids[i] in qs && qs[ids[i]] == q
  {
    if ids == [] then []
    else
      var rest := Expand(ids[1..], qs);
      assert forall i :: 1 <= i < |ids| ==> ids[i] == ids[1..][i - 1];
      if ids[0] in qs then [qs[ids[0]]] + rest else rest
  }

  /** Expansion works reference by reference: the expansion of two lists
      one after the other is the two expansions one after the other. */
  lemma {:induction false} ExpandAppend(a: seq<ObjectId>, b: seq<ObjectId>, qs: map<ObjectId, Questionnaire>)
    ensures Expand(a + b, qs) == Expand(a, qs) + Expand(b, qs)
    decreases |a|
  {
    if a == [] {
      assert a + b == b;
    } else {
      assert (a + b)[1..] == a[1..] + b;
      ExpandAppend(a[1..], b, qs);
    }
  }

  /** A single reference expands to its record, or to nothing once the record is gone. */
  lemma ExpandOne(id: ObjectId, qs: map<ObjectId, Questionnaire>)
    ensures Expand([id], qs) == if id in qs then [qs[id]] else []
  {
    assert [id][1..] == [];
  }

  /** With every reference intact, the expansion is the records in reference order. */
  lemma {:induction false} ExpandIntact(ids: seq<ObjectId>, qs: map<ObjectId, Questionnaire>)
    requires forall i :: 0 <= i < |ids| ==> ids[i] in qs
    ensures |Expand(ids, qs)| == |ids|
    ensures forall i :: 0 <= i < |ids| ==> Expand(ids, qs)[i] == qs[ids[i]]
  {
    if ids != [] {
      ExpandIntact(ids[1..], qs);
    }
  }

  /** GET /profile: the caller's record with its references expanded, or
      `null` when the caller is gone. */
  function ProfileGet(users: map<ObjectId, User>, qs: map<ObjectId, Questionnaire>, caller: ObjectId): (r: Response)
    ensures caller !in users <==> r == Ok(NullDoc)
    ensures caller in users ==>
      r == Ok(Profile(users[caller], Expand(users[caller].questionnaires, qs)))
  {
    if caller in users then Ok(Profile(users[caller], Expand(users[caller].questionnaires, qs)))
    else Ok(NullDoc)
  }

  const ProfileFields: set<string> := {"displayName", "profilePicture"}

  /** The casts and validators an update query with `runValidators` applies
      before it looks for the document. */
  predicate ValidProfileUpdates(updates: Body) {
    && ("displayName" in updates ==> updates["displayName"].Str? && Trim(updates["displayName"].s) != "")
    && ("profilePicture" in updates ==> updates["profilePicture"].Str? || updates["profilePicture"].Null?)
  }

  /** The update query with `runValidators`: each allowed key is cast and
      validated, then written, and `updatedAt` moves to `now`. */
  function ProfileUpdate(u: User, updates: Body, now: int): (r: Parsed<User>)
    ensures r.Valid? <==> ValidProfileUpdates(updates)
    ensures r.Valid? ==>
      r.value.(displayName := u.displayName, profilePicture := u.profilePicture, updatedAt := u.updatedAt) == u
    ensures r.Valid? ==> r.value.updatedAt == now
    ensures r.Valid? && "displayName" !in updates ==> r.value.displayName == u.displayName
    ensures r.Valid? && "displayName" in updates ==> r.value.displayName == Trim(updates["displayName"].s)
    ensures r.Valid? && "profilePicture" !in updates ==> r.value.profilePicture == u.profilePicture
    ensures r.Valid? && "profilePicture" in updates ==>
      r.value.profilePicture == ParsePicture(updates["profilePicture"]).value
    ensures r.Valid? && WellFormed(u) ==> WellFormed(r.value)
  {
    var name := if "displayName" in updates then ParseDisplayName(Get(updates, "displayName")) else Valid(u.displayName);
    var picture := if "profilePicture" in updates then ParsePicture(updates["profilePicture"]) else Valid(u.profilePicture);
    if name.Invalid? || picture.Invalid? then Invalid
    else Valid(u.(displayName := name.value, profilePicture := picture.value, updatedAt := now))
  }

  /** PATCH /profile: only `displayName` and `profilePicture` are taken from
      the body; with neither present it answers 400 and changes nothing. */
  method ProfilePatch(s: Database.Store, caller: ObjectId, body: Body, now: int) returns (resp: Response)
    requires s.Valid()
    modifies s
    ensures s.Valid()
    ensures s.questionnaires == old(s.questionnaires) && s.nextId == old(s.nextId)
    ensures var users := old(s.users);
      var updates := Pick(body, ProfileFields);
      if updates == map[] then resp == BadRequest(NoValidUpdates) && s.users == users
      else if !ValidProfileUpdates(updates) then resp == Unhandled && s.users == users
      else if caller !in users then resp == Ok(NullDoc) && s.users == users
      else
        var u := ProfileUpdate(users[caller], updates, now).value;
        resp == Ok(UserDoc(u)) && s.users == users[caller := u]
  {
    var updates := Pick(body, ProfileFields);
    if updates == map[] {
      return BadRequest(NoValidUpdates);
    }
    if !ValidProfileUpdates(updates) {
      return Unhandled;
    }
    if caller !in s.users {
      return Ok(NullDoc);
    }
    var u := ProfileUpdate(s.users[caller], updates, now).value;
    Database.ReplaceUser(s.users, s.questionnaires, s.nextId, caller, u);
    s.users := s.users[caller := u];
    resp := Ok(UserDoc(u));
  }

  /** Whatever the body holds, a profile update leaves the privilege flag,
      the identity, the email and every list alone. */
  lemma ProfilePatchKeepsPrivileges(u: User, body: Body, now: int)
    ensures var r := ProfileUpdate(u, Pick(body, ProfileFields), now);
      r.Valid? ==>
        && r.value.isAdmin == u.isAdmin && r.value.firebaseUid == u.firebaseUid && r.value.email == u.email
        && r.value.questionnaires == u.questionnaires && r.value.notifications == u.notifications
  {
  }

  /** DELETE /profile: the provider's identity goes first; once it is gone
      the local user is removed, but not the user's questionnaires. */
  method ProfileDelete(s: Database.Store, caller: ObjectId, identityDeleted: bool) returns (resp: Response)
    requires s.Valid()
    modifies s
    ensures s.Valid()
    ensures s.questionnaires == old(s.questionnaires) && s.nextId == old(s.nextId)
    ensures !identityDeleted ==> resp == Unhandled && s.users == old(s.users)
    ensures identityDeleted ==> resp == Ok(Message(AccountDeleted)) && s.users == old(s.users) - {caller}
  {
    if !identityDeleted {
      return Unhandled;
    }
    Database.RemoveUser(s.users, s.questionnaires, s.nextId, caller);
    s.users := s.users - {caller};
    resp := Ok(Message(AccountDeleted));
  }
}
