/** The two collections the routes read and write, `users` and
    `questionnaires`, and the integrity the schemas and unique indexes keep
    over them. */
module Database {
  import opened Json
  import QuestionnaireModel
  import UserModel

  type User = UserModel.User
  type Questionnaire = QuestionnaireModel.Questionnaire

  /** Every id in a notification list was issued before `n`. */
  predicate NotificationIdsBelow(ns: seq<UserModel.Notification>, n: nat) {
    forall i :: 0 <= i < |ns| ==> ns[i].id < n
  }

  predicate UsersValid(users: map<ObjectId, User>, n: nat) {
    forall k :: k in users ==>
      && users[k].id == k && k < n
      && UserModel.WellFormed(users[k])
      && NotificationIdsBelow(users[k].notifications, n)
  }

  /** The unique index on `firebaseUid`. */
  predicate UniqueUid(users: map<ObjectId, User>) {
    forall a, b :: a in users && b in users && users[a].firebaseUid == users[b].firebaseUid ==> a == b
  }

  /** The unique index on `email`. */
  predicate UniqueEmail(users: map<ObjectId, User>) {
    forall a, b :: a in users && b in users && users[a].email == users[b].email ==> a == b
  }

  predicate QuestionnairesValid(qs: map<ObjectId, Questionnaire>, n: nat) {
    forall k :: k in qs ==> qs[k].id == k && k < n && QuestionnaireModel.WellFormed(qs[k])
  }

  /** Records sit under their own ids, every id was issued by the generator,
      each record passed its schema's validation, and the unique indexes hold. */
  predicate StoreInvariant(users: map<ObjectId, User>, qs: map<ObjectId, Questionnaire>, n: nat) {
    && UsersValid(users, n) && UniqueUid(users) && UniqueEmail(users)
    && QuestionnairesValid(qs, n)
  }

  /** Issuing a fresh id keeps the invariant. */
  lemma InvariantGrows(users: map<ObjectId, User>, qs: map<ObjectId, Questionnaire>, n: nat)
    requires StoreInvariant(users, qs, n)
    ensures StoreInvariant(users, qs, n + 1)
  {
  }

  /** Under the unique index, at most one user carries a given uid. */
  lemma UidDeterminesUser(users: map<ObjectId, User>, a: ObjectId, b: ObjectId)
    requires UniqueUid(users) && a in users && b in users
    ensures users[a].firebaseUid == users[b].firebaseUid <==> a == b
  {
  }

  /** Rewriting one user in place, keeping its id, uid and email and its
      schema validity, keeps the invariant. */
  lemma ReplaceUser(users: map<ObjectId, User>, qs: map<ObjectId, Questionnaire>, n: nat, k: ObjectId, u: User)
    requires StoreInvariant(users, qs, n) && k in users
    requires u.id == k && u.firebaseUid == users[k].firebaseUid && u.email == users[k].email
    requires UserModel.WellFormed(u) && NotificationIdsBelow(u.notifications, n)
    ensures StoreInvariant(users[k := u], qs, n)
  {
    var users' := users[k := u];
    assert forall a :: a in users' ==> users'[a].firebaseUid == users[a].firebaseUid && users'[a].email == users[a].email;
  }

  /** Inserting a valid user under a fresh id, with a uid and an email no
      stored user has, keeps the invariant. */
  lemma InsertUser(users: map<ObjectId, User>, qs: map<ObjectId, Questionnaire>, n: nat, u: User)
    requires StoreInvariant(users, qs, n) && u.id < n && u.id !in users
    requires UserModel.WellFormed(u) && NotificationIdsBelow(u.notifications, n)
    requires forall k :: k in users ==> users[k].firebaseUid != u.firebaseUid && users[k].email != u.email
    ensures StoreInvariant(users[u.id := u], qs, n)
  {
  }

  lemma RemoveUser(users: map<ObjectId, User>, qs: map<ObjectId, Questionnaire>, n: nat, k: ObjectId)
    requires StoreInvariant(users, qs, n)
    ensures StoreInvariant(users - {k}, qs, n)
  {
  }

  lemma ReplaceQuestionnaire(users: map<ObjectId, User>, qs: map<ObjectId, Questionnaire>, n: nat, q: Questionnaire)
    requires StoreInvariant(users, qs, n) && q.id < n && QuestionnaireModel.WellFormed(q)
    ensures StoreInvariant(users, qs[q.id := q], n)
  {
  }

  /** Removing any questionnaires keeps the invariant. */
  lemma KeepQuestionnaires(users: map<ObjectId, User>, qs: map<ObjectId, Questionnaire>, n: nat,
                           kept: map<ObjectId, Questionnaire>)
    requires StoreInvariant(users, qs, n)
    requires forall k :: k in kept ==> k in qs && kept[k] == qs[k]
    ensures StoreInvariant(users, kept, n)
  {
  }

  /** Appending a notification carrying the next id to a user's list keeps
      the ids distinct and issued. */
  lemma PushNotification(ns: seq<UserModel.Notification>, x: UserModel.Notification, n: nat)
    requires UserModel.DistinctIds(ns) && NotificationIdsBelow(ns, n) && x.id == n
    ensures UserModel.DistinctIds(ns + [x]) && NotificationIdsBelow(ns + [x], n + 1)
  {
  }

  /** The document store: both collections and the ObjectId generator. */
  class Store {
    var users: map<ObjectId, User>
    var questionnaires: map<ObjectId, Questionnaire>
    var nextId: ObjectId

    predicate Valid()
      reads this
    {
      StoreInvariant(users, questionnaires, nextId)
    }

    constructor ()
      ensures Valid()
      ensures users == map[] && questionnaires == map[] && nextId == 0
    {
      users := map[];
      questionnaires := map[];
      nextId := 0;
    }

    /** A fresh ObjectId, distinct from every id issued before. */
    method NewId() returns (id: ObjectId)
      requires Valid()
      modifies this
      ensures Valid()
      ensures id == old(nextId) && nextId == old(nextId) + 1
      ensures users == old(users) && questionnaires == old(questionnaires)
      ensures id !in users && id !in questionnaires
    {
      id := nextId;
      InvariantGrows(users, questionnaires, nextId);
      nextId := nextId + 1;
    }
  }
}
