/** The questionnaire endpoints (src/routes/questionnaire.js): the owner's
    create, list, get, update and delete, and the admin list, get and review
    update. Every handler runs after `authenticate`; `caller` is the id of
    the user it attached to the request. */
module QuestionnaireRoutes {
  import opened Json
  import opened Ordering
  import opened QuestionnaireModel
  import UserModel
  import opened Responses
  import Database

  type User = UserModel.User

  /** The fields an owner may change. */
  const EditableFields: set<string> :=
    {"projectName", "projectType", "businessDescription", "targetAudience", "keyFeatures",
     "budget", "timeline", "technicalRequirements", "additionalNotes"}

  function ByCreatedAt(q: Questionnaire): int {
    q.createdAt
  }

  /** The query `{ user: owner }`. */
  function OwnerIs(owner: ObjectId): Questionnaire -> bool {
    (q: Questionnaire) => q.user == owner
  }

  /** `Questionnaire.find({ user: owner }).sort({ createdAt: -1 })`. */
  function OwnedBy(qs: map<ObjectId, Questionnaire>, n: nat, owner: ObjectId): (r: seq<Questionnaire>)
    ensures NewestFirst(r, ByCreatedAt)
    ensures forall i :: 0 <= i < |r| ==> r[i].user == owner && r[i] in qs.Values
    ensures forall k :: k in qs && k < n && qs[k].user == owner ==> qs[k] in r
    ensures |r| == |KeysWhere(qs, n, OwnerIs(owner))|
  {
    var mine := Filter(Entries(qs, n), OwnerIs(owner));
    OwnedByFacts(qs, n, owner);
    FilterEntriesCount(qs, n, OwnerIs(owner));
    SortNewestFirst(mine, ByCreatedAt)
  }

  lemma OwnedByFacts(qs: map<ObjectId, Questionnaire>, n: nat, owner: ObjectId)
    ensures var r := SortNewestFirst(Filter(Entries(qs, n), OwnerIs(owner)), ByCreatedAt);
      && (forall i :: 0 <= i < |r| ==> r[i] in qs.Values && r[i].user == owner)
      && (forall k :: k in qs && k < n && qs[k].user == owner ==> qs[k] in r)
  {
    var p := OwnerIs(owner);
    var mine := Filter(Entries(qs, n), p);
    var r := SortNewestFirst(mine, ByCreatedAt);
    forall i | 0 <= i < |r|
      ensures r[i] in qs.Values && r[i].user == owner
    {
      SortedMembership(mine, ByCreatedAt, r[i]);
      FilterMembership(Entries(qs, n), p, r[i]);
      EntriesValues(qs, n, r[i]);
    }
    forall k | k in qs && k < n && qs[k].user == owner
      ensures qs[k] in r
    {
      EntriesComplete(qs, n, k);
      FilterMembership(Entries(qs, n), p, qs[k]);
      SortedMembership(mine, ByCreatedAt, qs[k]);
    }
  }

  /** `$push: { questionnaires: id }` on the owner; a missing owner is left alone. */
  function PushQuestionnaire(users: map<ObjectId, User>, owner: ObjectId, id: ObjectId, now: int): map<ObjectId, User> {
    if owner in users then
      users[owner := users[owner].(questionnaires := users[owner].questionnaires + [id], updatedAt := now)]
    else users
  }

  /** `$pull: { questionnaires: id }` on the owner; a missing owner is left alone. */
  function PullQuestionnaire(users: map<ObjectId, User>, owner: ObjectId, id: ObjectId, now: int): map<ObjectId, User> {
    if owner in users then
      users[owner := users[owner].(questionnaires := UserModel.RemoveId(users[owner].questionnaires, id), updatedAt := now)]
    else users
  }

  /** Deleting a questionnaire right after creating it gives the owner back
      the reference list it had. */
  lemma PullUndoesPush(users: map<ObjectId, User>, owner: ObjectId, id: ObjectId, t1: int, t2: int)
    requires owner in users && id !in users[owner].questionnaires
    ensures var after := PullQuestionnaire(PushQuestionnaire(users, owner, id, t1), owner, id, t2);
      after == users[owner := users[owner].(updatedAt := t2)]
  {
    UserModel.RemoveIdPushed(users[owner].questionnaires, id);
  }

  /** POST /: construct the record from the body with the caller as owner,
      save it, then add its id to the caller's list. */
  method Create(s: Database.Store, caller: ObjectId, body: Body, now: int) returns (resp: Response)
    requires s.Valid()
    modifies s
    ensures s.Valid()
    ensures s.nextId == old(s.nextId) + 1
    ensures match Construct(old(s.nextId), caller, body, now)
      case Invalid =>
        resp == Unhandled && s.users == old(s.users) && s.questionnaires == old(s.questionnaires)
      case Valid(q) =>
        && resp == Created(QuestionnaireDoc(q))
        && s.questionnaires == old(s.questionnaires)[q.id := q]
        && s.users == PushQuestionnaire(old(s.users), caller, q.id, now)
  {
    var id := s.NewId();
    var built := Construct(id, caller, body, now);
    if built.Invalid? {
      return Unhandled;
    }
    var q := built.value;
    SaveQuestionnaire(s, q);
    PushToOwner(s, caller, id, now);
    resp := Created(QuestionnaireDoc(q));
  }

  /** The `$push` of a new questionnaire id onto its owner's list. */
  method PushToOwner(s: Database.Store, owner: ObjectId, id: ObjectId, now: int)
    requires s.Valid()
    modifies s
    ensures s.Valid()
    ensures s.users == PushQuestionnaire(old(s.users), owner, id, now)
    ensures s.questionnaires == old(s.questionnaires) && s.nextId == old(s.nextId)
  {
    if owner in s.users {
      var u := s.users[owner];
      var u' := u.(questionnaires := u.questionnaires + [id], updatedAt := now);
      Database.ReplaceUser(s.users, s.questionnaires, s.nextId, owner, u');
      s.users := s.users[owner := u'];
    }
  }

  /** A created record belongs to the caller and is pending unless the body
      names a status; a `user` key in the body is ignored. */
  lemma CreateOwnership(id: ObjectId, caller: ObjectId, body: Body, v: Value, now: int)
    ensures var r := Construct(id, caller, body, now);
      && (r.Valid? ==> r.value.user == caller)
      && (r.Valid? && Field(body, "status").None? ==> r.value.status == Pending)
      && Construct(id, caller, body["user" := v], now) == r
  {
    ConstructIgnoresUserKey(id, caller, body, v, now);
  }

  /** GET /my. */
  function ListMine(qs: map<ObjectId, Questionnaire>, n: nat, caller: ObjectId): (r: Response)
    ensures r.Ok? && r.payload.QuestionnaireList?
    ensures r.payload.questionnaires == OwnedBy(qs, n, caller)
  {
    Ok(QuestionnaireList(OwnedBy(qs, n, caller)))
  }

  /** GET /:id: the record only when it exists and belongs to the caller. */
  function GetMine(qs: map<ObjectId, Questionnaire>, caller: ObjectId, id: ObjectId): (r: Response)
    ensures r.Ok? <==> id in qs && qs[id].user == caller
    ensures r.Ok? ==> r == Ok(QuestionnaireDoc(qs[id]))
    ensures !r.Ok? ==> r == NotFound(QuestionnaireNotFound)
  {
    if id in qs && qs[id].user == caller then Ok(QuestionnaireDoc(qs[id]))
    else NotFound(QuestionnaireNotFound)
  }

  /** A key the updates do not carry is read from the record's own fields. */
  lemma FieldOverlay(doc: Body, updates: Body, key: string)
    requires key !in updates
    ensures Field(doc + updates, key) == Field(doc, key)
  {
  }

  /** `Object.assign(questionnaire, updates)` and `save()`: the allowed keys of
      the body are cast over the record, the result revalidated, and
      `updatedAt` moved to `now` when something changed. */
  function AssignEditable(q: Questionnaire, body: Body, now: int): (r: Parsed<Questionnaire>)
    ensures r.Valid? ==> WellFormed(r.value)
    ensures r.Valid? ==> r.value.id == q.id && r.value.user == q.user && r.value.createdAt == q.createdAt
    ensures r.Valid? ==> r.value.status == q.status && r.value.adminFeedback == q.adminFeedback
    ensures r.Valid? ==> r.value.updatedAt == if r.value.(updatedAt := q.updatedAt) == q then q.updatedAt else now
  {
    var updates := Pick(body, EditableFields);
    var doc := Submission(q) + updates;
    match Construct(q.id, q.user, doc, now)
    case Invalid => Invalid
    case Valid(c) =>
      AssignKeepsReview(q, updates, now);
      var after := c.(createdAt := q.createdAt, updatedAt := q.updatedAt);
      assert WellFormed(after);
      Valid(Touch(q, after, now))
  }

  /** The review fields are outside the allow-list, so an owner's update cannot reach them. */
  lemma AssignKeepsReview(q: Questionnaire, updates: Body, now: int)
    requires updates.Keys <= EditableFields
    ensures var r := Construct(q.id, q.user, Submission(q) + updates, now);
      r.Valid? ==> r.value.status == q.status && r.value.adminFeedback == q.adminFeedback
  {
    var doc := Submission(q) + updates;
    KeptReviewPaths(q, updates, now);
    ReviewFromPaths(q.id, q.user, doc, now, q.status, q.adminFeedback);
  }

  lemma KeptReviewPaths(q: Questionnaire, updates: Body, now: int)
    requires "status" !in updates && "adminFeedback" !in updates
    ensures ParseStatus(Field(Submission(q) + updates, "status")) == Valid(q.status)
    ensures ParseFeedback(Field(Submission(q) + updates, "adminFeedback"), now) == Valid(q.adminFeedback)
  {
    FieldOverlay(Submission(q), updates, "status");
    FieldOverlay(Submission(q), updates, "adminFeedback");
    SubmissionStatus(q);
    SubmissionFeedback(q, now);
  }

  lemma ReviewFromPaths(id: ObjectId, owner: ObjectId, doc: Body, now: int, st: Status, fb: AdminFeedback)
    requires ParseStatus(Field(doc, "status")) == Valid(st)
    requires ParseFeedback(Field(doc, "adminFeedback"), now) == Valid(fb)
    ensures var r := Construct(id, owner, doc, now);
      r.Valid? ==> r.value.status == st && r.value.adminFeedback == fb
  {
    ConstructParts(id, owner, doc, now);
  }

  /** An editable field the body does not mention keeps its value. */
  lemma AssignKeepsAbsent(q: Questionnaire, body: Body, now: int)
    requires WellFormed(q)
    ensures var r := AssignEditable(q, body, now);
      r.Valid? ==>
        && ("projectName" !in body ==> r.value.projectName == q.projectName)
        && ("projectType" !in body ==> r.value.projectType == q.projectType)
        && ("businessDescription" !in body ==> r.value.businessDescription == q.businessDescription)
        && ("targetAudience" !in body ==> r.value.targetAudience == q.targetAudience)
        && ("keyFeatures" !in body ==> r.value.keyFeatures == q.keyFeatures)
        && ("budget" !in body ==> r.value.budget == q.budget)
        && ("timeline" !in body ==> r.value.timeline == q.timeline)
        && ("technicalRequirements" !in body ==> r.value.technicalRequirements == q.technicalRequirements)
        && ("additionalNotes" !in body ==> r.value.additionalNotes == q.additionalNotes)
  {
    var updates := Pick(body, EditableFields);
    var doc := Submission(q) + updates;
    var c := Construct(q.id, q.user, doc, now);
    if c.Valid? {
      ConstructParts(q.id, q.user, doc, now);
      KeptPaths(q, body, updates);
      AssignedFromConstruct(q, body, now);
    }
  }

  /** What the construction inside an update yields, field by field, is what `AssignEditable` stores. */
  lemma AssignedFromConstruct(q: Questionnaire, body: Body, now: int)
    ensures var c := Construct(q.id, q.user, Submission(q) + Pick(body, EditableFields), now);
      var r := AssignEditable(q, body, now);
      r.Valid? <==> c.Valid?
  {
  }

  /** The paths an update body leaves out still parse to the record's own values. */
  lemma KeptPaths(q: Questionnaire, body: Body, updates: Body)
    requires WellFormed(q) && updates == Pick(body, EditableFields)
    ensures var doc := Submission(q) + updates;
      && ("projectName" !in body ==> ParseProjectName(Field(doc, "projectName")) == Valid(q.projectName))
      && ("projectType" !in body ==> ParseProjectType(Field(doc, "projectType")) == Valid(q.projectType))
      && ("businessDescription" !in body ==> ParseRequiredString(Field(doc, "businessDescription")) == Valid(q.businessDescription))
      && ("targetAudience" !in body ==> ParseRequiredString(Field(doc, "targetAudience")) == Valid(q.targetAudience))
      && ("keyFeatures" !in body ==> ParseStringList(Field(doc, "keyFeatures"), true) == Valid(q.keyFeatures))
      && ("budget" !in body ==> ParseNumber(Field(doc, "budget")) == Valid(q.budget))
      && ("timeline" !in body ==> ParseTimeline(Field(doc, "timeline")) == Valid(q.timeline))
      && ("technicalRequirements" !in body ==> ParseTechnical(Field(doc, "technicalRequirements")) == Valid(q.technicalRequirements))
      && ("additionalNotes" !in body ==> ParseNotes(Field(doc, "additionalNotes")) == Valid(q.additionalNotes))
  {
    if "projectName" !in body { FieldOverlay(Submission(q), updates, "projectName"); SubmissionName(q); }
    if "projectType" !in body { FieldOverlay(Submission(q), updates, "projectType"); SubmissionType(q); }
    if "businessDescription" !in body { FieldOverlay(Submission(q), updates, "businessDescription"); SubmissionStrings(q); }
    if "targetAudience" !in body { FieldOverlay(Submission(q), updates, "targetAudience"); SubmissionStrings(q); }
    if "keyFeatures" !in body { FieldOverlay(Submission(q), updates, "keyFeatures"); SubmissionFeatures(q); }
    if "budget" !in body { FieldOverlay(Submission(q), updates, "budget"); SubmissionBudget(q); }
    if "timeline" !in body { FieldOverlay(Submission(q), updates, "timeline"); SubmissionTimeline(q); }
    if "technicalRequirements" !in body {
      FieldOverlay(Submission(q), updates, "technicalRequirements"); SubmissionTechnical(q);
    }
    if "additionalNotes" !in body { FieldOverlay(Submission(q), updates, "additionalNotes"); SubmissionNotes(q); }
  }

  /** An editable field the body sends is stored as the schema casts the sent value. */
  lemma AssignAppliesSent(q: Questionnaire, body: Body, now: int)
    ensures var r := AssignEditable(q, body, now);
      r.Valid? ==>
        && ("projectName" in body ==> ParseProjectName(Field(body, "projectName")) == Valid(r.value.projectName))
        && ("projectType" in body ==> ParseProjectType(Field(body, "projectType")) == Valid(r.value.projectType))
        && ("businessDescription" in body ==>
              ParseRequiredString(Field(body, "businessDescription")) == Valid(r.value.businessDescription))
        && ("targetAudience" in body ==>
              ParseRequiredString(Field(body, "targetAudience")) == Valid(r.value.targetAudience))
        && ("keyFeatures" in body ==> ParseStringList(Field(body, "keyFeatures"), true) == Valid(r.value.keyFeatures))
        && ("budget" in body ==> ParseNumber(Field(body, "budget")) == Valid(r.value.budget))
        && ("timeline" in body ==> ParseTimeline(Field(body, "timeline")) == Valid(r.value.timeline))
        && ("technicalRequirements" in body ==>
              ParseTechnical(Field(body, "technicalRequirements")) == Valid(r.value.technicalRequirements))
        && ("additionalNotes" in body ==> ParseNotes(Field(body, "additionalNotes")) == Valid(r.value.additionalNotes))
  {
    var updates := Pick(body, EditableFields);
    var doc := Submission(q) + updates;
    SentPaths(q, body, updates);
    ConstructReadsSent(q.id, q.user, doc, body, now);
    AssignedFields(q, body, now);
  }

  /** A construction from a document that agrees with the body on the sent
      editable paths stores the body's values there. */
  lemma ConstructReadsSent(id: ObjectId, owner: ObjectId, doc: Body, body: Body, now: int)
    requires "projectName" in body ==> Field(doc, "projectName") == Field(body, "projectName")
    requires "projectType" in body ==> Field(doc, "projectType") == Field(body, "projectType")
    requires "businessDescription" in body ==> Field(doc, "businessDescription") == Field(body, "businessDescription")
    requires "targetAudience" in body ==> Field(doc, "targetAudience") == Field(body, "targetAudience")
    requires "keyFeatures" in body ==> Field(doc, "keyFeatures") == Field(body, "keyFeatures")
    requires "budget" in body ==> Field(doc, "budget") == Field(body, "budget")
    requires "timeline" in body ==> Field(doc, "timeline") == Field(body, "timeline")
    requires "technicalRequirements" in body ==> Field(doc, "technicalRequirements") == Field(body, "technicalRequirements")
    requires "additionalNotes" in body ==> Field(doc, "additionalNotes") == Field(body, "additionalNotes")
    ensures var c := Construct(id, owner, doc, now);
      c.Valid? ==>
        && ("projectName" in body ==> ParseProjectName(Field(body, "projectName")) == Valid(c.value.projectName))
        && ("projectType" in body ==> ParseProjectType(Field(body, "projectType")) == Valid(c.value.projectType))
        && ("businessDescription" in body ==>
              ParseRequiredString(Field(body, "businessDescription")) == Valid(c.value.businessDescription))
        && ("targetAudience" in body ==>
              ParseRequiredString(Field(body, "targetAudience")) == Valid(c.value.targetAudience))
        && ("keyFeatures" in body ==> ParseStringList(Field(body, "keyFeatures"), true) == Valid(c.value.keyFeatures))
        && ("budget" in body ==> ParseNumber(Field(body, "budget")) == Valid(c.value.budget))
        && ("timeline" in body ==> ParseTimeline(Field(body, "timeline")) == Valid(c.value.timeline))
        && ("technicalRequirements" in body ==>
              ParseTechnical(Field(body, "technicalRequirements")) == Valid(c.value.technicalRequirements))
        && ("additionalNotes" in body ==> ParseNotes(Field(body, "additionalNotes")) == Valid(c.value.additionalNotes))
  {
    ConstructParts(id, owner, doc, now);
  }

  /** The editable fields `AssignEditable` stores are those of the construction inside it. */
  lemma AssignedFields(q: Questionnaire, body: Body, now: int)
    ensures var c := Construct(q.id, q.user, Submission(q) + Pick(body, EditableFields), now);
      var r := AssignEditable(q, body, now);
      r.Valid? ==>
        && c.Valid?
        && r.value.projectName == c.value.projectName && r.value.projectType == c.value.projectType
        && r.value.businessDescription == c.value.businessDescription
        && r.value.targetAudience == c.value.targetAudience && r.value.keyFeatures == c.value.keyFeatures
        && r.value.budget == c.value.budget && r.value.timeline == c.value.timeline
        && r.value.technicalRequirements == c.value.technicalRequirements
        && r.value.additionalNotes == c.value.additionalNotes
  {
  }

  /** A key the updates carry is read from the body, not from the record. */
  lemma SentField(doc: Body, body: Body, updates: Body, key: string)
    requires updates == Pick(body, EditableFields) && key in body && key in EditableFields
    ensures Field(doc + updates, key) == Field(body, key)
  {
  }

  /** The paths an update body sends parse as the body's own values. */
  lemma SentPaths(q: Questionnaire, body: Body, updates: Body)
    requires updates == Pick(body, EditableFields)
    ensures var doc := Submission(q) + updates;
      && ("projectName" in body ==> Field(doc, "projectName") == Field(body, "projectName"))
      && ("projectType" in body ==> Field(doc, "projectType") == Field(body, "projectType"))
      && ("businessDescription" in body ==> Field(doc, "businessDescription") == Field(body, "businessDescription"))
      && ("targetAudience" in body ==> Field(doc, "targetAudience") == Field(body, "targetAudience"))
      && ("keyFeatures" in body ==> Field(doc, "keyFeatures") == Field(body, "keyFeatures"))
      && ("budget" in body ==> Field(doc, "budget") == Field(body, "budget"))
      && ("timeline" in body ==> Field(doc, "timeline") == Field(body, "timeline"))
      && ("technicalRequirements" in body ==>
            Field(doc, "technicalRequirements") == Field(body, "technicalRequirements"))
      && ("additionalNotes" in body ==> Field(doc, "additionalNotes") == Field(body, "additionalNotes"))
  {
    var doc := Submission(q);
    if "projectName" in body { SentField(doc, body, updates, "projectName"); }
    if "projectType" in body { SentField(doc, body, updates, "projectType"); }
    if "businessDescription" in body { SentField(doc, body, updates, "businessDescription"); }
    if "targetAudience" in body { SentField(doc, body, updates, "targetAudience"); }
    if "keyFeatures" in body { SentField(doc, body, updates, "keyFeatures"); }
    if "budget" in body { SentField(doc, body, updates, "budget"); }
    if "timeline" in body { SentField(doc, body, updates, "timeline"); }
    if "technicalRequirements" in body { SentField(doc, body, updates, "technicalRequirements"); }
    if "additionalNotes" in body { SentField(doc, body, updates, "additionalNotes"); }
  }

  /** PATCH /:id. */
  method Update(s: Database.Store, caller: ObjectId, id: ObjectId, body: Body, now: int) returns (resp: Response)
    requires s.Valid()
    modifies s
    ensures s.Valid()
    ensures s.users == old(s.users) && s.nextId == old(s.nextId)
    ensures var qs := old(s.questionnaires);
      if id !in qs || qs[id].user != caller then
        resp == NotFound(QuestionnaireNotFound) && s.questionnaires == qs
      else if qs[id].status != Pending then
        resp == BadRequest(ReviewStarted) && s.questionnaires == qs
      else if Pick(body, EditableFields) == map[] then
        resp == BadRequest(NoValidUpdates) && s.questionnaires == qs
      else match AssignEditable(qs[id], body, now)
        case Invalid => resp == Unhandled && s.questionnaires == qs
        case Valid(q) => resp == Ok(QuestionnaireDoc(q)) && s.questionnaires == qs[id := q]
  {
    if id !in s.questionnaires || s.questionnaires[id].user != caller {
      return NotFound(QuestionnaireNotFound);
    }
    var q := s.questionnaires[id];
    if q.status != Pending {
      return BadRequest(ReviewStarted);
    }
    var updates := Pick(body, EditableFields);
    if updates == map[] {
      return BadRequest(NoValidUpdates);
    }
    var applied := AssignEditable(q, body, now);
    if applied.Invalid? {
      return Unhandled;
    }
    SaveQuestionnaire(s, applied.value);
    resp := Ok(QuestionnaireDoc(applied.value));
  }

  /** `save()` of a valid record under an issued id: it is stored under that id. */
  method SaveQuestionnaire(s: Database.Store, q: Questionnaire)
    requires s.Valid() && q.id < s.nextId && WellFormed(q)
    modifies s
    ensures s.Valid()
    ensures s.questionnaires == old(s.questionnaires)[q.id := q]
    ensures s.users == old(s.users) && s.nextId == old(s.nextId)
  {
    Database.ReplaceQuestionnaire(s.users, s.questionnaires, s.nextId, q);
    s.questionnaires := s.questionnaires[q.id := q];
  }

  /** DELETE /:id: `findOneAndDelete` on id, owner and pending status
      together, then `$pull` from the caller's list. */
  method Delete(s: Database.Store, caller: ObjectId, id: ObjectId, now: int) returns (resp: Response)
    requires s.Valid()
    modifies s
    ensures s.Valid()
    ensures s.nextId == old(s.nextId)
    ensures var qs := old(s.questionnaires);
      if id in qs && qs[id].user == caller && qs[id].status == Pending then
        && resp == Ok(Message(QuestionnaireDeleted))
        && s.questionnaires == qs - {id}
        && s.users == PullQuestionnaire(old(s.users), caller, id, now)
      else
        resp == NotFound(CannotDelete) && s.questionnaires == qs && s.users == old(s.users)
  {
    if !(id in s.questionnaires && s.questionnaires[id].user == caller && s.questionnaires[id].status == Pending) {
      return NotFound(CannotDelete);
    }
    Database.KeepQuestionnaires(s.users, s.questionnaires, s.nextId, s.questionnaires - {id});
    s.questionnaires := s.questionnaires - {id};
    if caller in s.users {
      var u := s.users[caller];
      var u' := u.(questionnaires := UserModel.RemoveId(u.questionnaires, id), updatedAt := now);
      Database.ReplaceUser(s.users, s.questionnaires, s.nextId, caller, u');
      s.users := s.users[caller := u'];
    }
    resp := Ok(Message(QuestionnaireDeleted));
  }

  function Summary(u: User): OwnerSummary {
    OwnerSummary(u.id, u.email, u.displayName)
  }

  /** `populate('user', 'email displayName')` followed by the transform that
      reads `q.user._id`: it throws as soon as one owner no longer exists. */
  function Transform(users: map<ObjectId, User>, qs: seq<Questionnaire>): (r: Option<seq<Submitted>>)
    ensures r.Some? <==> forall i :: 0 <= i < |qs| ==> qs[i].user in users
    ensures r.Some? ==> |r.value| == |qs|
    ensures r.Some? ==> forall i :: 0 <= i < |qs| ==>
      r.value[i] == Submitted(qs[i], Summary(users[qs[i].user]), qs[i].createdAt)
  {
    if qs == [] then Some([])
    else if qs[0].user !in users then None
    else match Transform(users, qs[1..])
      case None => None
      case Some(rest) => Some([Submitted(qs[0], Summary(users[qs[0].user]), qs[0].createdAt)] + rest)
  }

  /** The status filter of the admin list: only a non-empty status filters. */
  predicate StatusMatches(status: Option<string>, q: Questionnaire) {
    status.None? || status.value == "" || StatusName(q.status) == status.value
  }

  function StatusFilter(status: Option<string>): Questionnaire -> bool {
    (q: Questionnaire) => StatusMatches(status, q)
  }

  /** Without a status every record is listed; the name of a status selects
      exactly the records in it; any other string selects nothing. */
  lemma StatusFilterCases(status: Option<string>, q: Questionnaire)
    ensures status.None? || status == Some("") ==> StatusMatches(status, q)
    ensures forall st :: status == Some(StatusName(st)) ==> (StatusMatches(status, q) <==> q.status == st)
    ensures status.Some? && status.value != "" && status.value !in StatusNames ==> !StatusMatches(status, q)
  {
    forall st | status == Some(StatusName(st))
      ensures StatusMatches(status, q) <==> q.status == st
    {
      StatusNameRoundTrip(st);
      StatusNameRoundTrip(q.status);
    }
  }

  function OrDefault(v: Option<int>, fallback: int): int {
    if v.Some? then v.value else fallback
  }

  /** `Questionnaire.find(query).sort({ createdAt: -1 })` before the page is cut. */
  function AdminListing(qs: map<ObjectId, Questionnaire>, n: nat, status: Option<string>): seq<Questionnaire> {
    SortNewestFirst(Filter(Entries(qs, n), StatusFilter(status)), ByCreatedAt)
  }

  /** GET /admin/all: filter by status, newest first, one page of the
      matches with their submitters, and the page arithmetic. */
  function ListAll(users: map<ObjectId, User>, qs: map<ObjectId, Questionnaire>, n: nat,
                   status: Option<string>, page: Option<int>, limit: Option<int>): (r: Response)
    ensures var pg := OrDefault(page, 1);
      var lim := OrDefault(limit, 10);
      var window := Paginate(AdminListing(qs, n, status), pg, lim);
      && (r.Ok? <==> Offset(pg, lim) >= 0 && forall i :: 0 <= i < |window.value| ==> window.value[i].user in users)
      && (!r.Ok? ==> r == Unhandled)
      && (r.Ok? ==> r.payload.SubmittedPage? && r.payload.items == Transform(users, window.value).value)
    ensures r.Ok? ==>
      var p := r.payload;
      var lim := OrDefault(limit, 10);
      && p.SubmittedPage?
      && p.currentPage == OrDefault(page, 1)
      && p.total == |KeysWhere(qs, n, StatusFilter(status))|
      && p.pages == Pages(p.total, lim)
      && (lim != 0 ==> |p.items| <= Abs(lim))
      && (forall i :: 0 <= i < |p.items| ==>
            && p.items[i].questionnaire in qs.Values
            && StatusMatches(status, p.items[i].questionnaire)
            && p.items[i].submittedAt == p.items[i].questionnaire.createdAt
            && p.items[i].questionnaire.user in users)
      && (forall i, j :: 0 <= i < j < |p.items| ==>
            p.items[i].questionnaire.createdAt >= p.items[j].questionnaire.createdAt)
  {
    var pg := OrDefault(page, 1);
    var lim := OrDefault(limit, 10);
    var p := StatusFilter(status);
    var matches := Filter(Entries(qs, n), p);
    var sorted := SortNewestFirst(matches, ByCreatedAt);
    match Paginate(sorted, pg, lim)
    case None => Unhandled
    case Some(window) =>
      match Transform(users, window)
      case None => Unhandled
      case Some(items) =>
        PageOfMatches(qs, n, p, ByCreatedAt, sorted, window, pg, lim);
        FilterEntriesCount(qs, n, p);
        Ok(SubmittedPage(items, |matches|, Pages(|matches|, lim), pg))
  }

  /** With a positive limit and no record left without its owner, every
      matching record is listed on one of the pages 1 .. pages. */
  lemma EveryQuestionnaireOnSomePage(users: map<ObjectId, User>, qs: map<ObjectId, Questionnaire>, n: nat,
                                     status: Option<string>, limit: int, k: ObjectId)
    requires limit > 0 && k in qs && k < n && StatusMatches(status, qs[k])
    requires forall j :: j in qs ==> qs[j].user in users
    ensures exists page ::
      var r := ListAll(users, qs, n, status, Some(page), Some(limit));
      && 1 <= page && r.Ok? && r.payload.pages.Some? && page <= r.payload.pages.value
      && exists i :: 0 <= i < |r.payload.items| && r.payload.items[i].questionnaire == qs[k]
  {
    var sorted := AdminListing(qs, n, status);
    var i := MatchListed(qs, n, status, k);
    PageOfRecord(sorted, limit, i);
    var page := i / limit + 1;
    FilterEntriesCount(qs, n, StatusFilter(status));
    OwnersPresent(users, qs, n, status, page, limit);
    var w := Paginate(sorted, page, limit).value;
    assert w == Window(sorted, Offset(page, limit), limit);
    var at :| 0 <= at < |w| && w[at] == qs[k];
    var r := ListAll(users, qs, n, status, Some(page), Some(limit));
    assert r.payload.items[at].questionnaire == qs[k];
  }

  /** A stored matching record has a place in the admin listing. */
  lemma MatchListed(qs: map<ObjectId, Questionnaire>, n: nat, status: Option<string>, k: ObjectId) returns (i: nat)
    requires k in qs && k < n && StatusMatches(status, qs[k])
    ensures i < |AdminListing(qs, n, status)| && AdminListing(qs, n, status)[i] == qs[k]
  {
    var p := StatusFilter(status);
    var matches := Filter(Entries(qs, n), p);
    EntriesComplete(qs, n, k);
    FilterMembership(Entries(qs, n), p, qs[k]);
    SortedMembership(matches, ByCreatedAt, qs[k]);
    var sorted := AdminListing(qs, n, status);
    i :| 0 <= i < |sorted| && sorted[i] == qs[k];
  }

  /** When no record has lost its owner, every record on a page has one. */
  lemma OwnersPresent(users: map<ObjectId, User>, qs: map<ObjectId, Questionnaire>, n: nat,
                      status: Option<string>, page: int, limit: int)
    requires Offset(page, limit) >= 0
    requires forall j :: j in qs ==> qs[j].user in users
    ensures var w := Paginate(AdminListing(qs, n, status), page, limit).value;
      forall j :: 0 <= j < |w| ==> w[j].user in users
  {
    var sorted := AdminListing(qs, n, status);
    var w := Paginate(sorted, page, limit).value;
    ListedMatches(qs, n, StatusFilter(status), ByCreatedAt);
    var from := Min(Offset(page, limit), |sorted|);
    forall j | 0 <= j < |w|
      ensures w[j].user in users
    {
      assert w[j] == sorted[from + j];
      assert w[j] in qs.Values;
    }
  }

  /** GET /admin/:id: any record, whoever owns it, with its submitter. */
  function AdminGet(users: map<ObjectId, User>, qs: map<ObjectId, Questionnaire>, id: ObjectId): (r: Response)
    ensures id !in qs ==> r == NotFound(QuestionnaireNotFound)
    ensures id in qs && qs[id].user !in users ==> r == Unhandled
    ensures id in qs && qs[id].user in users ==>
      r == Ok(SubmittedDoc(Submitted(qs[id], Summary(users[qs[id].user]), qs[id].createdAt)))
  {
    if id !in qs then NotFound(QuestionnaireNotFound)
    else
      var q := qs[id];
      if q.user !in users then Unhandled
      else Ok(SubmittedDoc(Submitted(q, Summary(users[q.user]), q.createdAt)))
  }

  /** The review update of `status` and `adminFeedback`, applied only when
      the body's value is truthy, then `save()`. A status outside the enum
      fails validation; feedback must be a string. */
  function AdminEdit(q: Questionnaire, body: Body, now: int): (r: Parsed<Questionnaire>)
    ensures var st := Get(body, "status");
      var fb := Get(body, "adminFeedback");
      r.Valid? <==>
        (&& (Truthy(st) ==> st.value.Str? && st.value.s in StatusNames)
         && (Truthy(fb) ==> fb.value.Str?))
    ensures r.Valid? ==>
      r.value.(status := q.status, adminFeedback := q.adminFeedback, updatedAt := q.updatedAt) == q
    ensures r.Valid? && Truthy(Get(body, "status")) ==> StatusName(r.value.status) == body["status"].s
    ensures r.Valid? && !Truthy(Get(body, "status")) ==> r.value.status == q.status
    ensures r.Valid? && Truthy(Get(body, "adminFeedback")) ==>
      r.value.adminFeedback == AdminFeedback(Some(body["adminFeedback"].s), now, Some(now))
    ensures r.Valid? && !Truthy(Get(body, "adminFeedback")) ==> r.value.adminFeedback == q.adminFeedback
    ensures r.Valid? ==> r.value.updatedAt == if r.value.(updatedAt := q.updatedAt) == q then q.updatedAt else now
    ensures r.Valid? && WellFormed(q) ==> WellFormed(r.value)
  {
    var st := Get(body, "status");
    var fb := Get(body, "adminFeedback");
    if Truthy(st) && !(st.value.Str? && st.value.s in StatusNames) then Invalid
    else if Truthy(fb) && !fb.value.Str? then Invalid
    else
      var withStatus := if Truthy(st) then q.(status := ParseStatusName(st.value.s).value) else q;
      var edited := if Truthy(fb) then withStatus.(adminFeedback := AdminFeedback(Some(fb.value.s), now, Some(now)))
                    else withStatus;
      Valid(Touch(q, edited, now))
  }

  /** The text of the notification the owner receives. */
  function ReviewMessage(projectName: string, status: Option<Value>): (r: string)
    ensures |r| > 20 + |projectName| && r[20..20 + |projectName|] == projectName
    ensures r[|r| - 1] == '.'
    ensures Truthy(status) && status.value.Str? ==>
      |r| > |status.value.s| && r[|r| - 1 - |status.value.s|..|r| - 1] == status.value.s
    ensures !(Truthy(status) && status.value.Str?) ==> |r| > 7 && r[|r| - 8..|r| - 1] == "updated"
    ensures |r| == 32 + |projectName| + (if Truthy(status) && status.value.Str? then |status.value.s| else 7)
    ensures r[..20] == "Your questionnaire \""
    ensures r[20 + |projectName|..20 + |projectName| + 11] == "\" has been "
  {
    var word := if Truthy(status) && status.value.Str? then status.value.s else "updated";
    var head := "Your questionnaire \"";
    var r := head + projectName + "\" has been " + word + ".";
    assert |head| == 20;
    assert r[20..20 + |projectName|] == projectName;
    assert r[|r| - 1 - |word|..|r| - 1] == word;
    assert r[..20] == head;
    assert r[20 + |projectName|..20 + |projectName| + 11] == "\" has been ";
    r
  }

  /** `$push` of a notification onto a user's list; a missing user is left alone. */
  function Notify(users: map<ObjectId, User>, owner: ObjectId, note: UserModel.Notification, now: int): (r: map<ObjectId, User>)
    ensures r.Keys == users.Keys
    ensures forall k :: k in users && k != owner ==> r[k] == users[k]
    ensures owner in users ==>
      && r[owner].notifications == users[owner].notifications + [note]
      && r[owner].(notifications := users[owner].notifications, updatedAt := users[owner].updatedAt) == users[owner]
      && r[owner].updatedAt == now
  {
    if owner in users then
      users[owner := users[owner].(notifications := users[owner].notifications + [note], updatedAt := now)]
    else users
  }

  /** PATCH /admin/:id: no ownership or status rule; after a successful
      save, exactly one notification goes to the owner. */
  method AdminUpdate(s: Database.Store, id: ObjectId, body: Body, now: int) returns (resp: Response)
    requires s.Valid()
    modifies s
    ensures s.Valid()
    ensures var qs := old(s.questionnaires);
      if id !in qs then
        && resp == NotFound(QuestionnaireNotFound)
        && s.questionnaires == qs && s.users == old(s.users) && s.nextId == old(s.nextId)
      else match AdminEdit(qs[id], body, now)
        case Invalid =>
          && resp == Unhandled
          && s.questionnaires == qs && s.users == old(s.users) && s.nextId == old(s.nextId)
        case Valid(q) =>
          && resp == Ok(QuestionnaireDoc(q))
          && s.questionnaires == qs[id := q]
          && s.nextId == old(s.nextId) + 1
          && s.users == Notify(old(s.users), q.user,
               UserModel.NewNotification(old(s.nextId), ReviewMessage(q.projectName, Get(body, "status")), now), now)
  {
    if id !in s.questionnaires {
      return NotFound(QuestionnaireNotFound);
    }
    var edited := AdminEdit(s.questionnaires[id], body, now);
    if edited.Invalid? {
      return Unhandled;
    }
    var q := edited.value;
    Database.ReplaceQuestionnaire(s.users, s.questionnaires, s.nextId, q);
    s.questionnaires := s.questionnaires[id := q];
    var noteId := s.NewId();
    var note := UserModel.NewNotification(noteId, ReviewMessage(q.projectName, Get(body, "status")), now);
    if q.user in s.users {
      var u := s.users[q.user];
      var u' := u.(notifications := u.notifications + [note], updatedAt := now);
      Database.PushNotification(u.notifications, note, noteId);
      Database.ReplaceUser(s.users, s.questionnaires, s.nextId, q.user, u');
      s.users := s.users[q.user := u'];
    }
    resp := Ok(QuestionnaireDoc(q));
  }
}
