/** The Questionnaire record (src/models/questionnaire.js): its enumerations,
    nested records, defaults and required fields, and how a JSON body is cast
    into it when a document is constructed or assigned and then validated. */
module QuestionnaireModel {
  import opened Json
  import opened Text

  datatype Status = Pending | Reviewed | InProgress | Completed

  datatype ProjectType = Web | Mobile | Desktop | Other

  datatype Timeline = Timeline(startDate: int, endDate: int)

  datatype TechnicalRequirements = TechnicalRequirements(
    frontend: seq<string>,
    backend: seq<string>,
    database: seq<string>,
    hosting: seq<string>)

  /** The nested `adminFeedback` path; its `createdAt` has a default, so every
      document carries one. */
  datatype AdminFeedback = AdminFeedback(message: Option<string>, createdAt: int, updatedAt: Option<int>)

  datatype Questionnaire = Questionnaire(
    id: ObjectId,
    user: ObjectId,
    projectName: string,
    projectType: ProjectType,
    businessDescription: string,
    targetAudience: string,
    keyFeatures: seq<string>,
    budget: int,
    timeline: Timeline,
    technicalRequirements: TechnicalRequirements,
    additionalNotes: Option<string>,
    status: Status,
    adminFeedback: AdminFeedback,
    createdAt: int,
    updatedAt: int)

  const StatusNames: set<string> := {"pending", "reviewed", "in_progress", "completed"}
  const ProjectTypeNames: set<string> := {"web", "mobile", "desktop", "other"}

  function StatusName(st: Status): (r: string)
    ensures r in StatusNames
  {
    match st
    case Pending => "pending"
    case Reviewed => "reviewed"
    case InProgress => "in_progress"
    case Completed => "completed"
  }

  /** The `status` enum check: exactly the four names are accepted. */
  function ParseStatusName(s: string): (r: Option<Status>)
    ensures r.Some? <==> s in StatusNames
    ensures r.Some? ==> StatusName(r.value) == s
  {
    if s == "pending" then Some(Pending)
    else if s == "reviewed" then Some(Reviewed)
    else if s == "in_progress" then Some(InProgress)
    else if s == "completed" then Some(Completed)
    else None
  }

  lemma StatusNameRoundTrip(st: Status)
    ensures ParseStatusName(StatusName(st)) == Some(st)
  {
  }

  function ProjectTypeName(t: ProjectType): (r: string)
    ensures r in ProjectTypeNames
  {
    match t
    case Web => "web"
    case Mobile => "mobile"
    case Desktop => "desktop"
    case Other => "other"
  }

  /** The `projectType` enum check: exactly the four names are accepted. */
  function ParseProjectTypeName(s: string): (r: Option<ProjectType>)
    ensures r.Some? <==> s in ProjectTypeNames
    ensures r.Some? ==> ProjectTypeName(r.value) == s
  {
    if s == "web" then Some(Web)
    else if s == "mobile" then Some(Mobile)
    else if s == "desktop" then Some(Desktop)
    else if s == "other" then Some(Other)
    else None
  }

  lemma ProjectTypeNameRoundTrip(t: ProjectType)
    ensures ParseProjectTypeName(ProjectTypeName(t)) == Some(t)
  {
  }

  /** What the schema's validators demand of a stored record: the required
      strings are non-empty, `projectName` is stored trimmed, and every key
      feature is a non-empty string. No order is imposed on the two dates. */
  predicate WellFormed(q: Questionnaire) {
    && q.projectName != "" && Trimmed(q.projectName)
    && q.businessDescription != ""
    && q.targetAudience != ""
    && forall i :: 0 <= i < |q.keyFeatures| ==> q.keyFeatures[i] != ""
  }

  /** A required `String` path: present, a string, and not empty. */
  function ParseRequiredString(v: Option<Value>): (r: Parsed<string>)
    ensures r.Valid? <==> v.Some? && v.value.Str? && v.value.s != ""
    ensures r.Valid? ==> r.value == v.value.s
  {
    match v
    case Some(Str(s)) => if s != "" then Valid(s) else Invalid
    case _ => Invalid
  }

  /** `projectName`: trimmed by its setter, then required. */
  function ParseProjectName(v: Option<Value>): (r: Parsed<string>)
    ensures r.Valid? <==> v.Some? && v.value.Str? && Trim(v.value.s) != ""
    ensures r.Valid? ==> r.value == Trim(v.value.s) && Trimmed(r.value)
  {
    match v
    case Some(Str(s)) => if Trim(s) != "" then Valid(Trim(s)) else Invalid
    case _ => Invalid
  }

  function ParseProjectType(v: Option<Value>): (r: Parsed<ProjectType>)
    ensures r.Valid? <==> v.Some? && v.value.Str? && v.value.s in ProjectTypeNames
    ensures r.Valid? ==> ProjectTypeName(r.value) == v.value.s
  {
    match v
    case Some(Str(s)) => (match ParseProjectTypeName(s) case Some(t) => Valid(t) case None => Invalid)
    case _ => Invalid
  }

  /** A required `Number` or `Date` path. */
  function ParseNumber(v: Option<Value>): (r: Parsed<int>)
    ensures r.Valid? <==> v.Some? && v.value.Num?
    ensures r.Valid? ==> r.value == v.value.n
  {
    match v
    case Some(Num(n)) => Valid(n)
    case _ => Invalid
  }

  /** Every element is a string (and, for `nonEmpty`, a non-empty one). */
  predicate StringItems(items: seq<Value>, nonEmpty: bool) {
    forall i :: 0 <= i < |items| ==> items[i].Str? && (nonEmpty ==> items[i].s != "")
  }

  /** The strings of a JSON array, when every element is a string (and, for
      `nonEmpty`, a non-empty one). */
  function Strings(items: seq<Value>, nonEmpty: bool): (r: Option<seq<string>>)
    ensures r.Some? <==> StringItems(items, nonEmpty)
    ensures r.Some? ==> |r.value| == |items| && forall i :: 0 <= i < |items| ==> items[i] == Str(r.value[i])
    ensures r.Some? && nonEmpty ==> forall i :: 0 <= i < |r.value| ==> r.value[i] != ""
  {
    if items == [] then Some([])
    else
      assert forall i :: 1 <= i < |items| ==> items[1..][i - 1] == items[i];
      match items[0]
      case Str(s) =>
        if nonEmpty && s == "" then None
        else (match Strings(items[1..], nonEmpty) case Some(rest) => Some([s] + rest) case None => None)
      case _ => None
  }

  /** A JSON array of the given strings. */
  function StringArray(xs: seq<string>): (r: seq<Value>)
    ensures |r| == |xs| && forall i :: 0 <= i < |xs| ==> r[i] == Str(xs[i])
  {
    if xs == [] then [] else [Str(xs[0])] + StringArray(xs[1..])
  }

  lemma {:induction false} StringsOfArray(xs: seq<string>, nonEmpty: bool)
    requires nonEmpty ==> forall i :: 0 <= i < |xs| ==> xs[i] != ""
    ensures Strings(StringArray(xs), nonEmpty) == Some(xs)
  {
    if xs != [] {
      assert StringArray(xs)[1..] == StringArray(xs[1..]);
      StringsOfArray(xs[1..], nonEmpty);
      assert [xs[0]] + xs[1..] == xs;
    }
  }

  /** An array-of-strings path: unset means the empty array default. */
  function ParseStringList(v: Option<Value>, nonEmpty: bool): (r: Parsed<seq<string>>)
    ensures v.None? ==> r == Valid([])
    ensures v.Some? ==> (r.Valid? <==> v.value.Arr? && StringItems(v.value.items, nonEmpty))
    ensures r.Valid? && v.Some? ==>
      && v.value.Arr? && |r.value| == |v.value.items|
      && forall i :: 0 <= i < |r.value| ==> v.value.items[i] == Str(r.value[i])
    ensures r.Valid? && nonEmpty ==> forall i :: 0 <= i < |r.value| ==> r.value[i] != ""
  {
    match v
    case None => Valid([])
    case Some(Arr(items)) => (match Strings(items, nonEmpty) case Some(xs) => Valid(xs) case None => Invalid)
    case Some(_) => Invalid
  }

  /** `timeline`: both dates are required. */
  function ParseTimeline(v: Option<Value>): (r: Parsed<Timeline>)
    ensures r.Valid? <==>
      (v.Some? && v.value.Obj?
       && ParseNumber(Field(v.value.fields, "startDate")).Valid?
       && ParseNumber(Field(v.value.fields, "endDate")).Valid?)
    ensures r.Valid? ==>
      && Field(v.value.fields, "startDate") == Some(Num(r.value.startDate))
      && Field(v.value.fields, "endDate") == Some(Num(r.value.endDate))
  {
    match v
    case Some(Obj(f)) =>
      (match (ParseNumber(Field(f, "startDate")), ParseNumber(Field(f, "endDate")))
       case (Valid(a), Valid(b)) => Valid(Timeline(a, b))
       case _ => Invalid)
    case _ => Invalid
  }

  /** `technicalRequirements`: four independent optional string lists. */
  function ParseTechnical(v: Option<Value>): (r: Parsed<TechnicalRequirements>)
    ensures v.None? ==> r == Valid(TechnicalRequirements([], [], [], []))
    ensures v.Some? ==>
      (r.Valid? <==>
        && v.value.Obj?
        && ParseStringList(Field(v.value.fields, "frontend"), false).Valid?
        && ParseStringList(Field(v.value.fields, "backend"), false).Valid?
        && ParseStringList(Field(v.value.fields, "database"), false).Valid?
        && ParseStringList(Field(v.value.fields, "hosting"), false).Valid?)
    ensures r.Valid? && v.Some? ==>
      && r.value.frontend == ParseStringList(Field(v.value.fields, "frontend"), false).value
      && r.value.backend == ParseStringList(Field(v.value.fields, "backend"), false).value
      && r.value.database == ParseStringList(Field(v.value.fields, "database"), false).value
      && r.value.hosting == ParseStringList(Field(v.value.fields, "hosting"), false).value
  {
    match v
    case None => Valid(TechnicalRequirements([], [], [], []))
    case Some(Obj(f)) =>
      (match (ParseStringList(Field(f, "frontend"), false), ParseStringList(Field(f, "backend"), false),
              ParseStringList(Field(f, "database"), false), ParseStringList(Field(f, "hosting"), false))
       case (Valid(a), Valid(b), Valid(c), Valid(d)) => Valid(TechnicalRequirements(a, b, c, d))
       case _ => Invalid)
    case Some(_) => Invalid
  }

  /** `additionalNotes`: an optional string. */
  function ParseNotes(v: Option<Value>): (r: Parsed<Option<string>>)
    ensures v.None? ==> r == Valid(None)
    ensures v.Some? ==> (r.Valid? <==> v.value.Str?)
    ensures v.Some? && r.Valid? ==> r.value == Some(v.value.s)
  {
    match v
    case None => Valid(None)
    case Some(Str(s)) => Valid(Some(s))
    case Some(_) => Invalid
  }

  /** `status`: one of the four names, `pending` when not supplied. */
  function ParseStatus(v: Option<Value>): (r: Parsed<Status>)
    ensures v.None? ==> r == Valid(Pending)
    ensures v.Some? ==> (r.Valid? <==> v.value.Str? && v.value.s in StatusNames)
    ensures v.Some? && r.Valid? ==> StatusName(r.value) == v.value.s
  {
    match v
    case None => Valid(Pending)
    case Some(Str(s)) => (match ParseStatusName(s) case Some(st) => Valid(st) case None => Invalid)
    case Some(_) => Invalid
  }

  /** An optional `Number` or `Date` path: unset, or a number. */
  predicate NumberOrUnset(v: Option<Value>) {
    v.None? || v.value.Num?
  }

  /** The `createdAt` of a new document: the timestamps option fills it with
      `now` only when the document does not already carry one. */
  function ParseCreatedAt(v: Option<Value>, now: int): (r: Parsed<int>)
    ensures v.None? ==> r == Valid(now)
    ensures v.Some? ==> (r.Valid? <==> v.value.Num?)
    ensures v.Some? && r.Valid? ==> r.value == v.value.n
  {
    match v
    case None => Valid(now)
    case Some(Num(c)) => Valid(c)
    case Some(_) => Invalid
  }

  /** `adminFeedback`: message and `updatedAt` optional, `createdAt` defaulting to now. */
  function ParseFeedback(v: Option<Value>, now: int): (r: Parsed<AdminFeedback>)
    ensures v.None? ==> r == Valid(AdminFeedback(None, now, None))
    ensures v.Some? ==>
      (r.Valid? <==>
        && v.value.Obj?
        && ParseNotes(Field(v.value.fields, "message")).Valid?
        && NumberOrUnset(Field(v.value.fields, "createdAt"))
        && NumberOrUnset(Field(v.value.fields, "updatedAt")))
    ensures r.Valid? && v.Some? && v.value.Obj? ==>
      var f := v.value.fields;
      && r.value.message == ParseNotes(Field(f, "message")).value
      && (Field(f, "createdAt").None? ==> r.value.createdAt == now)
      && (Field(f, "createdAt").Some? ==> Field(f, "createdAt") == Some(Num(r.value.createdAt)))
      && (r.value.updatedAt.None? <==> Field(f, "updatedAt").None?)
      && (r.value.updatedAt.Some? ==> Field(f, "updatedAt") == Some(Num(r.value.updatedAt.value)))
  {
    match v
    case None => Valid(AdminFeedback(None, now, None))
    case Some(Obj(f)) =>
      var message := ParseNotes(Field(f, "message"));
      var createdAt := match Field(f, "createdAt") case None => Valid(now) case Some(c) => ParseNumber(Some(c));
      var updatedAt := match Field(f, "updatedAt") case None => Valid(None) case Some(u) =>
        (match ParseNumber(Some(u)) case Valid(n) => Valid(Some(n)) case Invalid => Invalid);
      (match (message, createdAt, updatedAt)
       case (Valid(m), Valid(c), Valid(u)) => Valid(AdminFeedback(m, c, u))
       case _ => Invalid)
    case Some(_) => Invalid
  }

  /** `new Questionnaire(doc)` followed by `save()`: cast every schema path
      from `doc`, apply the defaults, and validate. The timestamps option
      keeps a `createdAt` the document carries and stamps `now` otherwise;
      `updatedAt` of a new document copies `createdAt`. Keys the schema does
      not declare are dropped; the owner is the one given, whatever `doc`
      says under `user`. */
  function Construct(id: ObjectId, owner: ObjectId, doc: Body, now: int): (r: Parsed<Questionnaire>)
    ensures r.Valid? <==>
      && ParseProjectName(Field(doc, "projectName")).Valid?
      && ParseProjectType(Field(doc, "projectType")).Valid?
      && ParseRequiredString(Field(doc, "businessDescription")).Valid?
      && ParseRequiredString(Field(doc, "targetAudience")).Valid?
      && ParseStringList(Field(doc, "keyFeatures"), true).Valid?
      && ParseNumber(Field(doc, "budget")).Valid?
      && ParseTimeline(Field(doc, "timeline")).Valid?
      && ParseTechnical(Field(doc, "technicalRequirements")).Valid?
      && ParseNotes(Field(doc, "additionalNotes")).Valid?
      && ParseStatus(Field(doc, "status")).Valid?
      && ParseFeedback(Field(doc, "adminFeedback"), now).Valid?
      && ParseCreatedAt(Field(doc, "createdAt"), now).Valid?
    ensures
      || Field(doc, "projectName").None? || Field(doc, "projectType").None?
      || Field(doc, "businessDescription").None? || Field(doc, "targetAudience").None?
      || Field(doc, "budget").None? || Field(doc, "timeline").None?
      ==> r.Invalid?
    ensures r.Valid? ==> WellFormed(r.value)
    ensures r.Valid? ==> r.value.id == id && r.value.user == owner
    ensures r.Valid? ==> r.value.updatedAt == r.value.createdAt
    ensures r.Valid? && Field(doc, "createdAt").None? ==> r.value.createdAt == now
    ensures r.Valid? && Field(doc, "createdAt").Some? ==> Field(doc, "createdAt") == Some(Num(r.value.createdAt))
    ensures r.Valid? && Field(doc, "status").None? ==> r.value.status == Pending
  {
    match (ParseProjectName(Field(doc, "projectName")), ParseProjectType(Field(doc, "projectType")),
           ParseRequiredString(Field(doc, "businessDescription")), ParseRequiredString(Field(doc, "targetAudience")),
           ParseStringList(Field(doc, "keyFeatures"), true), ParseNumber(Field(doc, "budget")),
           ParseTimeline(Field(doc, "timeline")), ParseTechnical(Field(doc, "technicalRequirements")),
           ParseNotes(Field(doc, "additionalNotes")), ParseStatus(Field(doc, "status")),
           ParseFeedback(Field(doc, "adminFeedback"), now), ParseCreatedAt(Field(doc, "createdAt"), now))
    case (Valid(name), Valid(kind), Valid(business), Valid(audience), Valid(features), Valid(budget),
          Valid(timeline), Valid(tech), Valid(notes), Valid(status), Valid(feedback), Valid(created)) =>
      Valid(Questionnaire(id, owner, name, kind, business, audience, features, budget, timeline,
                          tech, notes, status, feedback, created, created))
    case _ => Invalid
  }

  function TimelineJson(t: Timeline): Value {
    Obj(map["startDate" := Num(t.startDate), "endDate" := Num(t.endDate)])
  }

  function TechnicalJson(tr: TechnicalRequirements): Value {
    Obj(map[
      "frontend" := Arr(StringArray(tr.frontend)),
      "backend" := Arr(StringArray(tr.backend)),
      "database" := Arr(StringArray(tr.database)),
      "hosting" := Arr(StringArray(tr.hosting))])
  }

  function FeedbackJson(f: AdminFeedback): Value {
    Obj(map["createdAt" := Num(f.createdAt)]
      + (match f.message case Some(m) => map["message" := Str(m)] case None => map[])
      + (match f.updatedAt case Some(u) => map["updatedAt" := Num(u)] case None => map[]))
  }

  /** The JSON a client submits for a record: every schema path, as the
      record holds it. */
  function Submission(q: Questionnaire): Body {
    map[
      "projectName" := Str(q.projectName),
      "projectType" := Str(ProjectTypeName(q.projectType)),
      "businessDescription" := Str(q.businessDescription),
      "targetAudience" := Str(q.targetAudience),
      "keyFeatures" := Arr(StringArray(q.keyFeatures)),
      "budget" := Num(q.budget),
      "timeline" := TimelineJson(q.timeline),
      "technicalRequirements" := TechnicalJson(q.technicalRequirements),
      "status" := Str(StatusName(q.status)),
      "adminFeedback" := FeedbackJson(q.adminFeedback)]
    + (match q.additionalNotes case Some(n) => map["additionalNotes" := Str(n)] case None => map[])
  }

  /** Submitting a well-formed record's own fields constructs that record back:
      what is stored is exactly what was sent, stamped with the time of saving. */
  lemma ConstructSubmission(q: Questionnaire, now: int)
    requires WellFormed(q)
    ensures Construct(q.id, q.user, Submission(q), now) == Valid(q.(createdAt := now, updatedAt := now))
  {
    SubmissionName(q);
    SubmissionType(q);
    SubmissionStrings(q);
    SubmissionFeatures(q);
    SubmissionBudget(q);
    SubmissionTimeline(q);
    SubmissionTechnical(q);
    SubmissionNotes(q);
    SubmissionStatus(q);
    SubmissionFeedback(q, now);
    SubmissionCreatedAt(q, now);
    ConstructFromParts(q.id, q.user, Submission(q), now, q.(createdAt := now, updatedAt := now));
  }

  /** A document whose every path casts to a record's own field constructs that record. */
  lemma ConstructFromParts(id: ObjectId, owner: ObjectId, doc: Body, now: int, q: Questionnaire)
    requires q.id == id && q.user == owner && q.updatedAt == q.createdAt
    requires ParseProjectName(Field(doc, "projectName")) == Valid(q.projectName)
    requires ParseProjectType(Field(doc, "projectType")) == Valid(q.projectType)
    requires ParseRequiredString(Field(doc, "businessDescription")) == Valid(q.businessDescription)
    requires ParseRequiredString(Field(doc, "targetAudience")) == Valid(q.targetAudience)
    requires ParseStringList(Field(doc, "keyFeatures"), true) == Valid(q.keyFeatures)
    requires ParseNumber(Field(doc, "budget")) == Valid(q.budget)
    requires ParseTimeline(Field(doc, "timeline")) == Valid(q.timeline)
    requires ParseTechnical(Field(doc, "technicalRequirements")) == Valid(q.technicalRequirements)
    requires ParseNotes(Field(doc, "additionalNotes")) == Valid(q.additionalNotes)
    requires ParseStatus(Field(doc, "status")) == Valid(q.status)
    requires ParseFeedback(Field(doc, "adminFeedback"), now) == Valid(q.adminFeedback)
    requires ParseCreatedAt(Field(doc, "createdAt"), now) == Valid(q.createdAt)
    ensures Construct(id, owner, doc, now) == Valid(q)
  {
  }

  lemma SubmissionCreatedAt(q: Questionnaire, now: int)
    ensures ParseCreatedAt(Field(Submission(q), "createdAt"), now) == Valid(now)
  {
    assert "createdAt" !in Submission(q);
  }

  lemma SubmissionName(q: Questionnaire)
    requires WellFormed(q)
    ensures ParseProjectName(Field(Submission(q), "projectName")) == Valid(q.projectName)
  {
    assert Field(Submission(q), "projectName") == Some(Str(q.projectName));
    TrimmedIsFixed(q.projectName);
  }

  lemma SubmissionType(q: Questionnaire)
    ensures ParseProjectType(Field(Submission(q), "projectType")) == Valid(q.projectType)
  {
    assert Field(Submission(q), "projectType") == Some(Str(ProjectTypeName(q.projectType)));
    ProjectTypeNameRoundTrip(q.projectType);
  }

  lemma SubmissionStrings(q: Questionnaire)
    requires WellFormed(q)
    ensures ParseRequiredString(Field(Submission(q), "businessDescription")) == Valid(q.businessDescription)
    ensures ParseRequiredString(Field(Submission(q), "targetAudience")) == Valid(q.targetAudience)
  {
    assert Field(Submission(q), "businessDescription") == Some(Str(q.businessDescription));
    assert Field(Submission(q), "targetAudience") == Some(Str(q.targetAudience));
  }

  lemma SubmissionFeatures(q: Questionnaire)
    requires WellFormed(q)
    ensures ParseStringList(Field(Submission(q), "keyFeatures"), true) == Valid(q.keyFeatures)
  {
    assert Field(Submission(q), "keyFeatures") == Some(Arr(StringArray(q.keyFeatures)));
    StringsOfArray(q.keyFeatures, true);
  }

  lemma SubmissionBudget(q: Questionnaire)
    ensures ParseNumber(Field(Submission(q), "budget")) == Valid(q.budget)
  {
    assert Field(Submission(q), "budget") == Some(Num(q.budget));
  }

  lemma SubmissionTimeline(q: Questionnaire)
    ensures ParseTimeline(Field(Submission(q), "timeline")) == Valid(q.timeline)
  {
    assert Field(Submission(q), "timeline") == Some(TimelineJson(q.timeline));
  }

  lemma SubmissionTechnical(q: Questionnaire)
    ensures ParseTechnical(Field(Submission(q), "technicalRequirements")) == Valid(q.technicalRequirements)
  {
    var tr := q.technicalRequirements;
    assert Field(Submission(q), "technicalRequirements") == Some(TechnicalJson(tr));
    TechnicalRoundTrip(tr);
  }

  lemma TechnicalRoundTrip(tr: TechnicalRequirements)
    ensures ParseTechnical(Some(TechnicalJson(tr))) == Valid(tr)
  {
    var f := TechnicalJson(tr).fields;
    assert Field(f, "frontend") == Some(Arr(StringArray(tr.frontend)));
    assert Field(f, "backend") == Some(Arr(StringArray(tr.backend)));
    assert Field(f, "database") == Some(Arr(StringArray(tr.database)));
    assert Field(f, "hosting") == Some(Arr(StringArray(tr.hosting)));
    ListRoundTrip(tr.frontend);
    ListRoundTrip(tr.backend);
    ListRoundTrip(tr.database);
    ListRoundTrip(tr.hosting);
  }

  lemma ListRoundTrip(xs: seq<string>)
    ensures ParseStringList(Some(Arr(StringArray(xs))), false) == Valid(xs)
  {
    StringsOfArray(xs, false);
  }

  lemma SubmissionNotes(q: Questionnaire)
    ensures ParseNotes(Field(Submission(q), "additionalNotes")) == Valid(q.additionalNotes)
  {
  }

  lemma SubmissionStatus(q: Questionnaire)
    ensures ParseStatus(Field(Submission(q), "status")) == Valid(q.status)
  {
    assert Field(Submission(q), "status") == Some(Str(StatusName(q.status)));
    StatusNameRoundTrip(q.status);
  }

  lemma SubmissionFeedback(q: Questionnaire, now: int)
    ensures ParseFeedback(Field(Submission(q), "adminFeedback"), now) == Valid(q.adminFeedback)
  {
    assert Field(Submission(q), "adminFeedback") == Some(FeedbackJson(q.adminFeedback));
    FeedbackRoundTrip(q.adminFeedback, now);
  }

  lemma FeedbackRoundTrip(fb: AdminFeedback, now: int)
    ensures ParseFeedback(Some(FeedbackJson(fb)), now) == Valid(fb)
  {
    var f := FeedbackJson(fb).fields;
    assert Field(f, "createdAt") == Some(Num(fb.createdAt));
    assert Field(f, "message") == (match fb.message case Some(m) => Some(Str(m)) case None => None);
    assert Field(f, "updatedAt") == (match fb.updatedAt case Some(u) => Some(Num(u)) case None => None);
  }

  /** `save()` on a loaded document: when nothing was modified no write
      happens and `updatedAt` keeps its value; otherwise it becomes `now`. */
  function Touch(before: Questionnaire, after: Questionnaire, now: int): (r: Questionnaire)
    ensures r.(updatedAt := after.updatedAt) == after
    ensures r.updatedAt == if after == before then before.updatedAt else now
  {
    if after == before then before else after.(updatedAt := now)
  }

  /** What a successful construction takes from each path of the document. */
  lemma ConstructParts(id: ObjectId, owner: ObjectId, doc: Body, now: int)
    ensures var r := Construct(id, owner, doc, now);
      r.Valid? ==>
        && r.value.projectName == ParseProjectName(Field(doc, "projectName")).value
        && r.value.projectType == ParseProjectType(Field(doc, "projectType")).value
        && r.value.businessDescription == ParseRequiredString(Field(doc, "businessDescription")).value
        && r.value.targetAudience == ParseRequiredString(Field(doc, "targetAudience")).value
        && r.value.keyFeatures == ParseStringList(Field(doc, "keyFeatures"), true).value
        && r.value.budget == ParseNumber(Field(doc, "budget")).value
        && r.value.timeline == ParseTimeline(Field(doc, "timeline")).value
        && r.value.technicalRequirements == ParseTechnical(Field(doc, "technicalRequirements")).value
        && r.value.additionalNotes == ParseNotes(Field(doc, "additionalNotes")).value
        && r.value.status == ParseStatus(Field(doc, "status")).value
        && r.value.adminFeedback == ParseFeedback(Field(doc, "adminFeedback"), now).value
        && r.value.createdAt == ParseCreatedAt(Field(doc, "createdAt"), now).value
  {
  }

  /** A `user` key in the submitted JSON has no effect on the record. */
  lemma ConstructIgnoresUserKey(id: ObjectId, owner: ObjectId, doc: Body, v: Value, now: int)
    ensures Construct(id, owner, doc["user" := v], now) == Construct(id, owner, doc, now)
  {
    var doc' := doc["user" := v];
    assert forall k :: k != "user" ==> Field(doc', k) == Field(doc, k);
  }
}
