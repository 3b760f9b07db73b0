/** What a route handler sends back: a status code with a JSON payload, or a
    thrown error handed to `next`. */
module Responses {
  import opened Json
  import opened QuestionnaireModel
  import opened UserModel

  /** A populated `user` reference: `populate('user', 'email displayName')`. */
  datatype OwnerSummary = OwnerSummary(id: ObjectId, email: string, displayName: string)

  /** A questionnaire as the admin endpoints send it: the record with
      `submittedBy` and `submittedAt` added. */
  datatype Submitted = Submitted(questionnaire: Questionnaire, submittedBy: OwnerSummary, submittedAt: int)

  /** A recent questionnaire with its populated owner, null when the owner is gone. */
  datatype Recent = Recent(questionnaire: Questionnaire, user: Option<OwnerSummary>)

  datatype YearMonth = YearMonth(year: int, month: int)

  /** One group of the registration statistics. */
  datatype MonthCount = MonthCount(month: YearMonth, count: nat)

  /** JSON bodies of successful responses. A user is always rendered through
      its `toJSON`, which drops `__v`. */
  datatype Payload =
    | UserDoc(user: User)
    | NullDoc
    | QuestionnaireDoc(questionnaire: Questionnaire)
    | QuestionnaireList(questionnaires: seq<Questionnaire>)
    | NotificationList(notifications: seq<Notification>)
    | Unread(unreadCount: nat)
    | Message(message: string)
    | Registered(message: string, user: User)
    | Profile(user: User, questionnaires: seq<Questionnaire>)
    | SubmittedPage(items: seq<Submitted>, total: nat, pages: Option<int>, currentPage: int)
    | SubmittedDoc(item: Submitted)
    | UserPage(users: seq<User>, total: nat, pages: Option<int>, currentPage: int)
    | Analytics(totalUsers: nat, totalQuestionnaires: nat, statusCount: map<Status, nat>,
                recent: seq<Recent>, registrations: seq<MonthCount>)
    | UserDetail(user: User, questionnaires: seq<Questionnaire>)

  datatype Response =
    | Ok(payload: Payload)
    | Created(payload: Payload)
    | BadRequest(error: string)
    | Unauthenticated(error: string)
    | Forbidden(error: string)
    | NotFound(error: string)
    | ServerError(error: string)
    /** An exception passed to `next(error)`: a failed validation, a cast
        error, a duplicate key, or a property read on null. */
    | Unhandled

  function StatusCode(r: Response): (code: int)
    ensures 200 <= code < 600
  {
    match r
    case Ok(_) => 200
    case Created(_) => 201
    case BadRequest(_) => 400
    case Unauthenticated(_) => 401
    case Forbidden(_) => 403
    case NotFound(_) => 404
    case ServerError(_) => 500
    case Unhandled => 500
  }

  const NoTokenProvided := "No token provided"
  const InvalidToken := "Invalid token"
  const UserNotFound := "User not found"
  const AdminRequired := "Access denied. Admin privileges required."
  const InternalError := "Internal server error"
  const QuestionnaireNotFound := "Questionnaire not found"
  const ReviewStarted := "Cannot update questionnaire after review has started"
  const NoValidUpdates := "No valid updates provided"
  const CannotDelete := "Questionnaire not found or cannot be deleted"
  const QuestionnaireDeleted := "Questionnaire deleted successfully"
  const NotificationNotFound := "Notification not found"
  const IsAdminNotBoolean := "isAdmin must be a boolean value"
  const UserDeleted := "User and associated data deleted successfully"
  const UserCreated := "User created successfully"
  const AccountDeleted := "User account deleted successfully"
}
