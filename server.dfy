/** The request pipeline of the routers: registration is public; every
    other endpoint runs `authenticate` first, the admin endpoints then run
    `isAdmin`, and only a request that passes both reaches its handler. */
module Server {
  import opened Json
  import opened UserModel
  import opened Responses
  import Database
  import AuthMiddleware
  import QuestionnaireRoutes
  import UsersRoutes
  import AdminRoutes
  import AuthRoutes

  /** An endpoint with its parameters, already parsed from the path, query and body. */
  datatype Route =
    | RegisterUser(identity: Option<AuthRoutes.IdentityRecord>)
    | GetProfile
    | PatchProfile(profileBody: Body)
    | DeleteProfile(identityDeleted: bool)
    | CreateQuestionnaire(createBody: Body)
    | ListMyQuestionnaires
    | GetQuestionnaire(getId: ObjectId)
    | UpdateQuestionnaire(updateId: ObjectId, updateBody: Body)
    | DeleteQuestionnaire(deleteId: ObjectId)
    | AdminListQuestionnaires(status: Option<string>, page: Option<int>, limit: Option<int>)
    | AdminGetQuestionnaire(adminGetId: ObjectId)
    | AdminUpdateQuestionnaire(adminUpdateId: ObjectId, adminBody: Body)
    | GetNotifications
    | MarkNotificationRead(readId: ObjectId)
    | DeleteNotification(removeId: ObjectId)
    | MarkAllNotificationsRead
    | UnreadNotificationCount
    | UpdateLastLogin
    | ListUsers(search: Option<string>, userPage: Option<int>, userLimit: Option<int>)
    | GetAnalytics(monthOf: int -> YearMonth)
    | SetRole(roleId: ObjectId, roleBody: Body)
    | DeleteUser(userId: ObjectId)
    | GetUserDetail(detailId: ObjectId)

  predicate IsPublic(r: Route) {
    r.RegisterUser?
  }

  /** The endpoints mounted with `isAdmin`. */
  predicate IsAdminRoute(r: Route) {
    || r.AdminListQuestionnaires? || r.AdminGetQuestionnaire? || r.AdminUpdateQuestionnaire?
    || r.ListUsers? || r.GetAnalytics? || r.SetRole? || r.DeleteUser? || r.GetUserDetail?
  }

  /** The response the middleware chain sends before any handler runs, if any. */
  function Gate(header: Option<string>, verify: AuthMiddleware.Verifier,
                users: map<ObjectId, User>, n: nat, route: Route): (r: Option<Response>)
    ensures IsPublic(route) ==> r.None?
    ensures !IsPublic(route) && AuthMiddleware.Authenticate(header, verify, users, n).Reject? ==>
      r == Some(AuthMiddleware.Authenticate(header, verify, users, n).response)
    ensures r.None? && !IsPublic(route) ==> AuthMiddleware.Authenticate(header, verify, users, n).Next?
    ensures r.None? && IsAdminRoute(route) ==> AuthMiddleware.Authenticate(header, verify, users, n).user.isAdmin
    ensures r.Some? ==> StatusCode(r.value) in {401, 403, 404}
    ensures !IsPublic(route) && AuthMiddleware.Authenticate(header, verify, users, n).Next? && !IsAdminRoute(route) ==>
      r.None?
    ensures !IsPublic(route) && AuthMiddleware.Authenticate(header, verify, users, n).Next? && IsAdminRoute(route) ==>
      && (r.None? <==> AuthMiddleware.Authenticate(header, verify, users, n).user.isAdmin)
      && (r.Some? ==> r.value == Forbidden(AdminRequired))
  {
    if IsPublic(route) then None
    else match AuthMiddleware.Authenticate(header, verify, users, n)
      case Reject(resp) => Some(resp)
      case Next(u, _) => if IsAdminRoute(route) then AuthMiddleware.AdminGate(u) else None
  }

  /** One request end to end. A request the middleware rejects changes
      nothing; one that passes reaches exactly its handler, with the
      authenticated user as caller. */
  method Handle(s: Database.Store, req: AuthMiddleware.Request, verify: AuthMiddleware.Verifier,
                route: Route, now: int) returns (resp: Response)
    requires s.Valid()
    modifies s, req
    ensures s.Valid()
    ensures var g := Gate(req.authorization, verify, old(s.users), old(s.nextId), route);
      g.Some? ==>
        && resp == g.value
        && s.users == old(s.users) && s.questionnaires == old(s.questionnaires) && s.nextId == old(s.nextId)
  {
    if route.RegisterUser? {
      resp := AuthRoutes.Register(s, route.identity, now);
      return;
    }
    var rejected := AuthMiddleware.RunAuthenticate(req, verify, s.users, s.nextId);
    if rejected.Some? {
      return rejected.value;
    }
    if IsAdminRoute(route) {
      var denied := AuthMiddleware.RunIsAdmin(req);
      if denied.Some? {
        return denied.value;
      }
    }
    resp := Dispatch(s, req.user.value.id, route, now);
  }

  /** The handler a route names, run for an authenticated caller. */
  method Dispatch(s: Database.Store, caller: ObjectId, route: Route, now: int) returns (resp: Response)
    requires s.Valid() && !IsPublic(route)
    modifies s
    ensures s.Valid()
  {
    if IsAdminRoute(route) {
      resp := DispatchAdmin(s, route, now);
    } else if route.GetProfile? || route.PatchProfile? || route.DeleteProfile? {
      resp := DispatchAccount(s, caller, route, now);
    } else if route.CreateQuestionnaire? || route.ListMyQuestionnaires? || route.GetQuestionnaire?
           || route.UpdateQuestionnaire? || route.DeleteQuestionnaire? {
      resp := DispatchQuestionnaire(s, caller, route, now);
    } else {
      resp := DispatchNotifications(s, caller, route, now);
    }
  }

  method DispatchAccount(s: Database.Store, caller: ObjectId, route: Route, now: int) returns (resp: Response)
    requires s.Valid() && (route.GetProfile? || route.PatchProfile? || route.DeleteProfile?)
    modifies s
    ensures s.Valid()
  {
    match route {
      case GetProfile => resp := AuthRoutes.ProfileGet(s.users, s.questionnaires, caller);
      case PatchProfile(body) => resp := AuthRoutes.ProfilePatch(s, caller, body, now);
      case DeleteProfile(deleted) => resp := AuthRoutes.ProfileDelete(s, caller, deleted);
    }
  }

  method DispatchQuestionnaire(s: Database.Store, caller: ObjectId, route: Route, now: int) returns (resp: Response)
    requires s.Valid()
    requires || route.CreateQuestionnaire? || route.ListMyQuestionnaires? || route.GetQuestionnaire?
             || route.UpdateQuestionnaire? || route.DeleteQuestionnaire?
    modifies s
    ensures s.Valid()
  {
    match route {
      case CreateQuestionnaire(body) => resp := QuestionnaireRoutes.Create(s, caller, body, now);
      case ListMyQuestionnaires => resp := QuestionnaireRoutes.ListMine(s.questionnaires, s.nextId, caller);
      case GetQuestionnaire(id) => resp := QuestionnaireRoutes.GetMine(s.questionnaires, caller, id);
      case UpdateQuestionnaire(id, body) => resp := QuestionnaireRoutes.Update(s, caller, id, body, now);
      case DeleteQuestionnaire(id) => resp := QuestionnaireRoutes.Delete(s, caller, id, now);
    }
  }

  method DispatchNotifications(s: Database.Store, caller: ObjectId, route: Route, now: int) returns (resp: Response)
    requires s.Valid()
    requires || route.GetNotifications? || route.MarkNotificationRead? || route.DeleteNotification?
             || route.MarkAllNotificationsRead? || route.UnreadNotificationCount? || route.UpdateLastLogin?
    modifies s
    ensures s.Valid()
  {
    match route {
      case GetNotifications => resp := UsersRoutes.GetNotifications(s.users, caller);
      case MarkNotificationRead(id) => resp := UsersRoutes.MarkNotificationRead(s, caller, id, now);
      case DeleteNotification(id) => resp := UsersRoutes.DeleteNotification(s, caller, id, now);
      case MarkAllNotificationsRead => resp := UsersRoutes.MarkAllNotificationsRead(s, caller, now);
      case UnreadNotificationCount => resp := UsersRoutes.UnreadCountOf(s.users, caller);
      case UpdateLastLogin => resp := UsersRoutes.UpdateLastLogin(s, caller, now);
    }
  }

  method DispatchAdmin(s: Database.Store, route: Route, now: int) returns (resp: Response)
    requires s.Valid() && IsAdminRoute(route)
    modifies s
    ensures s.Valid()
  {
    match route {
      case AdminListQuestionnaires(status, page, limit) =>
        resp := QuestionnaireRoutes.ListAll(s.users, s.questionnaires, s.nextId, status, page, limit);
      case AdminGetQuestionnaire(id) => resp := QuestionnaireRoutes.AdminGet(s.users, s.questionnaires, id);
      case AdminUpdateQuestionnaire(id, body) => resp := QuestionnaireRoutes.AdminUpdate(s, id, body, now);
      case ListUsers(search, page, limit) => resp := AdminRoutes.ListUsers(s.users, s.nextId, search, page, limit);
      case GetAnalytics(monthOf) => resp := AdminRoutes.AnalyticsOf(s.users, s.questionnaires, s.nextId, monthOf);
      case SetRole(id, body) => resp := AdminRoutes.SetRole(s, id, body, now);
      case DeleteUser(id) => resp := AdminRoutes.DeleteUser(s, id);
      case GetUserDetail(id) => resp := AdminRoutes.UserDetailOf(s.users, s.questionnaires, s.nextId, id);
    }
  }
}
