/** The admin endpoints (src/routes/admin.js): the paginated user search,
    the analytics summary, the role toggle, the cascading user delete and
    the user detail. Every handler runs after `authenticate` and `isAdmin`. */
module AdminRoutes {
  import opened Json
  import opened Text
  import opened Ordering
  import opened QuestionnaireModel
  import opened UserModel
  import opened Responses
  import Database
  import QuestionnaireRoutes

  function UserCreatedAt(u: User): int {
    u.createdAt
  }

  /** The `$or` of two case-insensitive matches on `email` and `displayName`,
      applied only when `search` is a non-empty string. */
  predicate SearchMatches(search: Option<string>, u: User) {
    search.None? || search.value == ""
    || ContainsIgnoringCase(u.email, search.value) || ContainsIgnoringCase(u.displayName, search.value)
  }

  /** The search ignores letter case, and searching for a user's own email
      or display name finds that user; no search finds everyone. */
  lemma SearchMatchesFacts(search: string, u: User)
    ensures SearchMatches(Some(search), u) <==> SearchMatches(Some(Lower(search)), u)
    ensures SearchMatches(Some(u.email), u) && SearchMatches(Some(u.displayName), u)
    ensures SearchMatches(None, u) && SearchMatches(Some(""), u)
  {
    LowerIdempotent(search);
    assert OccursAt(Lower(u.email), Lower(u.email), 0);
    assert OccursAt(Lower(u.displayName), Lower(u.displayName), 0);
  }

  function SearchFilter(search: Option<string>): User -> bool {
    (u: User) => SearchMatches(search, u)
  }

  /** The matching users in the order the list pages through them: newest first. */
  function UserListing(users: map<ObjectId, User>, n: nat, search: Option<string>): seq<User> {
    SortNewestFirst(Filter(Entries(users, n), SearchFilter(search)), UserCreatedAt)
  }

  /** GET /users: the matching users, newest first, one page of them, and
      the same page arithmetic as the questionnaire list. */
  function ListUsers(users: map<ObjectId, User>, n: nat, search: Option<string>,
                     page: Option<int>, limit: Option<int>): (r: Response)
    ensures var pg := QuestionnaireRoutes.OrDefault(page, 1);
      var lim := QuestionnaireRoutes.OrDefault(limit, 10);
      && (r.Ok? <==> Offset(pg, lim) >= 0)
      && (!r.Ok? ==> r == Unhandled)
      && (r.Ok? ==>
        var p := r.payload;
        && p.UserPage?
        && p.currentPage == pg
        && p.total == |KeysWhere(users, n, SearchFilter(search))|
        && p.pages == Pages(p.total, lim)
        && (lim != 0 ==> |p.users| <= Abs(lim))
        && (forall i :: 0 <= i < |p.users| ==> p.users[i] in users.Values && SearchMatches(search, p.users[i]))
        && NewestFirst(p.users, UserCreatedAt)
        && p.users == Paginate(UserListing(users, n, search), pg, lim).value)
  {
    var pg := QuestionnaireRoutes.OrDefault(page, 1);
    var lim := QuestionnaireRoutes.OrDefault(limit, 10);
    var p := SearchFilter(search);
    var matches := Filter(Entries(users, n), p);
    var sorted := SortNewestFirst(matches, UserCreatedAt);
    match Paginate(sorted, pg, lim)
    case None => Unhandled
    case Some(window) =>
      PageOfMatches(users, n, p, UserCreatedAt, sorted, window, pg, lim);
      FilterEntriesCount(users, n, p);
      Ok(UserPage(window, |matches|, Pages(|matches|, lim), pg))
  }

  /** With a positive limit, every matching user appears on one of the
      pages 1 .. pages. */
  lemma EveryMatchOnSomePage(users: map<ObjectId, User>, n: nat, search: Option<string>, limit: int, k: ObjectId)
    requires limit > 0 && k in users && k < n && SearchMatches(search, users[k])
    ensures exists page ::
      var r := ListUsers(users, n, search, Some(page), Some(limit));
      && 1 <= page && r.Ok? && r.payload.pages.Some? && page <= r.payload.pages.value
      && users[k] in r.payload.users
  {
    var p := SearchFilter(search);
    var matches := Filter(Entries(users, n), p);
    var sorted := SortNewestFirst(matches, UserCreatedAt);
    EntriesComplete(users, n, k);
    FilterMembership(Entries(users, n), p, users[k]);
    SortedMembership(matches, UserCreatedAt, users[k]);
    var i :| 0 <= i < |sorted| && sorted[i] == users[k];
    PageOfRecord(sorted, limit, i);
    var page := i / limit + 1;
    FilterEntriesCount(users, n, p);
    assert Paginate(sorted, page, limit) == Some(Window(sorted, Offset(page, limit), limit));
    var r := ListUsers(users, n, search, Some(page), Some(limit));
    assert r.payload.users == Window(sorted, Offset(page, limit), limit);
  }

  // Analytics

  const AllStatuses: set<Status> := {Pending, Reviewed, InProgress, Completed}

  /** The ids of the questionnaires in one status group. */
  function WithStatus(qs: map<ObjectId, Questionnaire>, st: Status): set<ObjectId> {
    set k | k in qs && qs[k].status == st
  }

  /** The `$group` by status folded into an object by the `reduce`: one
      entry per status that some questionnaire has, holding its count. */
  function StatusCounts(qs: map<ObjectId, Questionnaire>): (r: map<Status, nat>)
    ensures forall st :: st in r <==> exists k :: k in qs && qs[k].status == st
    ensures forall st :: st in r ==> r[st] == |WithStatus(qs, st)| && r[st] > 0
  {
    var r := map st | st in AllStatuses && |WithStatus(qs, st)| > 0 :: |WithStatus(qs, st)|;
    forall st
      ensures st in r <==> exists k :: k in qs && qs[k].status == st
    {
      if exists k :: k in qs && qs[k].status == st {
        var k :| k in qs && qs[k].status == st;
        assert k in WithStatus(qs, st);
      }
      if st in r {
        var k :| k in WithStatus(qs, st);
      }
    }
    r
  }

  function CountOr0(m: map<Status, nat>, st: Status): nat {
    if st in m then m[st] else 0
  }

  /** The sum of the counts in a status-count object. */
  function SumOfCounts(m: map<Status, nat>): nat {
    CountOr0(m, Pending) + CountOr0(m, Reviewed) + CountOr0(m, InProgress) + CountOr0(m, Completed)
  }

  /** The status groups partition the collection, so their counts add up to
      `totalQuestionnaires`. */
  lemma StatusCountsSum(qs: map<ObjectId, Questionnaire>)
    ensures SumOfCounts(StatusCounts(qs)) == |qs|
  {
    var m := StatusCounts(qs);
    var a, b, c, d := WithStatus(qs, Pending), WithStatus(qs, Reviewed), WithStatus(qs, InProgress), WithStatus(qs, Completed);
    assert CountOr0(m, Pending) == |a| by { if |a| > 0 { var k :| k in a; } }
    assert CountOr0(m, Reviewed) == |b| by { if |b| > 0 { var k :| k in b; } }
    assert CountOr0(m, InProgress) == |c| by { if |c| > 0 { var k :| k in c; } }
    assert CountOr0(m, Completed) == |d| by { if |d| > 0 { var k :| k in d; } }
    assert a * b == {} && (a + b) * c == {} && (a + b + c) * d == {};
    assert |a + b| == |a| + |b|;
    assert |a + b + c| == |a + b| + |c|;
    assert |a + b + c + d| == |a + b + c| + |d|;
    assert a + b + c + d == qs.Keys by {
      forall k | k in qs
        ensures k in a + b + c + d
      {
        match qs[k].status
        case Pending => assert k in a;
        case Reviewed => assert k in b;
        case InProgress => assert k in c;
        case Completed => assert k in d;
      }
    }
  }

  /** A recent questionnaire with `populate('user', 'email displayName')`:
      the owner's summary, or null once the owner is gone. */
  function Populated(users: map<ObjectId, User>, q: Questionnaire): (r: Recent)
    ensures r.questionnaire == q
    ensures r.user.Some? <==> q.user in users
    ensures r.user.Some? ==> r.user.value == QuestionnaireRoutes.Summary(users[q.user])
  {
    Recent(q, if q.user in users then Some(QuestionnaireRoutes.Summary(users[q.user])) else None)
  }

  function PopulateAll(users: map<ObjectId, User>, qs: seq<Questionnaire>): (r: seq<Recent>)
    ensures |r| == |qs| && forall i :: 0 <= i < |qs| ==> r[i] == Populated(users, qs[i])
  {
    if qs == [] then [] else [Populated(users, qs[0])] + PopulateAll(users, qs[1..])
  }

  const RecentCount := 5

  /** `Questionnaire.find().sort({ createdAt: -1 }).limit(5)`. */
  function Newest(qs: map<ObjectId, Questionnaire>, n: nat): (r: seq<Questionnaire>)
    ensures |r| == Min(RecentCount, |KeysBelow(qs, n)|)
    ensures NewestFirst(r, QuestionnaireRoutes.ByCreatedAt)
    ensures forall i :: 0 <= i < |r| ==> r[i] in qs.Values
    ensures forall k :: k in qs && k < n ==>
      qs[k] in r || (|r| == RecentCount && forall i :: 0 <= i < |r| ==> r[i].createdAt >= qs[k].createdAt)
  {
    var sorted := SortNewestFirst(Entries(qs, n), QuestionnaireRoutes.ByCreatedAt);
    var r := sorted[..Min(RecentCount, |sorted|)];
    EntriesCount(qs, n);
    SliceNewestFirst(sorted, QuestionnaireRoutes.ByCreatedAt, 0, |r|);
    NewestFacts(qs, n, sorted, r);
    r
  }

  lemma NewestFacts(qs: map<ObjectId, Questionnaire>, n: nat, sorted: seq<Questionnaire>, r: seq<Questionnaire>)
    requires sorted == SortNewestFirst(Entries(qs, n), QuestionnaireRoutes.ByCreatedAt)
    requires r == sorted[..Min(RecentCount, |sorted|)]
    ensures forall i :: 0 <= i < |r| ==> r[i] in qs.Values
    ensures forall k :: k in qs && k < n ==>
      qs[k] in r || (|r| == RecentCount && forall i :: 0 <= i < |r| ==> r[i].createdAt >= qs[k].createdAt)
  {
    forall i | 0 <= i < |r|
      ensures r[i] in qs.Values
    {
      assert r[i] in sorted;
      SortedMembership(Entries(qs, n), QuestionnaireRoutes.ByCreatedAt, r[i]);
      EntriesValues(qs, n, r[i]);
    }
    forall k | k in qs && k < n
      ensures qs[k] in r || (|r| == RecentCount && forall i :: 0 <= i < |r| ==> r[i].createdAt >= qs[k].createdAt)
    {
      EntriesComplete(qs, n, k);
      SortedMembership(Entries(qs, n), QuestionnaireRoutes.ByCreatedAt, qs[k]);
      var j :| 0 <= j < |sorted| && sorted[j] == qs[k];
      if j < |r| {
        assert r[j] == qs[k];
      } else {
        forall i | 0 <= i < |r|
          ensures r[i].createdAt >= qs[k].createdAt
        {
          assert r[i] == sorted[i];
          assert QuestionnaireRoutes.ByCreatedAt(sorted[i]) >= QuestionnaireRoutes.ByCreatedAt(sorted[j]);
        }
      }
    }
  }

  /** A later month: the `$sort` on `_id.year` then `_id.month`, both descending. */
  predicate Later(a: YearMonth, b: YearMonth) {
    a.year > b.year || (a.year == b.year && a.month > b.month)
  }

  /** Groups strictly descending by month, each with a positive count. */
  predicate Descending(gs: seq<MonthCount>) {
    && (forall i, j :: 0 <= i < j < |gs| ==> Later(gs[i].month, gs[j].month))
    && (forall i :: 0 <= i < |gs| ==> gs[i].count > 0)
  }

  /** The count of a month's group, 0 when there is none. */
  function CountIn(gs: seq<MonthCount>, m: YearMonth): nat {
    if gs == [] then 0 else (if gs[0].month == m then gs[0].count else 0) + CountIn(gs[1..], m)
  }

  /** The months of the groups, in order. */
  function Months(gs: seq<MonthCount>): (r: seq<YearMonth>)
    ensures |r| == |gs| && forall i :: 0 <= i < |gs| ==> r[i] == gs[i].month
  {
    if gs == [] then [] else [gs[0].month] + Months(gs[1..])
  }

  /** Count one more record in month `m`, keeping the groups in order. */
  function AddToGroups(gs: seq<MonthCount>, m: YearMonth): (r: seq<MonthCount>)
    requires Descending(gs)
    ensures Descending(r)
    ensures forall x :: x in Months(r) <==> x in Months(gs) || x == m
    ensures r != [] && (r[0].month == m || (gs != [] && r[0].month == gs[0].month))
    ensures forall x :: CountIn(r, x) == CountIn(gs, x) + (if x == m then 1 else 0)
  {
    if gs == [] then [MonthCount(m, 1)]
    else if gs[0].month == m then
      assert gs == [gs[0]] + gs[1..];
      [MonthCount(m, gs[0].count + 1)] + gs[1..]
    else if Later(m, gs[0].month) then
      [MonthCount(m, 1)] + gs
    else
      var rest := AddToGroups(gs[1..], m);
      assert Months(gs) == [gs[0].month] + Months(gs[1..]);
      [gs[0]] + rest
  }

  /** A month absent from the groups counts 0. */
  lemma {:induction false} CountAbsent(gs: seq<MonthCount>, x: YearMonth)
    requires x !in Months(gs)
    ensures CountIn(gs, x) == 0
  {
    if gs != [] {
      assert Months(gs) == [gs[0].month] + Months(gs[1..]);
      CountAbsent(gs[1..], x);
    }
  }

  /** In ordered groups each month has one group, and its count is that group's. */
  lemma {:induction false} CountAt(gs: seq<MonthCount>, i: nat)
    requires Descending(gs) && i < |gs|
    ensures CountIn(gs, gs[i].month) == gs[i].count
  {
    var rest := gs[1..];
    assert Descending(rest);
    if i == 0 {
      assert gs[0].month !in Months(rest) by {
        forall j | 0 <= j < |rest|
          ensures Months(rest)[j] != gs[0].month
        {
          assert Later(gs[0].month, gs[j + 1].month);
        }
      }
      CountAbsent(rest, gs[0].month);
    } else {
      CountAt(rest, i - 1);
      assert Later(gs[0].month, gs[i].month);
    }
  }

  /** The query `$month`/`$year` of `createdAt` equal to `m`; the extraction is the parameter `monthOf`. */
  function CreatedIn(monthOf: int -> YearMonth, m: YearMonth): User -> bool {
    (u: User) => monthOf(u.createdAt) == m
  }

  /** The `$group` stage over users in their natural order, kept sorted as
      the `$sort` stage orders the groups. */
  function GroupByMonth(us: seq<User>, monthOf: int -> YearMonth): (r: seq<MonthCount>)
    ensures Descending(r)
  {
    if us == [] then []
    else AddToGroups(GroupByMonth(us[..|us| - 1], monthOf), monthOf(us[|us| - 1].createdAt))
  }

  /** Each group counts exactly the users created in its month. */
  lemma {:induction false} GroupCounts(us: seq<User>, monthOf: int -> YearMonth, x: YearMonth)
    ensures CountIn(GroupByMonth(us, monthOf), x) == |Filter(us, CreatedIn(monthOf, x))|
  {
    if us != [] {
      var init, last := us[..|us| - 1], us[|us| - 1];
      assert us == init + [last];
      GroupCounts(init, monthOf, x);
      FilterConcat(init, [last], CreatedIn(monthOf, x));
    }
  }

  const MonthLimit := 12

  /** The registration statistics: the twelve latest months with a
      registration, latest first, each with the number of users created in it. */
  function Registrations(users: map<ObjectId, User>, n: nat, monthOf: int -> YearMonth): (r: seq<MonthCount>)
    ensures |r| <= MonthLimit && Descending(r)
    ensures forall i :: 0 <= i < |r| ==> r[i].count == |KeysWhere(users, n, CreatedIn(monthOf, r[i].month))|
    ensures forall k :: k in users && k < n ==>
      var x := monthOf(users[k].createdAt);
      x in Months(r) || (|r| == MonthLimit && forall i :: 0 <= i < |r| ==> Later(r[i].month, x))
  {
    var all := GroupByMonth(Entries(users, n), monthOf);
    var r := all[..Min(MonthLimit, |all|)];
    RegistrationCounts(users, n, monthOf, all, r);
    RegistrationsComplete(users, n, monthOf, all, r);
    r
  }

  lemma RegistrationCounts(users: map<ObjectId, User>, n: nat, monthOf: int -> YearMonth,
                           all: seq<MonthCount>, r: seq<MonthCount>)
    requires all == GroupByMonth(Entries(users, n), monthOf) && r == all[..Min(MonthLimit, |all|)]
    ensures forall i :: 0 <= i < |r| ==> r[i].count == |KeysWhere(users, n, CreatedIn(monthOf, r[i].month))|
  {
    forall i | 0 <= i < |r|
      ensures r[i].count == |KeysWhere(users, n, CreatedIn(monthOf, r[i].month))|
    {
      assert r[i] == all[i];
      CountAt(all, i);
      GroupCounts(Entries(users, n), monthOf, all[i].month);
      FilterEntriesCount(users, n, CreatedIn(monthOf, all[i].month));
    }
  }

  lemma RegistrationsComplete(users: map<ObjectId, User>, n: nat, monthOf: int -> YearMonth,
                              all: seq<MonthCount>, r: seq<MonthCount>)
    requires all == GroupByMonth(Entries(users, n), monthOf) && r == all[..Min(MonthLimit, |all|)]
    ensures forall k :: k in users && k < n ==>
      var x := monthOf(users[k].createdAt);
      x in Months(r) || (|r| == MonthLimit && forall i :: 0 <= i < |r| ==> Later(r[i].month, x))
  {
    forall k | k in users && k < n
      ensures var x := monthOf(users[k].createdAt);
        x in Months(r) || (|r| == MonthLimit && forall i :: 0 <= i < |r| ==> Later(r[i].month, x))
    {
      var x := monthOf(users[k].createdAt);
      var p := CreatedIn(monthOf, x);
      EntriesComplete(users, n, k);
      FilterMembership(Entries(users, n), p, users[k]);
      GroupCounts(Entries(users, n), monthOf, x);
      assert CountIn(all, x) > 0;
      if x !in Months(all) {
        CountAbsent(all, x);
      }
      var j :| 0 <= j < |all| && Months(all)[j] == x;
      if j < |r| {
        assert Months(r)[j] == x;
      } else {
        forall i | 0 <= i < |r|
          ensures Later(r[i].month, x)
        {
          assert r[i] == all[i];
        }
      }
    }
  }

  /** GET /analytics, read from one snapshot of the store. */
  function AnalyticsOf(users: map<ObjectId, User>, qs: map<ObjectId, Questionnaire>, n: nat,
                       monthOf: int -> YearMonth): (r: Response)
    ensures r.Ok? && r.payload.Analytics?
    ensures r.payload.totalUsers == |users| && r.payload.totalQuestionnaires == |qs|
    ensures SumOfCounts(r.payload.statusCount) == r.payload.totalQuestionnaires
    ensures |r.payload.recent| <= RecentCount && |r.payload.registrations| <= MonthLimit
    ensures r.payload.statusCount == StatusCounts(qs)
    ensures r.payload.recent == PopulateAll(users, Newest(qs, n))
    ensures r.payload.registrations == Registrations(users, n, monthOf)
  {
    StatusCountsSum(qs);
    Ok(Analytics(|users|, |qs|, StatusCounts(qs), PopulateAll(users, Newest(qs, n)),
                 Registrations(users, n, monthOf)))
  }

  /** PATCH /users/:id/role: only a boolean is accepted; the user's
      `isAdmin` becomes it, and `updatedAt` moves to `now`. */
  method SetRole(s: Database.Store, id: ObjectId, body: Body, now: int) returns (resp: Response)
    requires s.Valid()
    modifies s
    ensures s.Valid()
    ensures s.questionnaires == old(s.questionnaires) && s.nextId == old(s.nextId)
    ensures var users := old(s.users);
      var v := Get(body, "isAdmin");
      if !(v.Some? && v.value.Bool?) then resp == BadRequest(IsAdminNotBoolean) && s.users == users
      else if id !in users then resp == NotFound(UserNotFound) && s.users == users
      else
        var u := users[id].(isAdmin := v.value.b, updatedAt := now);
        resp == Ok(UserDoc(u)) && s.users == users[id := u]
  {
    var v := Get(body, "isAdmin");
    if !(v.Some? && v.value.Bool?) {
      return BadRequest(IsAdminNotBoolean);
    }
    if id !in s.users {
      return NotFound(UserNotFound);
    }
    var u := s.users[id].(isAdmin := v.value.b, updatedAt := now);
    Database.ReplaceUser(s.users, s.questionnaires, s.nextId, id, u);
    s.users := s.users[id := u];
    resp := Ok(UserDoc(u));
  }

  /** `Questionnaire.deleteMany({ user: owner })`. */
  function WithoutOwner(qs: map<ObjectId, Questionnaire>, owner: ObjectId): (r: map<ObjectId, Questionnaire>)
    ensures forall k :: k in r <==> k in qs && qs[k].user != owner
    ensures forall k :: k in r ==> r[k] == qs[k]
  {
    map k | k in qs && qs[k].user != owner :: qs[k]
  }

  /** DELETE /users/:id: the user's questionnaires go first, then the user. */
  method DeleteUser(s: Database.Store, id: ObjectId) returns (resp: Response)
    requires s.Valid()
    modifies s
    ensures s.Valid()
    ensures s.nextId == old(s.nextId)
    ensures if id !in old(s.users) then
        resp == NotFound(UserNotFound) && s.users == old(s.users) && s.questionnaires == old(s.questionnaires)
      else
        && resp == Ok(Message(UserDeleted))
        && s.users == old(s.users) - {id}
        && s.questionnaires == WithoutOwner(old(s.questionnaires), id)
  {
    if id !in s.users {
      return NotFound(UserNotFound);
    }
    var kept := WithoutOwner(s.questionnaires, id);
    Database.KeepQuestionnaires(s.users, s.questionnaires, s.nextId, kept);
    s.questionnaires := kept;
    Database.RemoveUser(s.users, s.questionnaires, s.nextId, id);
    s.users := s.users - {id};
    resp := Ok(Message(UserDeleted));
  }

  /** GET /users/:id: the user with exactly their questionnaires, newest first. */
  function UserDetailOf(users: map<ObjectId, User>, qs: map<ObjectId, Questionnaire>, n: nat, id: ObjectId): (r: Response)
    ensures id !in users <==> r == NotFound(UserNotFound)
    ensures id in users ==> r.Ok? && r.payload.UserDetail? && r.payload.user == users[id]
    ensures id in users ==> r.payload.questionnaires == QuestionnaireRoutes.OwnedBy(qs, n, id)
  {
    if id !in users then NotFound(UserNotFound)
    else Ok(UserDetail(users[id], QuestionnaireRoutes.OwnedBy(qs, n, id)))
  }

  /** After the cascade, nothing in the store belongs to the deleted user:
      the detail view is 404 and an owner listing for the id is empty. */
  lemma DeletedUserLeavesNothing(users: map<ObjectId, User>, qs: map<ObjectId, Questionnaire>, n: nat, id: ObjectId)
    ensures UserDetailOf(users - {id}, WithoutOwner(qs, id), n, id) == NotFound(UserNotFound)
    ensures QuestionnaireRoutes.OwnedBy(WithoutOwner(qs, id), n, id) == []
  {
    var r := QuestionnaireRoutes.OwnedBy(WithoutOwner(qs, id), n, id);
    if r != [] {
      assert false;
    }
  }
}
