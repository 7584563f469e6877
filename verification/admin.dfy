/**
 * The staff-facing controllers: approving a request, marking it ready,
 * and the filtered request list. Failures return no new tables, so a
 * rejected transition leaves the stored request untouched.
 */
module Admin {
  import opened Wrappers
  import opened Clock
  import opened Seqs
  import opened Requests
  import opened Employees
  import opened Errors
  import opened Lifecycle
  import opened Store

  /**
   * What the framework hands a staff controller as its `$gallonRequest`
   * parameter: the stored row at `index`, or a fresh, unsaved model with no
   * attributes, whose status is null.
   */
  datatype Bound = Stored(index: nat) | Fresh

  /** The route segment the nested resources `requests.approvals` and `requests.preparations` give the request. */
  const RouteSegment: string := "request"

  /** The name of the model parameter of both staff controllers' `store`. */
  const ControllerParameter: string := "gallonRequest"

  predicate IsUpper(c: char) {
    'A' <= c <= 'Z'
  }

  /** No upper-case letter in `t`. */
  predicate NoUpper(t: string) {
    forall i :: 0 <= i < |t| ==> !IsUpper(t[i])
  }

  function Lower(c: char): char {
    if IsUpper(c) then (c as int + 32) as char else c
  }

  /** What one letter after the first becomes: an upper-case letter turns into `_` and its lower-case form. */
  function Piece(c: char): (r: string)
    ensures |r| >= 1
    ensures !IsUpper(c) ==> r == [c]
  {
    if IsUpper(c) then ['_', Lower(c)] else [c]
  }

  /** The snake-case form of the rest of a name. */
  function SnakeTail(t: string): (r: string)
    ensures |r| >= |t|
    ensures NoUpper(t) ==> r == t
  {
    if |t| == 0 then "" else Piece(t[0]) + SnakeTail(t[1..])
  }

  /**
   * `Str::snake` on an ASCII name without spaces: an underscore goes before
   * every upper-case letter that has a letter before it, and everything is
   * lower-cased.
   */
  function Snake(s: string): (r: string)
    ensures |r| >= |s|
    ensures NoUpper(s) ==> r == s
  {
    if |s| == 0 then "" else [Lower(s[0])] + SnakeTail(s[1..])
  }

  /** Implicit binding pairs a route segment with a parameter named like it, or like its snake-case form. */
  predicate Binds(segment: string, param: string) {
    segment == param || segment == Snake(param)
  }

  /**
   * What implicit binding hands a model parameter: when the segment pairs
   * with it, the stored row with the id in the route, or nothing (a 404)
   * when there is none; otherwise the container injects a fresh model,
   * whatever the id.
   */
  function ImplicitBinding(db: Db, segment: string, param: string, requestId: int): (b: Option<Bound>)
    ensures !Binds(segment, param) ==> b == Some(Fresh)
    ensures Binds(segment, param) ==> (b.None? <==> IndexOfRequest(db.requests, requestId).None?)
    ensures Binds(segment, param) && b.Some? ==> b.value == Stored(IndexOfRequest(db.requests, requestId).value)
    ensures b.Some? && b.value.Stored? ==> b.value.index < |db.requests| && db.requests[b.value.index].id == requestId
  {
    if Binds(segment, param) then
      match IndexOfRequest(db.requests, requestId)
      case None => None
      case Some(i) => Some(Stored(i))
    else Some(Fresh)
  }

  /**
   * A camel-case name of two lower-case words snakes into the words joined
   * by `_`: `gallonRequest` becomes `gallon_request`.
   */
  lemma SnakeOfTwoWords(head: char, tail: string, cap: char, rest: string)
    requires !IsUpper(head) && IsUpper(cap)
    requires NoUpper(tail) && NoUpper(rest)
    ensures Snake([head] + tail + [cap] + rest) == [head] + tail + ['_', Lower(cap)] + rest
  {
    var w := [head] + tail + [cap] + rest;
    var word := [cap] + rest;
    var under := ['_', Lower(cap)];
    assert w[0] == head && w[1..] == tail + word;
    assert word[0] == cap && word[1..] == rest;
    SnakeTailAppend(tail, word);
    calc {
      Snake(w);
      [head] + SnakeTail(tail + word);
      [head] + (tail + SnakeTail(word));
      [head] + (tail + (under + rest));
      [head] + tail + under + rest;
    }
  }

  /** The snake-case form of a concatenation is the concatenation of the forms. */
  lemma {:induction false} SnakeTailAppend(a: string, b: string)
    ensures SnakeTail(a + b) == SnakeTail(a) + SnakeTail(b)
    decreases |a|
  {
    if |a| > 0 {
      var p := Piece(a[0]);
      assert (a + b)[0] == a[0];
      assert (a + b)[1..] == a[1..] + b;
      SnakeTailAppend(a[1..], b);
      calc {
        SnakeTail(a + b);
        p + SnakeTail(a[1..] + b);
        p + (SnakeTail(a[1..]) + SnakeTail(b));
        (p + SnakeTail(a[1..])) + SnakeTail(b);
      }
    } else {
      assert a + b == b;
    }
  }

  /** Neither the parameter's name nor its snake-case form is the route segment, so the routes bind nothing. */
  lemma RoutesDoNotBind(db: Db, requestId: int)
    ensures !Binds(RouteSegment, ControllerParameter)
    ensures ImplicitBinding(db, RouteSegment, ControllerParameter, requestId) == Some(Fresh)
  {
    assert |Snake(ControllerParameter)| >= |ControllerParameter| > |RouteSegment|;
  }

  /**
   * `RequestApprovalController::store` on the model it is handed: the
   * model must be pending, and the acting user becomes the approver. A
   * fresh model's null status is not pending. The user's role is not
   * consulted.
   */
  function ApproveBound(db: Db, b: Bound, actor: UserId, now: Timestamp): (r: Result<Db, Error>)
    requires b.Stored? ==> b.index < |db.requests|
    ensures b.Fresh? ==> r == Err(InvalidTransition(Pending))
    ensures b.Stored? ==>
      && (r.Ok? <==> db.requests[b.index].status == Pending)
      && (r.Err? ==> r.error == InvalidTransition(Pending))
      && (r.Ok? ==> r.value == db.(requests := db.requests[b.index := Approve(db.requests[b.index], actor, now)]))
  {
    match b
    case Fresh => Err(InvalidTransition(Pending))
    case Stored(i) =>
      match TryApprove(db.requests[i], actor, now)
      case Err(e) => Err(e)
      case Ok(r') => Ok(db.(requests := db.requests[i := r']))
  }

  /** `RequestPreparationController::store` on the model it is handed: the model must be approved. */
  function PrepareBound(db: Db, b: Bound, actor: UserId, now: Timestamp): (r: Result<Db, Error>)
    requires b.Stored? ==> b.index < |db.requests|
    ensures b.Fresh? ==> r == Err(InvalidTransition(Approved))
    ensures b.Stored? ==>
      && (r.Ok? <==> db.requests[b.index].status == Approved)
      && (r.Err? ==> r.error == InvalidTransition(Approved))
      && (r.Ok? ==> r.value == db.(requests := db.requests[b.index := MarkReady(db.requests[b.index], actor, now)]))
  {
    match b
    case Fresh => Err(InvalidTransition(Approved))
    case Stored(i) =>
      match TryMarkReady(db.requests[i], actor, now)
      case Err(e) => Err(e)
      case Ok(r') => Ok(db.(requests := db.requests[i := r']))
  }

  /** Approval as the routes are written: every approval is refused and the tables stay as they are. */
  function ApproveRequestAsWritten(db: Db, requestId: int, actor: UserId, now: Timestamp): (r: Result<Db, Error>)
    ensures r == Err(InvalidTransition(Pending))
  {
    RoutesDoNotBind(db, requestId);
    match ImplicitBinding(db, RouteSegment, ControllerParameter, requestId)
    case None => Err(NoSuchRecord)
    case Some(b) => ApproveBound(db, b, actor, now)
  }

  /** Preparation as the routes are written: every preparation is refused and the tables stay as they are. */
  function PrepareRequestAsWritten(db: Db, requestId: int, actor: UserId, now: Timestamp): (r: Result<Db, Error>)
    ensures r == Err(InvalidTransition(Approved))
  {
    RoutesDoNotBind(db, requestId);
    match ImplicitBinding(db, RouteSegment, ControllerParameter, requestId)
    case None => Err(NoSuchRecord)
    case Some(b) => PrepareBound(db, b, actor, now)
  }

  /**
   * Approval with the request bound by its id, as evidently intended: the
   * route segment is named after the parameter, so a missing id is a 404
   * and otherwise the stored request must be pending.
   */
  function ApproveRequest(db: Db, requestId: int, actor: UserId, now: Timestamp): (r: Result<Db, Error>)
    ensures IndexOfRequest(db.requests, requestId).None? ==> r == Err(NoSuchRecord)
    ensures IndexOfRequest(db.requests, requestId).Some? ==>
      var i := IndexOfRequest(db.requests, requestId).value;
      && (r.Ok? <==> db.requests[i].status == Pending)
      && (r.Err? ==> r.error == InvalidTransition(Pending))
      && (r.Ok? ==> r.value == db.(requests := db.requests[i := Approve(db.requests[i], actor, now)]))
  {
    match ImplicitBinding(db, ControllerParameter, ControllerParameter, requestId)
    case None => Err(NoSuchRecord)
    case Some(b) => ApproveBound(db, b, actor, now)
  }

  /** Preparation with the request bound by its id, the segment named after the parameter: a missing id is a 404, otherwise it must be approved. */
  function PrepareRequest(db: Db, requestId: int, actor: UserId, now: Timestamp): (r: Result<Db, Error>)
    ensures IndexOfRequest(db.requests, requestId).None? ==> r == Err(NoSuchRecord)
    ensures IndexOfRequest(db.requests, requestId).Some? ==>
      var i := IndexOfRequest(db.requests, requestId).value;
      && (r.Ok? <==> db.requests[i].status == Approved)
      && (r.Err? ==> r.error == InvalidTransition(Approved))
      && (r.Ok? ==> r.value == db.(requests := db.requests[i := MarkReady(db.requests[i], actor, now)]))
  {
    match ImplicitBinding(db, ControllerParameter, ControllerParameter, requestId)
    case None => Err(NoSuchRecord)
    case Some(b) => PrepareBound(db, b, actor, now)
  }

  /**
   * The two readings part on every stored request the step applies to: with
   * the request bound by id it goes through, as written it is refused.
   */
  lemma AsWrittenRefusesEveryStaffStep(db: Db, requestId: int, actor: UserId, now: Timestamp)
    requires IndexOfRequest(db.requests, requestId).Some?
    ensures var i := IndexOfRequest(db.requests, requestId).value;
      && (db.requests[i].status == Pending ==>
            ApproveRequest(db, requestId, actor, now).Ok? && ApproveRequestAsWritten(db, requestId, actor, now).Err?)
      && (db.requests[i].status == Approved ==>
            PrepareRequest(db, requestId, actor, now).Ok? && PrepareRequestAsWritten(db, requestId, actor, now).Err?)
  {
  }

  /**
   * With the request bound by id, a second approval of the same request
   * fails, so the first approver and time stand. As written, even the first
   * approval is refused.
   */
  lemma SecondApprovalFails(db: Db, requestId: int, first: UserId, second: UserId, t1: Timestamp, t2: Timestamp)
    requires IndexOfRequest(db.requests, requestId).Some?
    requires db.requests[IndexOfRequest(db.requests, requestId).value].status == Pending
    ensures ApproveRequest(db, requestId, first, t1).Ok?
    ensures ApproveRequestAsWritten(db, requestId, first, t1) == Err(InvalidTransition(Pending))
    ensures var db' := ApproveRequest(db, requestId, first, t1).value;
      && ApproveRequest(db', requestId, second, t2) == Err(InvalidTransition(Pending))
      && db'.requests[IndexOfRequest(db.requests, requestId).value].approvedBy == Some(first)
      && db'.requests[IndexOfRequest(db.requests, requestId).value].approvedAt == Some(t1)
  {
    var i := IndexOfRequest(db.requests, requestId).value;
    var db' := ApproveRequest(db, requestId, first, t1).value;
    assert forall k :: 0 <= k < |db'.requests| ==> db'.requests[k].id == db.requests[k].id;
    assert IndexOfRequest(db'.requests, requestId) == Some(i);
  }

  /** An approval or preparation taken with a clock that does not run backwards keeps the tables valid. */
  lemma StaffStepsKeepValid(db: Db, requestId: int, actor: UserId, now: Timestamp)
    requires Valid(db) && ClockAfter(db, now)
    ensures ApproveRequest(db, requestId, actor, now).Ok? ==> Valid(ApproveRequest(db, requestId, actor, now).value)
    ensures PrepareRequest(db, requestId, actor, now).Ok? ==> Valid(PrepareRequest(db, requestId, actor, now).value)
  {
    match IndexOfRequest(db.requests, requestId)
    case None =>
    case Some(i) =>
      var r := db.requests[i];
      if r.status == Pending {
        ApproveKeepsShape(r, actor, now);
        ReplaceKeepsValid(db, i, Approve(r, actor, now));
      } else if r.status == Approved {
        MarkReadyKeepsShape(r, actor, now);
        ReplaceKeepsValid(db, i, MarkReady(r, actor, now));
      }
  }

  /** The query-string filters of the request list; absent or empty fields are `None`. */
  datatype ListFilters = ListFilters(
    status: Option<string>,
    dateFrom: Option<Day>,
    dateTo: Option<Day>,
    filter: Option<string>)

  /** PHP truthiness of a query-string value: neither empty nor "0". */
  predicate Truthy(s: Option<string>) {
    s.Some? && s.value != "" && s.value != "0"
  }

  /**
   * The conjunction of every filter that is switched on. The status filter
   * compares the query string with the stored name, so it is a string test
   * rather than the `InStatus` scope: a string naming no status matches
   * nothing. The `today` filter is the `SubmittedOn` scope of the current day.
   */
  predicate MatchesFilters(r: GallonRequest, f: ListFilters, now: Timestamp) {
    && (Truthy(f.status) ==> StatusName(r.status) == f.status.value)
    && (f.dateFrom.Some? ==> f.dateFrom.value <= DayOf(r.requestedAt))
    && (f.dateTo.Some? ==> DayOf(r.requestedAt) <= f.dateTo.value)
    && (f.filter == Some("today") ==> SubmittedOn(DayOf(now))(r))
  }

  function Matching(f: ListFilters, now: Timestamp): GallonRequest -> bool {
    (r: GallonRequest) => MatchesFilters(r, f, now)
  }

  /** `RequestController::index` before pagination: the matching requests, most recently submitted first. */
  function ListRequests(rs: seq<GallonRequest>, f: ListFilters, now: Timestamp): (r: seq<GallonRequest>)
    ensures forall x :: x in r <==> x in rs && MatchesFilters(x, f, now)
    ensures multiset(r) == multiset(Filter(rs, Matching(f, now)))
    ensures SortedDesc(r, RequestedKey)
  {
    var r := SortDesc(Filter(rs, Matching(f, now)), RequestedKey);
    SortDescSameElements(Filter(rs, Matching(f, now)), RequestedKey);
    r
  }

  /** With no filter set, the list holds every request exactly once. */
  lemma {:induction false} NoFiltersListsAll(rs: seq<GallonRequest>, now: Timestamp)
    ensures multiset(ListRequests(rs, ListFilters(None, None, None, None), now)) == multiset(rs)
  {
    FilterKeepsAll(rs, Matching(ListFilters(None, None, None, None), now));
  }

  /** A status filter lists exactly the `WithStatus` scope, each request as often as it is stored. */
  lemma StatusFilterIsExact(rs: seq<GallonRequest>, s: Status, now: Timestamp)
    ensures forall x :: x in ListRequests(rs, ListFilters(Some(StatusName(s)), None, None, None), now)
                     <==> x in rs && x.status == s
    ensures multiset(ListRequests(rs, ListFilters(Some(StatusName(s)), None, None, None), now))
         == multiset(WithStatus(rs, s))
  {
    var f := ListFilters(Some(StatusName(s)), None, None, None);
    forall x: GallonRequest
      ensures Matching(f, now)(x) <==> InStatus(s)(x)
    {
      StatusNameInjective(x.status, s);
    }
    SameFilter(rs, Matching(f, now), InStatus(s));
  }

  /** A status string that names no status lists nothing. */
  lemma UnknownStatusListsNothing(rs: seq<GallonRequest>, status: string, now: Timestamp)
    requires status != "" && status != "0"
    requires forall s :: StatusName(s) != status
    ensures ListRequests(rs, ListFilters(Some(status), None, None, None), now) == []
  {
  }

  /** The `today` filter lists exactly the `RequestedToday` scope, each request as often as it is stored. */
  lemma TodayFilterIsRequestedToday(rs: seq<GallonRequest>, now: Timestamp)
    ensures multiset(ListRequests(rs, ListFilters(None, None, None, Some("today")), now))
         == multiset(RequestedToday(rs, now))
  {
    var f := ListFilters(None, None, None, Some("today"));
    assert forall x :: Matching(f, now)(x) == SubmittedOn(DayOf(now))(x);
    SameFilter(rs, Matching(f, now), SubmittedOn(DayOf(now)));
  }

  /**
   * The filters are independent: a request is listed under several filters
   * exactly when it is listed under each of them alone.
   */
  lemma FiltersCompose(rs: seq<GallonRequest>, f: ListFilters, now: Timestamp)
    ensures forall x ::
      x in ListRequests(rs, f, now) <==>
        && x in ListRequests(rs, ListFilters(f.status, None, None, None), now)
        && x in ListRequests(rs, ListFilters(None, f.dateFrom, f.dateTo, None), now)
        && x in ListRequests(rs, ListFilters(None, None, None, f.filter), now)
  {
  }
}
