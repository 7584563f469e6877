/**
 * `App\Models\GallonRequest`: one claim of gallons by one employee, its
 * status, the three unguarded field updates that advance it, and the
 * query scopes over it.
 */
module Requests {
  import opened Wrappers
  import opened Clock
  import opened Seqs

  /** The statuses the gallon_requests table admits, in lifecycle order. */
  datatype Status = Pending | Approved | Ready | Completed

  /** The value a status is stored under. */
  function StatusName(s: Status): string {
    match s
    case Pending => "pending"
    case Approved => "approved"
    case Ready => "ready"
    case Completed => "completed"
  }

  /** The position of a status in the lifecycle. */
  function Stage(s: Status): nat {
    match s
    case Pending => 0
    case Approved => 1
    case Ready => 2
    case Completed => 3
  }

  /** Different statuses are stored under different names. */
  lemma StatusNameInjective(a: Status, b: Status)
    ensures StatusName(a) == StatusName(b) <==> a == b
  {
  }

  /** Identifies a staff user (approver or preparer). */
  type UserId = nat

  datatype GallonRequest = GallonRequest(
    id: nat,
    employeeId: nat,
    quantity: int,
    status: Status,
    requestedAt: Timestamp,
    approvedAt: Option<Timestamp>,
    readyAt: Option<Timestamp>,
    completedAt: Option<Timestamp>,
    approvedBy: Option<UserId>,
    preparedBy: Option<UserId>,
    notes: Option<string>)

  /** The fields fixed at submission, which no transition touches. */
  predicate SameSubmission(a: GallonRequest, b: GallonRequest) {
    && a.id == b.id
    && a.employeeId == b.employeeId
    && a.quantity == b.quantity
    && a.requestedAt == b.requestedAt
    && a.notes == b.notes
  }

  /** `approve($user)`: records the approval; consults nothing. */
  function Approve(r: GallonRequest, user: UserId, now: Timestamp): (r': GallonRequest)
    ensures r'.status == Approved
    ensures r'.approvedAt == Some(now) && r'.approvedBy == Some(user)
    ensures SameSubmission(r, r')
    ensures r'.readyAt == r.readyAt && r'.completedAt == r.completedAt && r'.preparedBy == r.preparedBy
  {
    r.(status := Approved, approvedAt := Some(now), approvedBy := Some(user))
  }

  /** `markReady($user)`: records the preparation; consults nothing. */
  function MarkReady(r: GallonRequest, user: UserId, now: Timestamp): (r': GallonRequest)
    ensures r'.status == Ready
    ensures r'.readyAt == Some(now) && r'.preparedBy == Some(user)
    ensures SameSubmission(r, r')
    ensures r'.approvedAt == r.approvedAt && r'.completedAt == r.completedAt && r'.approvedBy == r.approvedBy
  {
    r.(status := Ready, readyAt := Some(now), preparedBy := Some(user))
  }

  /** `complete()`: records the pickup; no actor is recorded. */
  function Complete(r: GallonRequest, now: Timestamp): (r': GallonRequest)
    ensures r'.status == Completed
    ensures r'.completedAt == Some(now)
    ensures SameSubmission(r, r')
    ensures r'.approvedAt == r.approvedAt && r'.readyAt == r.readyAt
    ensures r'.approvedBy == r.approvedBy && r'.preparedBy == r.preparedBy
  {
    r.(status := Completed, completedAt := Some(now))
  }

  /** The condition of a status scope, as a row test. */
  function InStatus(s: Status): GallonRequest -> bool {
    (x: GallonRequest) => x.status == s
  }

  /** The condition of a day scope: submitted on calendar day `day`. */
  function SubmittedOn(day: Day): GallonRequest -> bool {
    (x: GallonRequest) => DayOf(x.requestedAt) == day
  }

  /** The `pending`, `ready` and `completed` scopes: the requests in status `s`. */
  function WithStatus(rs: seq<GallonRequest>, s: Status): (r: seq<GallonRequest>)
    ensures forall x :: x in r <==> x in rs && x.status == s
    ensures forall x {:trigger multiset(r)[x]} :: multiset(r)[x] == if x.status == s then multiset(rs)[x] else 0
    ensures |r| <= |rs|
  {
    Filter(rs, InStatus(s))
  }

  /** The `today` scope: the requests submitted on the calendar day of `now`. */
  function RequestedToday(rs: seq<GallonRequest>, now: Timestamp): (r: seq<GallonRequest>)
    ensures forall x :: x in r <==> x in rs && DayOf(x.requestedAt) == DayOf(now)
    ensures forall x {:trigger multiset(r)[x]} ::
      multiset(r)[x] == if DayOf(x.requestedAt) == DayOf(now) then multiset(rs)[x] else 0
  {
    Filter(rs, SubmittedOn(DayOf(now)))
  }

  /** `a` is unset, or set no earlier than `t`. */
  predicate NotBefore(a: Option<Timestamp>, t: Timestamp) {
    a.None? || t <= a.value
  }

  /**
   * The shape each status gives a request (as the request factory builds
   * them): exactly the timestamps of the transitions already taken are set,
   * in non-decreasing order, and the quantity is positive. An actor is set
   * only once its transition is taken; it may be unset afterwards, because
   * deleting a user clears the actor columns that point at them.
   */
  predicate WellFormed(r: GallonRequest) {
    && r.quantity >= 1
    && (r.approvedAt.Some? <==> Stage(r.status) >= 1)
    && (r.approvedBy.Some? ==> Stage(r.status) >= 1)
    && (r.readyAt.Some? <==> Stage(r.status) >= 2)
    && (r.preparedBy.Some? ==> Stage(r.status) >= 2)
    && (r.completedAt.Some? <==> Stage(r.status) >= 3)
    && NotBefore(r.approvedAt, r.requestedAt)
    && (r.approvedAt.Some? ==> NotBefore(r.readyAt, r.approvedAt.value))
    && (r.readyAt.Some? ==> NotBefore(r.completedAt, r.readyAt.value))
  }

  /**
   * The request factory's `pending`, `approved`, `ready` and `completed`
   * states applied to a request: the later instants are picked between the
   * previous one and now, so they never run backwards, and each step taken
   * gets a freshly made staff user as its actor.
   */
  function FactoryState(base: GallonRequest, s: Status, approvedAt: Timestamp, readyAt: Timestamp,
                        completedAt: Timestamp, approver: UserId, preparer: UserId): (r: GallonRequest)
    requires base.quantity >= 1
    requires base.requestedAt <= approvedAt <= readyAt <= completedAt
    ensures r.status == s && SameSubmission(base, r)
    ensures WellFormed(r)
    ensures r.approvedBy.Some? <==> Stage(s) >= 1
    ensures r.preparedBy.Some? <==> Stage(s) >= 2
  {
    match s
    case Pending =>
      base.(status := Pending, approvedAt := None, readyAt := None, completedAt := None,
            approvedBy := None, preparedBy := None)
    case Approved =>
      base.(status := Approved, approvedAt := Some(approvedAt), approvedBy := Some(approver),
            readyAt := None, completedAt := None, preparedBy := None)
    case Ready =>
      base.(status := Ready, approvedAt := Some(approvedAt), approvedBy := Some(approver),
            readyAt := Some(readyAt), preparedBy := Some(preparer), completedAt := None)
    case Completed =>
      base.(status := Completed, approvedAt := Some(approvedAt), approvedBy := Some(approver),
            readyAt := Some(readyAt), preparedBy := Some(preparer), completedAt := Some(completedAt))
  }

  /**
   * Conversely, a well-formed request whose actors are all still present is
   * exactly what one of the factory's states makes of it.
   */
  lemma WellFormedIsFactoryState(r: GallonRequest)
    requires WellFormed(r)
    requires Stage(r.status) >= 1 ==> r.approvedBy.Some?
    requires Stage(r.status) >= 2 ==> r.preparedBy.Some?
    ensures exists a, b, c, u, v ::
      r.requestedAt <= a <= b <= c && r == FactoryState(r, r.status, a, b, c, u, v)
  {
    var a := r.approvedAt.GetOr(r.requestedAt);
    var b := r.readyAt.GetOr(a);
    var c := r.completedAt.GetOr(b);
    var u := r.approvedBy.GetOr(0);
    var v := r.preparedBy.GetOr(0);
    assert r == FactoryState(r, r.status, a, b, c, u, v);
  }

  /** The latest instant recorded on the request. */
  function LastEvent(r: GallonRequest): Timestamp {
    if r.completedAt.Some? then r.completedAt.value
    else if r.readyAt.Some? then r.readyAt.value
    else if r.approvedAt.Some? then r.approvedAt.value
    else r.requestedAt
  }

  /** In a well-formed request every recorded instant is at most its last event. */
  lemma LastEventBounds(r: GallonRequest)
    requires WellFormed(r)
    ensures r.requestedAt <= LastEvent(r)
    ensures r.approvedAt.Some? ==> r.approvedAt.value <= LastEvent(r)
    ensures r.readyAt.Some? ==> r.readyAt.value <= LastEvent(r)
  {
  }

  /** Applied to a pending request at or after its submission, approval gives an approved shape. */
  lemma ApproveKeepsShape(r: GallonRequest, user: UserId, now: Timestamp)
    requires WellFormed(r) && r.status == Pending && LastEvent(r) <= now
    ensures WellFormed(Approve(r, user, now))
    ensures LastEvent(Approve(r, user, now)) == now
  {
  }

  /** Applied to an approved request no earlier than its approval, preparation gives a ready shape. */
  lemma MarkReadyKeepsShape(r: GallonRequest, user: UserId, now: Timestamp)
    requires WellFormed(r) && r.status == Approved && LastEvent(r) <= now
    ensures WellFormed(MarkReady(r, user, now))
    ensures LastEvent(MarkReady(r, user, now)) == now
  {
  }

  /** Applied to a ready request no earlier than its preparation, pickup gives a completed shape. */
  lemma CompleteKeepsShape(r: GallonRequest, now: Timestamp)
    requires WellFormed(r) && r.status == Ready && LastEvent(r) <= now
    ensures WellFormed(Complete(r, now))
    ensures LastEvent(Complete(r, now)) == now
  {
  }

  /**
   * The full lifecycle with a clock that does not run backwards records
   * requested <= approved <= ready <= completed, and the approver and
   * preparer survive the pickup.
   */
  lemma {:induction false} LifecycleOrdersTimestamps(
    r: GallonRequest, approver: UserId, preparer: UserId, t1: Timestamp, t2: Timestamp, t3: Timestamp)
    requires WellFormed(r) && r.status == Pending
    requires r.requestedAt <= t1 <= t2 <= t3
    ensures var done := Complete(MarkReady(Approve(r, approver, t1), preparer, t2), t3);
      && WellFormed(done)
      && done.requestedAt <= done.approvedAt.value <= done.readyAt.value <= done.completedAt.value
      && done.approvedBy == Some(approver) && done.preparedBy == Some(preparer)
  {
    ApproveKeepsShape(r, approver, t1);
    var a := Approve(r, approver, t1);
    MarkReadyKeepsShape(a, preparer, t2);
    CompleteKeepsShape(MarkReady(a, preparer, t2), t3);
  }
}
