/**
 * `GallonSystemController`: the employee-facing kiosk. One entry point
 * dispatches on the `action` field to a lookup, a submission or a pickup.
 * Every reply carries the (possibly updated) tables; a failed action
 * leaves them exactly as they were.
 */
module GallonSystem {
  import opened Wrappers
  import opened Clock
  import opened Seqs
  import opened Requests
  import opened Employees
  import opened Errors
  import opened Lifecycle
  import opened Store

  datatype Action = Lookup | Submit | Pickup

  /** The form fields; an absent or non-integer value is `None`. */
  datatype Input = Input(
    action: Option<string>,
    employeeCode: Option<string>,
    quantity: Option<int>,
    requestId: Option<int>)

  /** What the page is rendered with: the employee, their quota figures, pickups and history. */
  datatype View = View(
    employee: Employee,
    currentMonthTaken: int,
    remainingQuota: int,
    pendingPickups: seq<GallonRequest>,
    history: seq<GallonRequest>)

  datatype Reply = Reply(db: Db, result: Result<View, Error>)

  /** The per-request bounds on `quantity`. */
  const MinQuantity: int := 1
  const MaxQuantity: int := 10

  /** `$request->input('action', 'lookup')` followed by the switch: anything unrecognised is a lookup. */
  function ActionOf(action: Option<string>): (a: Action)
    ensures a == Submit <==> action == Some("request")
    ensures a == Pickup <==> action == Some("pickup")
  {
    match action
    case Some(name) =>
      if name == "request" then Submit
      else if name == "pickup" then Pickup
      else Lookup
    case None => Lookup
  }

  /** `employee_id => required|string|exists:employees,employee_id`. */
  function CodeErrors(db: Db, input: Input): (errors: set<string>)
    ensures errors <= {"employee_id"}
    ensures errors == {} <==>
      && input.employeeCode.Some? && input.employeeCode.value != ""
      && exists e :: e in db.employees && e.code == input.employeeCode.value
  {
    match input.employeeCode
    case Some(code) => if code != "" && CodeExists(db.employees, code) then {} else {"employee_id"}
    case None => {"employee_id"}
  }

  /** `quantity => required|integer|min:1|max:10`. */
  function QuantityErrors(input: Input): (errors: set<string>)
    ensures errors <= {"quantity"}
    ensures errors == {} <==> input.quantity.Some? && 1 <= input.quantity.value <= 10
  {
    match input.quantity
    case Some(q) => if MinQuantity <= q <= MaxQuantity then {} else {"quantity"}
    case None => {"quantity"}
  }

  /** `request_id => required|integer|exists:gallon_requests,id`. */
  function RequestIdErrors(db: Db, input: Input): (errors: set<string>)
    ensures errors <= {"request_id"}
    ensures errors == {} <==>
      input.requestId.Some? && exists x :: x in db.requests && x.id == input.requestId.value
  {
    match input.requestId
    case Some(id) => if IndexOfRequest(db.requests, id).Some? then {} else {"request_id"}
    case None => {"request_id"}
  }

  /** The page for `e`, computed from the tables as they stand. */
  function ViewOf(db: Db, e: Employee, now: Timestamp): View {
    View(e,
      CurrentMonthTaken(db.requests, e, now),
      RemainingQuota(db.requests, e, now),
      PendingPickupRequests(db.requests, e),
      GallonHistory(db.requests, e))
  }

  /** The active employee the (validated) code names. */
  function ActiveEmployee(db: Db, input: Input): Option<Employee>
    requires input.employeeCode.Some?
  {
    FindActiveEmployee(db.employees, input.employeeCode.value)
  }

  /** `processLookup`: show an active employee's quota, pickups and history. */
  function ProcessLookup(db: Db, input: Input, now: Timestamp): (r: Reply)
    ensures r.db == db
    ensures r.result.Ok? <==>
      && input.employeeCode.Some? && CodeErrors(db, input) == {}
      && FindActiveEmployee(db.employees, input.employeeCode.value).Some?
    ensures r.result.Ok? ==>
      && input.employeeCode == Some(r.result.value.employee.code)
      && r.result.value.employee in db.employees
      && r.result.value.employee.isActive
      && r.result.value == ViewOf(db, r.result.value.employee, now)
    ensures r.result.Err? ==> r.result.error in {Invalid({"employee_id"}), EmployeeNotFound}
  {
    var errors := CodeErrors(db, input);
    if errors != {} then Reply(db, Err(Invalid(errors)))
    else
      match ActiveEmployee(db, input)
      case None => Reply(db, Err(EmployeeNotFound))
      case Some(e) => Reply(db, Ok(ViewOf(db, e, now)))
  }

  /** The row a successful submission inserts: pending, with nothing but the submission recorded. */
  function NewRequest(id: nat, e: Employee, quantity: int, now: Timestamp): GallonRequest {
    GallonRequest(id, e.id, quantity, Pending, now, None, None, None, None, None, None)
  }

  /** `processRequest`: submit a new request if the quantity fits the remaining quota. */
  function ProcessRequest(db: Db, input: Input, now: Timestamp): (r: Reply)
    ensures r.result.Err? ==> r.db == db
    ensures r.result.Ok? <==>
      && CodeErrors(db, input) == {} && QuantityErrors(input) == {}
      && ActiveEmployee(db, input).Some?
      && input.quantity.value <= RemainingQuota(db.requests, ActiveEmployee(db, input).value, now)
    ensures r.result.Ok? ==> r.result.value.employee == ActiveEmployee(db, input).value
    ensures r.result.Ok? ==>
      && input.quantity.Some? && MinQuantity <= input.quantity.value <= MaxQuantity
      && r.result.value.employee.isActive
      && input.quantity.value <= RemainingQuota(db.requests, r.result.value.employee, now)
      && r.db == db.(requests := db.requests + [NewRequest(db.nextRequestId, r.result.value.employee, input.quantity.value, now)],
                     nextRequestId := db.nextRequestId + 1)
    ensures r.result.Ok? ==> r.result.value == ViewOf(r.db, r.result.value.employee, now)
  {
    var errors := CodeErrors(db, input) + QuantityErrors(input);
    if errors != {} then Reply(db, Err(Invalid(errors)))
    else
      match ActiveEmployee(db, input)
      case None => Reply(db, Err(EmployeeNotFound))
      case Some(e) =>
        var remaining := RemainingQuota(db.requests, e, now);
        var quantity := input.quantity.value;
        if remaining < quantity then Reply(db, Err(QuotaExceeded(remaining)))
        else
          var db' := db.(requests := db.requests + [NewRequest(db.nextRequestId, e, quantity, now)],
                         nextRequestId := db.nextRequestId + 1);
          Reply(db', Ok(ViewOf(db', e, now)))
  }

  /** The row the pickup query matches: this id, this owner, ready. */
  function PickupMatch(id: int, employeeId: nat): GallonRequest -> bool {
    (r: GallonRequest) => r.id == id && r.employeeId == employeeId && r.status == Ready
  }

  /** `processPickup`: confirm receipt of one of the employee's ready requests. */
  function ProcessPickup(db: Db, input: Input, now: Timestamp): (r: Reply)
    ensures r.result.Err? ==> r.db == db
    ensures r.result.Ok? <==>
      && input.employeeCode.Some? && input.requestId.Some?
      && CodeErrors(db, input) == {} && RequestIdErrors(db, input) == {}
      && ActiveEmployee(db, input).Some?
      && FirstIndex(db.requests, PickupMatch(input.requestId.value, ActiveEmployee(db, input).value.id)).Some?
    ensures r.result.Ok? ==>
      && input.employeeCode.Some?
      && ActiveEmployee(db, input) == Some(r.result.value.employee)
      && r.result.value == ViewOf(r.db, r.result.value.employee, now)
    ensures r.result.Ok? ==>
      && input.requestId.Some?
      && var i := FirstIndex(db.requests, PickupMatch(input.requestId.value, r.result.value.employee.id));
      && i.Some?
      && db.requests[i.value].id == input.requestId.value
      && db.requests[i.value].employeeId == r.result.value.employee.id
      && db.requests[i.value].status == Ready
      && r.db == db.(requests := db.requests[i.value := Complete(db.requests[i.value], now)])
  {
    var errors := CodeErrors(db, input) + RequestIdErrors(db, input);
    if errors != {} then Reply(db, Err(Invalid(errors)))
    else
      match ActiveEmployee(db, input)
      case None => Reply(db, Err(EmployeeNotFound))
      case Some(e) =>
        match FirstIndex(db.requests, PickupMatch(input.requestId.value, e.id))
        case None => Reply(db, Err(RequestNotFound))
        case Some(i) =>
          var db' := db.(requests := db.requests[i := Complete(db.requests[i], now)]);
          Reply(db', Ok(ViewOf(db', e, now)))
  }

  /** `store`: the single entry point. */
  function Handle(db: Db, input: Input, now: Timestamp): (r: Reply)
    ensures r.result.Err? ==> r.db == db
    ensures input.action !in {Some("request"), Some("pickup")} ==> r == ProcessLookup(db, input, now)
    ensures input.action == Some("request") ==> r == ProcessRequest(db, input, now)
    ensures input.action == Some("pickup") ==> r == ProcessPickup(db, input, now)
  {
    match ActionOf(input.action)
    case Lookup => ProcessLookup(db, input, now)
    case Submit => ProcessRequest(db, input, now)
    case Pickup => ProcessPickup(db, input, now)
  }

  /** A code naming no active employee fails every action the same way once its other fields validate. */
  lemma InactiveEmployeeRejected(db: Db, input: Input, now: Timestamp)
    requires input.employeeCode.Some? && CodeErrors(db, input) == {}
    requires FindActiveEmployee(db.employees, input.employeeCode.value).None?
    requires ActionOf(input.action) == Submit ==> QuantityErrors(input) == {}
    requires ActionOf(input.action) == Pickup ==> RequestIdErrors(db, input) == {}
    ensures Handle(db, input, now) == Reply(db, Err(EmployeeNotFound))
  {
  }

  /** A quantity outside 1..10 is a validation failure on `quantity`, before anything else is looked at. */
  lemma QuantityOutOfRangeRejected(db: Db, input: Input, now: Timestamp)
    requires input.quantity.Some? ==> !(MinQuantity <= input.quantity.value <= MaxQuantity)
    ensures var r := ProcessRequest(db, input, now);
      && r.db == db
      && r.result.Err? && r.result.error.Invalid?
      && "quantity" in r.result.error.fields
  {
  }

  /** More than the remaining quota is refused, reporting the remaining figure, and nothing is created. */
  lemma OverQuotaRejected(db: Db, input: Input, now: Timestamp, e: Employee)
    requires CodeErrors(db, input) == {} && QuantityErrors(input) == {}
    requires ActiveEmployee(db, input) == Some(e)
    requires input.quantity.value > RemainingQuota(db.requests, e, now)
    ensures ProcessRequest(db, input, now) == Reply(db, Err(QuotaExceeded(RemainingQuota(db.requests, e, now))))
  {
  }

  /**
   * Up to the remaining quota a submission is accepted: exactly one bare
   * pending request is appended under a fresh id, the rows already stored
   * are untouched, and the tables stay valid.
   */
  lemma WithinQuotaAccepted(db: Db, input: Input, now: Timestamp, e: Employee)
    requires Valid(db)
    requires CodeErrors(db, input) == {} && QuantityErrors(input) == {}
    requires ActiveEmployee(db, input) == Some(e)
    requires input.quantity.value <= RemainingQuota(db.requests, e, now)
    ensures var r := ProcessRequest(db, input, now);
      && r.result.Ok?
      && |r.db.requests| == |db.requests| + 1
      && r.db.requests[..|db.requests|] == db.requests
      && var n := r.db.requests[|db.requests|];
      && n.status == Pending && n.quantity == input.quantity.value && n.requestedAt == now
      && n.employeeId == e.id && (forall x :: x in db.requests ==> x.id != n.id)
      && n.approvedAt.None? && n.readyAt.None? && n.completedAt.None?
      && n.approvedBy.None? && n.preparedBy.None?
      && Valid(r.db)
  {
    var r := ProcessRequest(db, input, now);
    var n := NewRequest(db.nextRequestId, e, input.quantity.value, now);
    assert r.db == db.(requests := db.requests + [n], nextRequestId := db.nextRequestId + 1);
    assert r.db.requests[..|db.requests|] == db.requests;
    assert EmployeeById(db.employees, e.id).Some?;
    AppendKeepsValid(db, n);
  }

  /** Submitting reserves nothing: the remaining quota is the same after an accepted submission. */
  lemma SubmissionLeavesRemaining(db: Db, input: Input, now: Timestamp, e: Employee)
    requires CodeErrors(db, input) == {} && QuantityErrors(input) == {}
    requires ActiveEmployee(db, input) == Some(e)
    requires input.quantity.value <= RemainingQuota(db.requests, e, now)
    ensures var r := ProcessRequest(db, input, now);
      && r.result.Ok?
      && RemainingQuota(r.db.requests, e, now) == RemainingQuota(db.requests, e, now)
      && r.db.employees == db.employees && |r.db.requests| == |db.requests| + 1
  {
    OnlyCompletedCounts(db.requests, NewRequest(db.nextRequestId, e, input.quantity.value, now), e, now);
  }

  /**
   * Quota is checked against pickups only, so two submissions that each
   * fit the remaining quota are both accepted even when together they
   * exceed it, and the remaining quota still reads the same afterwards.
   */
  lemma NoReservationForOpenRequests(db: Db, code: string, q1: int, q2: int, now: Timestamp, e: Employee)
    requires code != "" && CodeExists(db.employees, code)
    requires FindActiveEmployee(db.employees, code) == Some(e)
    requires MinQuantity <= q1 <= MaxQuantity && MinQuantity <= q2 <= MaxQuantity
    requires q1 <= RemainingQuota(db.requests, e, now) && q2 <= RemainingQuota(db.requests, e, now)
    ensures var first := ProcessRequest(db, Input(Some("request"), Some(code), Some(q1), None), now);
      && first.result.Ok?
      && var second := ProcessRequest(first.db, Input(Some("request"), Some(code), Some(q2), None), now);
      && second.result.Ok?
      && RemainingQuota(second.db.requests, e, now) == RemainingQuota(db.requests, e, now)
      && |second.db.requests| == |db.requests| + 2
  {
    var in1 := Input(Some("request"), Some(code), Some(q1), None);
    var first := ProcessRequest(db, in1, now);
    SubmissionLeavesRemaining(db, in1, now, e);
    var in2 := Input(Some("request"), Some(code), Some(q2), None);
    assert CodeErrors(first.db, in2) == {} && QuantityErrors(in2) == {};
    assert ActiveEmployee(first.db, in2) == Some(e);
    SubmissionLeavesRemaining(first.db, in2, now, e);
  }

  /** With unique request ids, the pickup query succeeds exactly when the record-level pickup guard does. */
  lemma PickupIsGuardedCompletion(db: Db, input: Input, now: Timestamp, e: Employee, i: nat)
    requires DistinctIds(db.requests)
    requires CodeErrors(db, input) == {} && RequestIdErrors(db, input) == {}
    requires ActiveEmployee(db, input) == Some(e)
    requires i < |db.requests| && db.requests[i].id == input.requestId.value
    ensures var r := ProcessPickup(db, input, now);
      && (r.result.Ok? <==> TryPickup(db.requests[i], e.id, now).Ok?)
      && (r.result.Ok? ==> r.db.requests == db.requests[i := TryPickup(db.requests[i], e.id, now).value])
      && (r.result.Err? ==> r.result.error == RequestNotFound && r.db == db)
  {
    var m := FirstIndex(db.requests, PickupMatch(input.requestId.value, e.id));
    if m.Some? {
      assert db.requests[m.value].id == db.requests[i].id;
      assert m.value == i;
    } else {
      assert !PickupMatch(input.requestId.value, e.id)(db.requests[i]);
    }
  }

  /** A pickup that goes through adds the picked-up quantity to this month's taken gallons. */
  lemma PickupCountsAgainstQuota(db: Db, input: Input, now: Timestamp, e: Employee, i: nat)
    requires CodeErrors(db, input) == {} && RequestIdErrors(db, input) == {}
    requires ActiveEmployee(db, input) == Some(e)
    requires FirstIndex(db.requests, PickupMatch(input.requestId.value, e.id)) == Some(i)
    ensures var r := ProcessPickup(db, input, now);
      && r.result.Ok?
      && CurrentMonthTaken(r.db.requests, e, now) == CurrentMonthTaken(db.requests, e, now) + db.requests[i].quantity
  {
    CompletingAddsQuantity(db.requests, i, e, now);
  }

  /** A pickup taken with a clock that does not run backwards keeps the tables valid. */
  lemma PickupKeepsValid(db: Db, input: Input, now: Timestamp, e: Employee, i: nat)
    requires Valid(db) && ClockAfter(db, now)
    requires CodeErrors(db, input) == {} && RequestIdErrors(db, input) == {}
    requires ActiveEmployee(db, input) == Some(e)
    requires FirstIndex(db.requests, PickupMatch(input.requestId.value, e.id)) == Some(i)
    ensures ProcessPickup(db, input, now).result.Ok?
    ensures Valid(ProcessPickup(db, input, now).db)
  {
    var r := ProcessPickup(db, input, now);
    assert r.result.Ok?;
    assert r.db == db.(requests := db.requests[i := Complete(db.requests[i], now)]);
    CompleteKeepsShape(db.requests[i], now);
    ReplaceKeepsValid(db, i, Complete(db.requests[i], now));
  }
}
