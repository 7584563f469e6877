/**
 * The persisted state: the employees, gallon_requests and users tables,
 * and the auto-increment counter that numbers new requests.
 */
module Store {
  import opened Wrappers
  import opened Clock
  import opened Seqs
  import opened Requests
  import opened Employees

  /** A staff account; only its name reaches the export. */
  datatype User = User(id: UserId, name: string)

  datatype Db = Db(
    employees: seq<Employee>,
    requests: seq<GallonRequest>,
    users: seq<User>,
    nextRequestId: nat)

  /** `Employee::where('employee_id', code)->where('is_active', true)->first()`. */
  function FindActiveEmployee(employees: seq<Employee>, code: string): (r: Option<Employee>)
    ensures r.Some? ==> r.value in employees && r.value.code == code && r.value.isActive
    ensures r.None? <==> forall e :: e in employees ==> !(e.code == code && e.isActive)
  {
    match FirstIndex(employees, (e: Employee) => e.code == code && e.isActive)
    case Some(i) => Some(employees[i])
    case None => None
  }

  /** The `exists:employees,employee_id` rule: some employee, active or not, has this code. */
  predicate CodeExists(employees: seq<Employee>, code: string) {
    exists e :: e in employees && e.code == code
  }

  /** The employee a request belongs to (`$request->employee`). */
  function EmployeeById(employees: seq<Employee>, id: nat): (r: Option<Employee>)
    ensures r.Some? ==> r.value in employees && r.value.id == id
    ensures r.None? <==> forall e :: e in employees ==> e.id != id
  {
    match FirstIndex(employees, (e: Employee) => e.id == id)
    case Some(i) => Some(employees[i])
    case None => None
  }

  function HasId(id: int): GallonRequest -> bool {
    (r: GallonRequest) => r.id == id
  }

  /** Where the request with this id is stored, if anywhere. */
  function IndexOfRequest(requests: seq<GallonRequest>, id: int): (r: Option<nat>)
    ensures r.Some? ==> r.value < |requests| && requests[r.value].id == id
    ensures r.None? <==> forall i :: 0 <= i < |requests| ==> requests[i].id != id
  {
    FirstIndex(requests, HasId(id))
  }

  /** The name of the user an actor column points at; absent when unset or when no such user remains. */
  function UserName(users: seq<User>, id: Option<UserId>): (r: Option<string>)
    ensures id.None? ==> r.None?
    ensures r.Some? ==> exists u :: u in users && Some(u.id) == id && u.name == r.value
    ensures r.None? <==> id.None? || forall u :: u in users ==> u.id != id.value
  {
    match id
    case None => None
    case Some(uid) =>
      match FirstIndex(users, (u: User) => u.id == uid)
      case Some(i) => Some(users[i].name)
      case None => None
  }

  /** No two stored requests share an id (the primary key). */
  predicate DistinctIds(rs: seq<GallonRequest>) {
    forall i, j :: 0 <= i < j < |rs| ==> rs[i].id != rs[j].id
  }

  /**
   * What the schema and the application keep true of the tables: request
   * ids are distinct primary keys below the counter, every request has the
   * shape of its status and belongs to an existing employee, and employee
   * row ids and codes are unique.
   */
  predicate Valid(db: Db) {
    && DistinctIds(db.requests)
    && (forall i :: 0 <= i < |db.requests| ==> db.requests[i].id < db.nextRequestId)
    && (forall i :: 0 <= i < |db.requests| ==> WellFormed(db.requests[i]))
    && (forall i :: 0 <= i < |db.requests| ==> EmployeeById(db.employees, db.requests[i].employeeId).Some?)
    && (forall i, j :: 0 <= i < j < |db.employees| ==> db.employees[i].id != db.employees[j].id)
    && (forall i, j :: 0 <= i < j < |db.employees| ==> db.employees[i].code != db.employees[j].code)
  }

  /** `now` is no earlier than anything already recorded. */
  predicate ClockAfter(db: Db, now: Timestamp) {
    forall i :: 0 <= i < |db.requests| ==> LastEvent(db.requests[i]) <= now
  }

  /** Replacing one stored request by a well-formed one with the same id and owner keeps the tables valid. */
  lemma {:induction false} ReplaceKeepsValid(db: Db, i: nat, r': GallonRequest)
    requires Valid(db) && i < |db.requests|
    requires r'.id == db.requests[i].id && r'.employeeId == db.requests[i].employeeId
    requires WellFormed(r')
    ensures Valid(db.(requests := db.requests[i := r']))
  {
    var rs' := db.requests[i := r'];
    assert forall k :: 0 <= k < |rs'| ==> rs'[k].id == db.requests[k].id;
    assert forall k :: 0 <= k < |rs'| ==> rs'[k].employeeId == db.requests[k].employeeId;
  }

  /** Appending a well-formed request under the counter's id, for an existing employee, keeps the tables valid. */
  lemma {:induction false} AppendKeepsValid(db: Db, n: GallonRequest)
    requires Valid(db)
    requires n.id == db.nextRequestId && WellFormed(n)
    requires EmployeeById(db.employees, n.employeeId).Some?
    ensures Valid(db.(requests := db.requests + [n], nextRequestId := db.nextRequestId + 1))
  {
    var rs' := db.requests + [n];
    assert forall k :: 0 <= k < |db.requests| ==> rs'[k] == db.requests[k];
  }
}
