/**
 * The end-to-end walk through one month of one employee:
 * submit, approve, prepare, pick up, and a second submission that no
 * longer fits.
 */
module Scenarios {
  import opened Wrappers
  import opened Clock
  import opened Seqs
  import opened Requests
  import opened Employees
  import opened Errors
  import opened Store
  import opened GallonSystem
  import opened Admin
  import QuotaPolicy

  /** A G9 employee, created through the grade setter. */
  function Walker(): Employee {
    SetGrade(Employee(1, "EMP003", "Bob Johnson", "", 0, true), "G9")
  }

  /** The tables at the start of the month: the employee, one staff user, no requests. */
  function Start(): Db {
    Db([Walker()], [], [User(7, "Warehouse")], 1)
  }

  function Submitted(now: Timestamp): GallonRequest {
    NewRequest(1, Walker(), 5, now)
  }

  /** The tables once the request for 5 is stored. */
  function AfterSubmit(now: Timestamp): Db {
    Start().(requests := [Submitted(now)], nextRequestId := 2)
  }

  function AfterApprove(now: Timestamp): Db {
    AfterSubmit(now).(requests := [Approve(Submitted(now), 7, now)])
  }

  function AfterPrepare(now: Timestamp): Db {
    AfterSubmit(now).(requests := [MarkReady(Approve(Submitted(now), 7, now), 7, now)])
  }

  function AfterPickup(now: Timestamp): Db {
    AfterSubmit(now).(requests := [Complete(MarkReady(Approve(Submitted(now), 7, now), 7, now), now)])
  }

  /** Any table holding just the walker finds it, active, under its code. */
  lemma WalkerIsFound(db: Db)
    requires db.employees == [Walker()]
    ensures Walker().monthlyQuota == 12
    ensures CodeExists(db.employees, "EMP003")
    ensures FindActiveEmployee(db.employees, "EMP003") == Some(Walker())
  {
    assert QuotaPolicy.ParseGrade("G9") == Some(QuotaPolicy.G9);
    assert db.employees[0] == Walker();
  }

  /** Once 5 of the walker's 12 are taken, a request for 8 is refused reporting 7. */
  lemma RefusedWithSevenLeft(db: Db, now: Timestamp)
    requires db.employees == [Walker()]
    requires CurrentMonthTaken(db.requests, Walker(), now) == 5
    ensures Handle(db, Input(Some("request"), Some("EMP003"), Some(8), None), now)
         == Reply(db, Err(QuotaExceeded(7)))
  {
    WalkerIsFound(db);
    OverQuotaRejected(db, Input(Some("request"), Some("EMP003"), Some(8), None), now, Walker());
  }

  /** Nothing taken yet, so 5 of the 12 gallons may be requested. */
  lemma {:induction false} WalkSubmit(now: Timestamp)
    ensures var r := Handle(Start(), Input(Some("request"), Some("EMP003"), Some(5), None), now);
      r.result.Ok? && r.db == AfterSubmit(now)
  {
    WalkerIsFound(Start());
    var input := Input(Some("request"), Some("EMP003"), Some(5), None);
    assert FindActiveEmployee(Start().employees, "EMP003") == Some(Walker());
    assert CurrentMonthTaken(Start().requests, Walker(), now) == 0;
    var r := ProcessRequest(Start(), input, now);
    assert r.result.Ok?;
    assert r.result.value.employee == Walker();
  }

  lemma {:induction false} WalkApproveAndPrepare(now: Timestamp)
    ensures ApproveRequest(AfterSubmit(now), 1, 7, now) == Ok(AfterApprove(now))
    ensures PrepareRequest(AfterApprove(now), 1, 7, now) == Ok(AfterPrepare(now))
  {
    assert IndexOfRequest(AfterSubmit(now).requests, 1) == Some(0);
    assert AfterSubmit(now).requests[0 := Approve(Submitted(now), 7, now)] == AfterApprove(now).requests;
    assert IndexOfRequest(AfterApprove(now).requests, 1) == Some(0);
    assert AfterApprove(now).requests[0 := MarkReady(Approve(Submitted(now), 7, now), 7, now)] == AfterPrepare(now).requests;
  }

  /** Picking the 5 gallons up leaves 7 of the 12. */
  lemma {:induction false} WalkPickup(now: Timestamp)
    ensures var r := Handle(AfterPrepare(now), Input(Some("pickup"), Some("EMP003"), None, Some(1)), now);
      && r.result.Ok? && r.db == AfterPickup(now)
      && r.result.value.currentMonthTaken == 5
      && r.result.value.remainingQuota == 7
  {
    var db := AfterPrepare(now);
    assert db.requests[0].id == 1 && db.requests[0].employeeId == Walker().id;
    PickupOfOnlyReadyRequest(db, now);
    assert db.(requests := [Complete(db.requests[0], now)]) == AfterPickup(now);
    PickupTakesFive(now);
  }

  /** With one ready request of the walker's on file, picking it up by id completes it. */
  lemma PickupOfOnlyReadyRequest(db: Db, now: Timestamp)
    requires db.employees == [Walker()]
    requires |db.requests| == 1
    requires db.requests[0].id == 1 && db.requests[0].employeeId == Walker().id && db.requests[0].status == Ready
    ensures var r := Handle(db, Input(Some("pickup"), Some("EMP003"), None, Some(1)), now);
      && r.result.Ok?
      && r.db == db.(requests := [Complete(db.requests[0], now)])
      && r.result.value == ViewOf(r.db, Walker(), now)
  {
    WalkerIsFound(db);
    assert IndexOfRequest(db.requests, 1) == Some(0);
    assert FirstIndex(db.requests, PickupMatch(1, Walker().id)) == Some(0);
    assert db.requests[0 := Complete(db.requests[0], now)] == [Complete(db.requests[0], now)];
  }

  /** Completing the prepared request counts its 5 gallons against the month. */
  lemma {:induction false} PickupTakesFive(now: Timestamp)
    ensures CurrentMonthTaken(AfterPrepare(now).requests, Walker(), now) == 0
    ensures CurrentMonthTaken(AfterPickup(now).requests, Walker(), now) == 5
  {
    var db := AfterPrepare(now);
    var ready := db.requests[0];
    assert db.requests[0 := Complete(ready, now)] == AfterPickup(now).requests;
    assert CurrentMonthTaken(db.requests, Walker(), now) == 0 by {
      assert !CountedThisMonth(Walker().id, now)(ready);
      assert db.requests[..0] == [];
      assert Filter(db.requests, CountedThisMonth(Walker().id, now)) == [];
    }
    CompletingAddsQuantity(db.requests, 0, Walker(), now);
  }

  /** With 7 left, a request for 8 is refused and reports 7 available. */
  lemma {:induction false} WalkRefusal(now: Timestamp)
    ensures Handle(AfterPickup(now), Input(Some("request"), Some("EMP003"), Some(8), None), now)
         == Reply(AfterPickup(now), Err(QuotaExceeded(7)))
  {
    PickupTakesFive(now);
    RefusedWithSevenLeft(AfterPickup(now), now);
  }

  /**
   * A G9 employee (quota 12) with nothing taken submits 5 gallons; once
   * approved, prepared and picked up, 5 are taken and 7 remain, and a
   * request for 8 is refused reporting 7 available.
   */
  lemma {:induction false} QuotaWalkthrough(now: Timestamp)
    ensures Walker().monthlyQuota == 12
    ensures Handle(Start(), Input(Some("request"), Some("EMP003"), Some(5), None), now).db == AfterSubmit(now)
    ensures AfterSubmit(now).requests[0].status == Pending
    ensures ApproveRequest(AfterSubmit(now), 1, 7, now) == Ok(AfterApprove(now))
    ensures PrepareRequest(AfterApprove(now), 1, 7, now) == Ok(AfterPrepare(now))
    ensures var picked := Handle(AfterPrepare(now), Input(Some("pickup"), Some("EMP003"), None, Some(1)), now);
      && picked.result.Ok?
      && picked.db.requests[0].status == Completed
      && picked.db.requests[0].completedAt == Some(now)
      && picked.result.value.remainingQuota == 7
    ensures Handle(AfterPickup(now), Input(Some("request"), Some("EMP003"), Some(8), None), now)
         == Reply(AfterPickup(now), Err(QuotaExceeded(7)))
  {
    WalkerIsFound(Start());
    WalkSubmit(now);
    WalkApproveAndPrepare(now);
    WalkPickup(now);
    WalkRefusal(now);
  }
}
