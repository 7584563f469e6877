/**
 * The request lifecycle pending -> approved -> ready -> completed. The
 * model methods advance a request unconditionally; the guards live in the
 * callers (the approval and preparation controllers and the pickup query).
 * Here each transition is its guard and its effect together.
 */
module Lifecycle {
  import opened Wrappers
  import opened Clock
  import opened Requests
  import opened Errors

  /** Approval by `actor`: only a pending request may be approved. */
  function TryApprove(r: GallonRequest, actor: UserId, now: Timestamp): (res: Result<GallonRequest, Error>)
    ensures res.Ok? <==> r.status == Pending
    ensures res.Ok? ==> res.value == Approve(r, actor, now)
    ensures res.Err? ==> res.error == InvalidTransition(Pending)
  {
    if r.status != Pending then Err(InvalidTransition(Pending))
    else Ok(Approve(r, actor, now))
  }

  /** Preparation by `actor`: only an approved request may be marked ready. */
  function TryMarkReady(r: GallonRequest, actor: UserId, now: Timestamp): (res: Result<GallonRequest, Error>)
    ensures res.Ok? <==> r.status == Approved
    ensures res.Ok? ==> res.value == MarkReady(r, actor, now)
    ensures res.Err? ==> res.error == InvalidTransition(Approved)
  {
    if r.status != Approved then Err(InvalidTransition(Approved))
    else Ok(MarkReady(r, actor, now))
  }

  /**
   * Pickup by the employee with row id `employeeId`: only that employee's
   * ready request may be completed, and every other case reports the same
   * error.
   */
  function TryPickup(r: GallonRequest, employeeId: nat, now: Timestamp): (res: Result<GallonRequest, Error>)
    ensures res.Ok? <==> r.employeeId == employeeId && r.status == Ready
    ensures res.Ok? ==> res.value == Complete(r, now)
    ensures res.Err? ==> res.error == RequestNotFound
  {
    if r.employeeId == employeeId && r.status == Ready then Ok(Complete(r, now))
    else Err(RequestNotFound)
  }

  /** One successful transition of any kind from `r` to `r'`. */
  ghost predicate Advances(r: GallonRequest, r': GallonRequest, now: Timestamp) {
    || (exists u: UserId :: TryApprove(r, u, now) == Ok(r'))
    || (exists u: UserId :: TryMarkReady(r, u, now) == Ok(r'))
    || (exists e: nat :: TryPickup(r, e, now) == Ok(r'))
  }

  /**
   * Every successful transition moves exactly one stage forward: none
   * repeats, skips or goes back, and none touches the submission fields.
   */
  lemma AdvanceIsOneStage(r: GallonRequest, r': GallonRequest, now: Timestamp)
    requires Advances(r, r', now)
    ensures Stage(r'.status) == Stage(r.status) + 1
    ensures SameSubmission(r, r')
  {
  }

  /** Well-formedness survives every transition taken with a clock that does not run backwards. */
  lemma AdvanceKeepsShape(r: GallonRequest, r': GallonRequest, now: Timestamp)
    requires WellFormed(r) && LastEvent(r) <= now
    requires Advances(r, r', now)
    ensures WellFormed(r') && LastEvent(r') == now
  {
    if r.status == Pending {
      ApproveKeepsShape(r, r'.approvedBy.value, now);
    } else if r.status == Approved {
      MarkReadyKeepsShape(r, r'.preparedBy.value, now);
    } else {
      CompleteKeepsShape(r, now);
    }
  }

  /** Approval succeeds once; a second approval fails and cannot overwrite approver or time. */
  lemma ApproveOnlyOnce(r: GallonRequest, first: UserId, second: UserId, t1: Timestamp, t2: Timestamp)
    requires r.status == Pending
    ensures TryApprove(r, first, t1).Ok?
    ensures TryApprove(TryApprove(r, first, t1).value, second, t2) == Err(InvalidTransition(Pending))
  {
  }

  /** A request cannot be marked ready before it is approved, nor again once ready or completed. */
  lemma MarkReadyNeedsApproval(r: GallonRequest, actor: UserId, now: Timestamp)
    requires r.status != Approved
    ensures TryMarkReady(r, actor, now) == Err(InvalidTransition(Approved))
  {
  }

  /** Whether pickup succeeds does not depend on which of its conditions fails. */
  lemma PickupFailuresLookAlike(a: GallonRequest, b: GallonRequest, employeeId: nat, now: Timestamp)
    requires a.employeeId != employeeId && a.status == Ready
    requires b.employeeId == employeeId && b.status != Ready
    ensures TryPickup(a, employeeId, now) == TryPickup(b, employeeId, now)
  {
  }
}
