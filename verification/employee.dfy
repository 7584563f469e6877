/**
 * `App\Models\Employee`: identity, grade and stored quota, and the
 * quantities derived on every read from the employee's requests.
 */
module Employees {
  import opened Wrappers
  import opened Clock
  import opened Seqs
  import opened QuotaPolicy
  import opened Requests

  /** `code` is the business key (`employee_id` column); `id` is the row key requests refer to. */
  datatype Employee = Employee(
    id: nat,
    code: string,
    name: string,
    grade: string,
    monthlyQuota: int,
    isActive: bool)

  /** Assigning a grade also stores the quota the policy gives it. */
  function SetGrade(e: Employee, grade: string): (e': Employee)
    ensures e'.grade == grade
    ensures ParseGrade(grade).Some? ==> e'.monthlyQuota == QuotaOf(ParseGrade(grade).value)
    ensures ParseGrade(grade).None? ==> e'.monthlyQuota == FallbackQuota
    ensures e'.id == e.id && e'.code == e.code && e'.name == e.name && e'.isActive == e.isActive
  {
    e.(grade := grade, monthlyQuota := QuotaForLabel(grade))
  }

  /** `r` is one of this employee's pickups in the calendar month of `now`. */
  predicate CountsThisMonth(r: GallonRequest, employeeId: nat, now: Timestamp) {
    && r.employeeId == employeeId
    && r.completedAt.Some? && SameMonth(r.completedAt.value, now)
    && r.status == Completed
  }

  function CountedThisMonth(employeeId: nat, now: Timestamp): GallonRequest -> bool {
    (r: GallonRequest) => CountsThisMonth(r, employeeId, now)
  }

  function Quantity(r: GallonRequest): int {
    r.quantity
  }

  /** `current_month_taken`: gallons this employee picked up this calendar month. */
  function CurrentMonthTaken(rs: seq<GallonRequest>, e: Employee, now: Timestamp): (taken: int)
    ensures (forall x :: x in rs ==> !CountsThisMonth(x, e.id, now)) ==> taken == 0
  {
    SumOf(Filter(rs, CountedThisMonth(e.id, now)), Quantity)
  }

  /** `remaining_quota`: what the quota still allows, never below zero. */
  function RemainingQuota(rs: seq<GallonRequest>, e: Employee, now: Timestamp): (q: int)
    ensures q >= 0
    ensures q >= e.monthlyQuota - CurrentMonthTaken(rs, e, now)
    ensures q == 0 || q == e.monthlyQuota - CurrentMonthTaken(rs, e, now)
  {
    var left := e.monthlyQuota - CurrentMonthTaken(rs, e, now);
    if left > 0 then left else 0
  }

  /** One request's share of `current_month_taken`. */
  function Contribution(r: GallonRequest, e: Employee, now: Timestamp): int {
    Masked(CountedThisMonth(e.id, now), Quantity)(r)
  }

  /** The taken figure is the per-request contributions summed over all requests. */
  lemma TakenIsSumOfContributions(rs: seq<GallonRequest>, e: Employee, now: Timestamp)
    ensures CurrentMonthTaken(rs, e, now) == SumOf(rs, Masked(CountedThisMonth(e.id, now), Quantity))
  {
    SumOfFilter(rs, CountedThisMonth(e.id, now), Quantity);
  }

  /** With positive quantities, nothing taken is negative. */
  lemma TakenNonNegative(rs: seq<GallonRequest>, e: Employee, now: Timestamp)
    requires forall i :: 0 <= i < |rs| ==> rs[i].quantity >= 0
    ensures CurrentMonthTaken(rs, e, now) >= 0
  {
    var picked := Filter(rs, CountedThisMonth(e.id, now));
    assert forall i :: 0 <= i < |picked| ==> picked[i] in rs;
    SumOfNonNegative(picked, Quantity);
  }

  /** The remaining quota never exceeds the monthly quota. */
  lemma RemainingAtMostQuota(rs: seq<GallonRequest>, e: Employee, now: Timestamp)
    requires forall i :: 0 <= i < |rs| ==> rs[i].quantity >= 0
    requires e.monthlyQuota >= 0
    ensures 0 <= RemainingQuota(rs, e, now) <= e.monthlyQuota
  {
    TakenNonNegative(rs, e, now);
  }

  /** A positive quantity fits the remaining quota exactly when it fits the quota on top of what was taken. */
  lemma FitsRemainingIffFitsQuota(rs: seq<GallonRequest>, e: Employee, now: Timestamp, quantity: int)
    requires quantity >= 1
    ensures quantity <= RemainingQuota(rs, e, now)
        <==> CurrentMonthTaken(rs, e, now) + quantity <= e.monthlyQuota
  {
  }

  /** Replacing one request changes the taken figure by the change in its contribution. */
  lemma {:induction false} TakenAfterUpdate(rs: seq<GallonRequest>, i: nat, r': GallonRequest, e: Employee, now: Timestamp)
    requires i < |rs|
    ensures CurrentMonthTaken(rs[i := r'], e, now)
         == CurrentMonthTaken(rs, e, now) - Contribution(rs[i], e, now) + Contribution(r', e, now)
  {
    TakenIsSumOfContributions(rs, e, now);
    TakenIsSumOfContributions(rs[i := r'], e, now);
    SumOfUpdate(rs, i, r', Masked(CountedThisMonth(e.id, now), Quantity));
  }

  /** Appending a request raises the taken figure by exactly that request's contribution. */
  lemma {:induction false} TakenAfterAppend(rs: seq<GallonRequest>, r: GallonRequest, e: Employee, now: Timestamp)
    ensures CurrentMonthTaken(rs + [r], e, now) == CurrentMonthTaken(rs, e, now) + Contribution(r, e, now)
  {
    TakenIsSumOfContributions(rs, e, now);
    TakenIsSumOfContributions(rs + [r], e, now);
    SumOfAppend(rs, [r], Masked(CountedThisMonth(e.id, now), Quantity));
  }

  /** Completing one of the employee's open requests now adds its quantity to this month's taken gallons. */
  lemma CompletingAddsQuantity(rs: seq<GallonRequest>, i: nat, e: Employee, now: Timestamp)
    requires i < |rs| && rs[i].employeeId == e.id && rs[i].status != Completed
    ensures CurrentMonthTaken(rs[i := Complete(rs[i], now)], e, now) == CurrentMonthTaken(rs, e, now) + rs[i].quantity
  {
    var done := Complete(rs[i], now);
    assert !CountedThisMonth(e.id, now)(rs[i]);
    assert Contribution(rs[i], e, now) == 0;
    assert CountedThisMonth(e.id, now)(done);
    assert Contribution(done, e, now) == rs[i].quantity;
    TakenAfterUpdate(rs, i, done, e, now);
  }

  /** A pickup in another month or year leaves the remaining quota as it was. */
  lemma OtherMonthDoesNotCount(rs: seq<GallonRequest>, r: GallonRequest, e: Employee, now: Timestamp)
    requires r.status == Completed && r.completedAt.Some?
    requires !SameMonth(r.completedAt.value, now)
    ensures RemainingQuota(rs + [r], e, now) == RemainingQuota(rs, e, now)
  {
    TakenAfterAppend(rs, r, e, now);
  }

  /** Requests not yet picked up never count, whatever their quantity. */
  lemma OnlyCompletedCounts(rs: seq<GallonRequest>, r: GallonRequest, e: Employee, now: Timestamp)
    requires r.status != Completed
    ensures CurrentMonthTaken(rs + [r], e, now) == CurrentMonthTaken(rs, e, now)
  {
    TakenAfterAppend(rs, r, e, now);
  }

  function OwnedBy(employeeId: nat): GallonRequest -> bool {
    (r: GallonRequest) => r.employeeId == employeeId
  }

  function ReadyFor(employeeId: nat): GallonRequest -> bool {
    (r: GallonRequest) => r.employeeId == employeeId && r.status == Ready
  }

  /** Ordering key for `ready_at`; an unset value sorts last in descending order. */
  function ReadyKey(r: GallonRequest): int {
    match r.readyAt
    case Some(t) => t
    case None => -1
  }

  function RequestedKey(r: GallonRequest): int {
    r.requestedAt
  }

  /** The employee's requests awaiting pickup, most recently prepared first. */
  function PendingPickupRequests(rs: seq<GallonRequest>, e: Employee): (r: seq<GallonRequest>)
    ensures forall x :: x in r <==> x in rs && x.employeeId == e.id && x.status == Ready
    ensures multiset(r) == multiset(Filter(rs, ReadyFor(e.id)))
    ensures SortedDesc(r, ReadyKey)
  {
    var r := SortDesc(Filter(rs, ReadyFor(e.id)), ReadyKey);
    SortDescSameElements(Filter(rs, ReadyFor(e.id)), ReadyKey);
    r
  }

  /** All of the employee's requests, in every status, most recently submitted first. */
  function GallonHistory(rs: seq<GallonRequest>, e: Employee): (r: seq<GallonRequest>)
    ensures forall x :: x in r <==> x in rs && x.employeeId == e.id
    ensures multiset(r) == multiset(Filter(rs, OwnedBy(e.id)))
    ensures SortedDesc(r, RequestedKey)
  {
    var r := SortDesc(Filter(rs, OwnedBy(e.id)), RequestedKey);
    SortDescSameElements(Filter(rs, OwnedBy(e.id)), RequestedKey);
    r
  }
}
