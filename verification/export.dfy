/**
 * `GallonRequestExportService::getExportData`: the rows of the request
 * export for a range of days, a fixed header followed by one 13-column
 * row per request, most recently submitted first.
 */
module Export {
  import opened Wrappers
  import opened Clock
  import opened Seqs
  import opened Requests
  import opened Employees
  import opened Store

  /** A spreadsheet cell: the id and quantity columns hold integers, the rest text. */
  datatype Cell = Num(n: int) | Text(s: string)

  const Header: seq<Cell> := [
    Text("Request ID"), Text("Employee ID"), Text("Employee Name"), Text("Grade"),
    Text("Quantity"), Text("Status"), Text("Requested At"), Text("Approved At"),
    Text("Approved By"), Text("Ready At"), Text("Prepared By"), Text("Completed At"),
    Text("Notes")]

  /** PHP `ucfirst`: an ASCII lower-case first letter becomes upper-case; nothing else changes. */
  function Ucfirst(s: string): (r: string)
    ensures |r| == |s|
    ensures |s| > 0 ==> r[1..] == s[1..]
    ensures |s| > 0 && 'a' <= s[0] <= 'z' ==> r[0] as int == s[0] as int - 32
    ensures |s| > 0 && !('a' <= s[0] <= 'z') ==> r[0] == s[0]
  {
    if |s| > 0 && 'a' <= s[0] <= 'z' then [(s[0] as int - 32) as char] + s[1..] else s
  }

  /** The status as the export shows it. */
  function StatusLabel(s: Status): string {
    Ucfirst(StatusName(s))
  }

  lemma StatusLabels()
    ensures StatusLabel(Pending) == "Pending"
    ensures StatusLabel(Approved) == "Approved"
    ensures StatusLabel(Ready) == "Ready"
    ensures StatusLabel(Completed) == "Completed"
  {
    assert StatusLabel(Pending) == ['P'] + "ending";
    assert StatusLabel(Approved) == ['A'] + "pproved";
    assert StatusLabel(Ready) == ['R'] + "eady";
    assert StatusLabel(Completed) == ['C'] + "ompleted";
  }

  /** `?->format('d-m-Y H:i:s') ?? ''`: a formatted instant, or an empty cell when unset. */
  function TimeCell(t: Option<Timestamp>): (c: Cell)
    ensures c == Text("") <==> t.None?
    ensures t.Some? ==> c == Text(FormatTs(t.value))
  {
    match t
    case Some(v) => Text(FormatTs(v))
    case None => Text("")
  }

  /** `->name ?? ''`: the actor's name, or an empty cell when unset or no longer present. */
  function ActorCell(users: seq<User>, id: Option<UserId>): (c: Cell)
    ensures c.Text?
    ensures UserName(users, id).None? ==> c == Text("")
    ensures id.None? ==> c == Text("")
    ensures UserName(users, id).Some? ==> c == Text(UserName(users, id).value)
  {
    Text(UserName(users, id).GetOr(""))
  }

  /** Every request names an employee that exists, as the foreign key with cascading delete guarantees. */
  predicate OwnersExist(db: Db) {
    forall r :: r in db.requests ==> EmployeeById(db.employees, r.employeeId).Some?
  }

  /** Columns 0-5 of a row: who asked for how much, and where the request stands. */
  function RequestCells(e: Employee, r: GallonRequest): (c: seq<Cell>)
    ensures |c| == 6
    ensures c[0] == Num(r.id) && c[1] == Text(e.code) && c[2] == Text(e.name) && c[3] == Text(e.grade)
    ensures c[4] == Num(r.quantity) && c[5] == Text(StatusLabel(r.status))
  {
    [Num(r.id), Text(e.code), Text(e.name), Text(e.grade), Num(r.quantity), Text(StatusLabel(r.status))]
  }

  /** Columns 6-12 of a row: each step's time and actor, then the notes. */
  function TimelineCells(users: seq<User>, r: GallonRequest): (c: seq<Cell>)
    ensures |c| == 7
    ensures c[0] == Text(FormatTs(r.requestedAt))
    ensures c[1] == TimeCell(r.approvedAt) && c[3] == TimeCell(r.readyAt) && c[5] == TimeCell(r.completedAt)
    ensures c[2] == ActorCell(users, r.approvedBy) && c[4] == ActorCell(users, r.preparedBy)
    ensures c[6] == Text(r.notes.GetOr(""))
  {
    [Text(FormatTs(r.requestedAt)),
     TimeCell(r.approvedAt), ActorCell(users, r.approvedBy),
     TimeCell(r.readyAt), ActorCell(users, r.preparedBy),
     TimeCell(r.completedAt), Text(r.notes.GetOr(""))]
  }

  /** One data row; its columns line up with `Header`. */
  function ExportRow(db: Db, r: GallonRequest): (row: seq<Cell>)
    requires EmployeeById(db.employees, r.employeeId).Some?
    ensures |row| == |Header| == 13
    ensures var e := EmployeeById(db.employees, r.employeeId).value;
      && row[0] == Num(r.id)
      && row[1] == Text(e.code) && row[2] == Text(e.name) && row[3] == Text(e.grade)
      && row[4] == Num(r.quantity)
      && row[5] == Text(StatusLabel(r.status))
      && row[6] == Text(FormatTs(r.requestedAt))
    ensures row[7] == TimeCell(r.approvedAt) && row[9] == TimeCell(r.readyAt) && row[11] == TimeCell(r.completedAt)
    ensures row[8] == ActorCell(db.users, r.approvedBy) && row[10] == ActorCell(db.users, r.preparedBy)
    ensures row[12] == Text(r.notes.GetOr(""))
  {
    RequestCells(EmployeeById(db.employees, r.employeeId).value, r) + TimelineCells(db.users, r)
  }

  /** The data rows for `rs`, in order. */
  function Rows(db: Db, rs: seq<GallonRequest>): (rows: seq<seq<Cell>>)
    requires forall x :: x in rs ==> EmployeeById(db.employees, x.employeeId).Some?
    ensures |rows| == |rs|
    ensures forall i :: 0 <= i < |rs| ==> |rows[i]| == |Header|
    ensures forall i :: 0 <= i < |rs| ==> rows[i] == ExportRow(db, rs[i])
  {
    seq(|rs|, i requires 0 <= i < |rs| => ExportRow(db, rs[i]))
  }

  /** Submitted on a day from `dateFrom` to `dateTo`, both included. */
  predicate InDayRange(r: GallonRequest, dateFrom: Day, dateTo: Day) {
    dateFrom <= DayOf(r.requestedAt) <= dateTo
  }

  function InRange(dateFrom: Day, dateTo: Day): GallonRequest -> bool {
    (r: GallonRequest) => InDayRange(r, dateFrom, dateTo)
  }

  /** The requests `keep` selects, most recently submitted first (`whereBetween` then `orderBy desc`). */
  function Selection(db: Db, keep: GallonRequest -> bool): (rs: seq<GallonRequest>)
    ensures forall x :: x in rs <==> x in db.requests && keep(x)
    ensures multiset(rs) == multiset(Filter(db.requests, keep))
    ensures |rs| == |Filter(db.requests, keep)|
    ensures SortedDesc(rs, RequestedKey)
  {
    var rs := SortDesc(Filter(db.requests, keep), RequestedKey);
    SortDescSameElements(Filter(db.requests, keep), RequestedKey);
    rs
  }

  /** The header followed by one row per request of `rs`, in order. */
  function Assemble(db: Db, rs: seq<GallonRequest>): (data: seq<seq<Cell>>)
    requires forall x :: x in rs ==> EmployeeById(db.employees, x.employeeId).Some?
    ensures |data| == 1 + |rs|
    ensures data[0] == Header
    ensures forall i :: 1 <= i < |data| ==> |data[i]| == |Header|
    ensures data[1..] == Rows(db, rs)
  {
    [Header] + Rows(db, rs)
  }

  /** The requests the export covers: submitted within the day range, most recent first. */
  function ExportRequests(db: Db, dateFrom: Day, dateTo: Day): (rs: seq<GallonRequest>)
    ensures forall x :: x in rs <==> x in db.requests && InDayRange(x, dateFrom, dateTo)
    ensures |rs| == |Filter(db.requests, InRange(dateFrom, dateTo))|
    ensures multiset(rs) == multiset(Filter(db.requests, InRange(dateFrom, dateTo)))
    ensures forall x {:trigger multiset(rs)[x]} ::
      multiset(rs)[x] == if InDayRange(x, dateFrom, dateTo) then multiset(db.requests)[x] else 0
    ensures SortedDesc(rs, RequestedKey)
  {
    Selection(db, InRange(dateFrom, dateTo))
  }

  /** The header, then one row per request submitted in the day range. */
  function GetExportData(db: Db, dateFrom: Day, dateTo: Day): (data: seq<seq<Cell>>)
    requires OwnersExist(db)
    ensures |data| == 1 + |Filter(db.requests, InRange(dateFrom, dateTo))|
    ensures data[0] == Header
    ensures forall i :: 1 <= i < |data| ==> |data[i]| == |Header|
    ensures data[1..] == Rows(db, ExportRequests(db, dateFrom, dateTo))
  {
    Assemble(db, ExportRequests(db, dateFrom, dateTo))
  }

  /**
   * The range test as the service writes it: `whereBetween` compares the
   * submission instant with the two dates read as midnight, so the upper
   * bound is the first instant of `dateTo` rather than the whole day.
   */
  predicate InInstantRangeAsWritten(r: GallonRequest, dateFrom: Day, dateTo: Day) {
    StartOfDay(dateFrom) <= r.requestedAt <= StartOfDay(dateTo)
  }

  function InRangeAsWritten(dateFrom: Day, dateTo: Day): GallonRequest -> bool {
    (r: GallonRequest) => InInstantRangeAsWritten(r, dateFrom, dateTo)
  }

  /** The export as written: the same rows, over the midnight-to-midnight instant range. */
  function GetExportDataAsWritten(db: Db, dateFrom: Day, dateTo: Day): (data: seq<seq<Cell>>)
    requires OwnersExist(db)
    ensures |data| == 1 + |Filter(db.requests, InRangeAsWritten(dateFrom, dateTo))|
    ensures data[0] == Header
    ensures data[1..] == Rows(db, Selection(db, InRangeAsWritten(dateFrom, dateTo)))
  {
    Assemble(db, Selection(db, InRangeAsWritten(dateFrom, dateTo)))
  }

  /**
   * The written range is the day range minus everything on `dateTo`
   * after its first instant.
   */
  lemma AsWrittenRangeCharacterised(r: GallonRequest, dateFrom: Day, dateTo: Day)
    ensures InInstantRangeAsWritten(r, dateFrom, dateTo)
        <==> InDayRange(r, dateFrom, dateTo) && (DayOf(r.requestedAt) < dateTo || r.requestedAt == StartOfDay(dateTo))
  {
    DayBounds(r.requestedAt);
    if DayOf(r.requestedAt) < dateTo {
      assert StartOfDay(DayOf(r.requestedAt) + 1) <= StartOfDay(dateTo);
    }
    if r.requestedAt <= StartOfDay(dateTo) {
      assert DayOf(r.requestedAt) <= dateTo;
    }
  }

  /**
   * The discrepancy on one input: a request submitted at noon on the only
   * day of a one-day export is missing from the export as written, though
   * it lies inside the requested day range.
   */
  lemma AsWrittenDropsLastDay()
    ensures var e := Employee(1, "EMP001", "John Smith", "G9", 12, true);
      var r := GallonRequest(1, 1, 5, Pending, StartOfDay(20000) + 43200, None, None, None, None, None, None);
      var db := Db([e], [r], [], 2);
      && OwnersExist(db)
      && |GetExportData(db, 20000, 20000)| == 2
      && |GetExportDataAsWritten(db, 20000, 20000)| == 1
  {
    var e := Employee(1, "EMP001", "John Smith", "G9", 12, true);
    var r := GallonRequest(1, 1, 5, Pending, StartOfDay(20000) + 43200, None, None, None, None, None, None);
    var db := Db([e], [r], [], 2);
    assert EmployeeById(db.employees, 1).Some?;
    assert Filter(db.requests, InRange(20000, 20000)) == [r] by {
      assert db.requests[..0] == [];
    }
    assert Filter(db.requests, InRangeAsWritten(20000, 20000)) == [] by {
      assert db.requests[..0] == [];
    }
  }
}
