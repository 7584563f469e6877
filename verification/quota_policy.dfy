/**
 * The grade-to-quota policy of `App\Models\Employee`: a closed table of
 * monthly gallon quotas per grade, with a fallback for labels outside it.
 */
module QuotaPolicy {
  import opened Wrappers

  /** The grades the employees table admits. */
  datatype Grade = G7 | G8 | G9 | G10 | G11 | G12 | G13

  /** The label a grade is stored under. */
  function GradeLabel(g: Grade): string {
    match g
    case G7 => "G7"
    case G8 => "G8"
    case G9 => "G9"
    case G10 => "G10"
    case G11 => "G11"
    case G12 => "G12"
    case G13 => "G13"
  }

  /** The grade a label names, if any. */
  function ParseGrade(name: string): (g: Option<Grade>)
    ensures g.Some? ==> GradeLabel(g.value) == name
    ensures g.None? ==> forall h: Grade :: GradeLabel(h) != name
  {
    if name == "G7" then Some(G7)
    else if name == "G8" then Some(G8)
    else if name == "G9" then Some(G9)
    else if name == "G10" then Some(G10)
    else if name == "G11" then Some(G11)
    else if name == "G12" then Some(G12)
    else if name == "G13" then Some(G13)
    else None
  }

  /** Labels name grades one-to-one. */
  lemma GradeLabelRoundTrip(g: Grade)
    ensures ParseGrade(GradeLabel(g)) == Some(g)
  {
  }

  /** The quota table as the application declares it, keyed by label. */
  const GradeQuotas: map<string, int> :=
    map["G7" := 24, "G8" := 24, "G9" := 12, "G10" := 10, "G11" := 7, "G12" := 7, "G13" := 7]

  /** The quota given to a label the table does not list. */
  const FallbackQuota: int := 7

  /** Monthly gallons per grade: the policy stated grade by grade. */
  function QuotaOf(g: Grade): nat {
    match g
    case G7 => 24
    case G8 => 24
    case G9 => 12
    case G10 => 10
    case G11 | G12 | G13 => 7
  }

  /** The table covers exactly the admitted grades. */
  lemma TableCoversGrades()
    ensures GradeQuotas.Keys == set g: Grade :: GradeLabel(g)
  {
    assert GradeLabel(G7) == "G7" && GradeLabel(G8) == "G8" && GradeLabel(G9) == "G9";
    assert GradeLabel(G10) == "G10" && GradeLabel(G11) == "G11";
    assert GradeLabel(G12) == "G12" && GradeLabel(G13) == "G13";
  }

  /**
   * The quota stored for a grade label (`$gradeQuotas[$value] ?? 7`): the
   * grade's own quota when the label names one, the fallback otherwise.
   */
  function QuotaForLabel(name: string): (q: int)
    ensures ParseGrade(name).Some? ==> q == QuotaOf(ParseGrade(name).value)
    ensures ParseGrade(name).None? ==> q == FallbackQuota
    ensures q in {24, 12, 10, 7}
  {
    if name in GradeQuotas then GradeQuotas[name] else FallbackQuota
  }
}
