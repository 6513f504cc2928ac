/**
 * `contar_pacientes`: the number of distinct patients matching the patient
 * and condition criteria. CID-10 codes may be combined with AND here; the
 * problem tables are joined only when a condition clause was built.
 */
module ContarPacientes {
  import opened Wrappers
  import opened Sql
  import opened Guard
  import opened Filters
  import opened Combined

  /** The keywords the tool passes to `build_patient_filters` after the five positional criteria. */
  const CalledKeywords: seq<string> := ["unidade_saude_id", "alias"]

  /** The counting statement: its WHERE lists, and whether the problem tables and their CTE are joined. */
  datatype CountStatement = CountStatement(filter: Query, joinsConditions: bool)

  /** The statement the tool runs, or the error it raises before running one. */
  function CountQuery(p: PatientCriteria, cc: ConditionCriteria): Checked<CountStatement> {
    match CombinedFilters(p, cc, true)
    case Err(e) => Err(e)
    case Ok(f) => Ok(CountStatement(All(f), |f.condition.clauses| > 0))
  }

  /** `contar_pacientes`, the database being the function from statement to its one row. */
  function ContarPacientes(p: PatientCriteria, cc: ConditionCriteria,
                           db: CountStatement -> Option<Option<int>>): Checked<int> {
    match CountQuery(p, cc)
    case Err(e) => Err(e)
    case Ok(s) => Ok(CountTotal(db(s)))
  }

  /** Every keyword the tool passes is declared, so the call reaches the builder. */
  lemma CalledKeywordsAccepted(p: PatientCriteria)
    ensures FirstUndeclared(CalledKeywords, PatientFilterKeywords).None?
    ensures CallPatientFilters(CalledKeywords, p) == PatientFilters(p)
  {
    assert CalledKeywords[0] in PatientFilterKeywords && CalledKeywords[1] in PatientFilterKeywords;
  }

  /**
   * The tool raises what the builders raise, in their order, and refuses a
   * call without any criterion; several CID-10 codes under AND are accepted.
   */
  lemma CountQueryErrors(p: PatientCriteria, cc: ConditionCriteria)
    ensures CountQuery(p, cc).Err? <==> CombinedFilters(p, cc, true).Err?
    ensures CountQuery(p, cc).Err? ==> CountQuery(p, cc).error == CombinedFilters(p, cc, true).error
    ensures CountQuery(p, cc) != Err(CidAndNotSupported)
    ensures PatientFilters(p).Ok? && ConditionFilters(cc, true).Ok?
            ==> (CountQuery(p, cc) == Err(NoCriteria) <==> NoPatientCriterion(p) && NoConditionCriterion(cc))
  {
    CombinedFiltersErrors(p, cc, true);
    ConditionFiltersErrors(cc, true);
    PatientFiltersErrors(p);
  }

  /**
   * The statement filters on at least one clause, patient clauses first, its
   * lists aligned; the problem tables are joined exactly when a condition
   * criterion was given.
   */
  lemma CountQueryShape(p: PatientCriteria, cc: ConditionCriteria)
    requires CountQuery(p, cc).Ok?
    ensures var s := CountQuery(p, cc).value;
      var pq := PatientFilters(p).value;
      var cq := ConditionFilters(cc, true).value;
      && PatientFilters(p).Ok? && ConditionFilters(cc, true).Ok?
      && Aligned(s.filter)
      && |s.filter.clauses| >= 1
      && s.filter.clauses == pq.clauses + cq.clauses
      && s.filter.params == pq.params + cq.params
      && (s.joinsConditions <==> !NoConditionCriterion(cc))
  {
    CombinedFiltersErrors(p, cc, true);
    CombinedFiltersAligned(p, cc, true);
    ConditionClausesEmpty(cc, true);
  }

  /** Patient criteria alone never join the problem tables. */
  lemma PatientOnlyCount(p: PatientCriteria)
    requires PatientFilters(p).Ok? && !NoPatientCriterion(p)
    ensures CountQuery(p, NoConditionCriteria()) == Ok(CountStatement(PatientFilters(p).value, false))
  {
    ConditionFiltersNone(NoConditionCriteria(), true);
    PatientClausesEmpty(p);
    var pq := PatientFilters(p).value;
    assert pq.clauses + [] == pq.clauses && pq.params + [] == pq.params;
  }

  /** The count is read from the statement's row; a missing row or a null total counts zero. */
  lemma ContarPacientesResult(p: PatientCriteria, cc: ConditionCriteria, db: CountStatement -> Option<Option<int>>)
    ensures ContarPacientes(p, cc, db).Err? <==> CountQuery(p, cc).Err?
    ensures CountQuery(p, cc).Ok? && (db(CountQuery(p, cc).value).None? || db(CountQuery(p, cc).value).value.None?)
            ==> ContarPacientes(p, cc, db) == Ok(0)
    ensures CountQuery(p, cc).Ok? && db(CountQuery(p, cc).value).Some? && db(CountQuery(p, cc).value).value.Some?
            ==> ContarPacientes(p, cc, db) == Ok(db(CountQuery(p, cc).value).value.value)
  {
  }
}
