/**
 * The assembly the patient-and-condition tools share: the patient filters,
 * then the condition filters, concatenated (patient clauses and values
 * first), and refused when no clause results at all.
 */
module Combined {
  import opened Wrappers
  import opened Sql
  import opened Guard
  import opened Filters

  /** The two builders' outputs, kept apart because a tool may ask whether conditions were given. */
  datatype Filtered = Filtered(patient: Query, condition: Query)

  /** The clause and parameter lists sent to the database: patient lists, then condition lists. */
  function All(f: Filtered): Query {
    Sql.Join(f.patient, f.condition)
  }

  /**
   * The keywords the two listing tools pass to `build_patient_filters` after
   * the five positional criteria, whatever the values of the team and
   * micro-area arguments.
   */
  const ListingKeywords: seq<string> := ["unidade_saude_id", "equipe_id", "micro_area", "alias"]

  /** The first undeclared keyword of the listing tools' call is `equipe_id`. */
  lemma ListingKeywordsRefused()
    ensures FirstUndeclared(ListingKeywords, PatientFilterKeywords) == Some("equipe_id")
  {
    var ks := ListingKeywords;
    assert ks[0] in PatientFilterKeywords && ks[1] !in PatientFilterKeywords;
    assert ks[1..][0] == "equipe_id";
  }

  /** The condition builder after the outcome of the patient builder's call, then the guard against an empty clause list. */
  function CombineWith(patient: Checked<Query>, cc: ConditionCriteria, allowCidAnd: bool): Checked<Filtered> {
    match patient
    case Err(e) => Err(e)
    case Ok(pq) =>
      match ConditionFilters(cc, allowCidAnd)
      case Err(e) => Err(e)
      case Ok(cq) =>
        if |pq.clauses| + |cq.clauses| == 0 then Err(NoCriteria) else Ok(Filtered(pq, cq))
  }

  /** Both builders, patient first, then the guard. */
  function CombinedFilters(p: PatientCriteria, cc: ConditionCriteria, allowCidAnd: bool): Checked<Filtered> {
    CombineWith(PatientFilters(p), cc, allowCidAnd)
  }

  /** No patient criterion is given. */
  predicate NoPatientCriterion(p: PatientCriteria) {
    p.pacienteId.None? && !Truthy(p.namePrefix) && !Truthy(p.sex)
    && p.ageMin.None? && p.ageMax.None? && p.unidadeSaudeId.None?
  }

  /** No condition criterion is given: no CID-10 or CIAP pattern and no text. */
  predicate NoConditionCriterion(cc: ConditionCriteria) {
    CidPatterns(cc) == [] && CiapPatterns(cc) == [] && !Truthy(cc.conditionText)
  }

  /** The patient builder emits nothing exactly when no patient criterion is given. */
  lemma PatientClausesEmpty(p: PatientCriteria)
    requires PatientFilters(p).Ok?
    ensures |PatientFilters(p).value.clauses| == 0 <==> NoPatientCriterion(p)
    ensures |PatientFilters(p).value.clauses| == 0 ==> PatientFilters(p).value.params == []
  {
    PatientFiltersShape(p);
    KeepPresentEmpty(p, PatientClauseOrder);
    NoneOfTheOrder(p);
  }

  /** No patient criterion is given exactly when no clause of the fixed order has its criterion. */
  lemma NoneOfTheOrder(p: PatientCriteria)
    ensures NoPatientCriterion(p)
            <==> forall k | 0 <= k < |PatientClauseOrder| :: !CriterionPresent(p, PatientClauseOrder[k])
  {
    var o := PatientClauseOrder;
    assert o[0] == PatientIdEquals && o[1] == NameStartsWith && o[2] == SexEquals;
    assert o[3] == AgeAtLeast && o[4] == AgeAtMost && o[5] == FacilityMembership;
  }

  /** The condition builder emits nothing exactly when no condition criterion is given. */
  lemma ConditionClausesEmpty(cc: ConditionCriteria, allowCidAnd: bool)
    requires ConditionFilters(cc, allowCidAnd).Ok?
    ensures |ConditionFilters(cc, allowCidAnd).value.clauses| == 0 <==> NoConditionCriterion(cc)
    ensures |ConditionFilters(cc, allowCidAnd).value.clauses| == 0 ==> ConditionFilters(cc, allowCidAnd).value.params == []
  {
    ConditionFiltersAligned(cc, allowCidAnd);
    var fs := ConditionFragments(cc, allowCidAnd).value;
    if Truthy(cc.conditionText) {
      assert |fs| >= 1;
    } else if CidPatterns(cc) != [] || CiapPatterns(cc) != [] {
      assert |CodeFragments(cc)| >= 1;
    }
  }

  /**
   * What the assembly raises, in order: a patient-filter error, then a
   * condition-filter error, then the refusal of an empty clause list, which
   * happens exactly when no criterion of either kind is given.
   */
  lemma CombinedFiltersErrors(p: PatientCriteria, cc: ConditionCriteria, allowCidAnd: bool)
    ensures PatientFilters(p).Err? ==> CombinedFilters(p, cc, allowCidAnd) == Err(PatientFilters(p).error)
    ensures PatientFilters(p).Ok? && ConditionFilters(cc, allowCidAnd).Err?
            ==> CombinedFilters(p, cc, allowCidAnd) == Err(ConditionFilters(cc, allowCidAnd).error)
    ensures PatientFilters(p).Ok? && ConditionFilters(cc, allowCidAnd).Ok?
            ==> (CombinedFilters(p, cc, allowCidAnd) == Err(NoCriteria)
                 <==> NoPatientCriterion(p) && NoConditionCriterion(cc))
    ensures CombinedFilters(p, cc, allowCidAnd).Ok?
            ==> CombinedFilters(p, cc, allowCidAnd)
                == Ok(Filtered(PatientFilters(p).value, ConditionFilters(cc, allowCidAnd).value))
  {
    if PatientFilters(p).Ok? && ConditionFilters(cc, allowCidAnd).Ok? {
      PatientClausesEmpty(p);
      ConditionClausesEmpty(cc, allowCidAnd);
    }
  }

  /** Calling the tools with no argument at all is refused. */
  lemma NoArgumentsRefused(allowCidAnd: bool)
    ensures CombinedFilters(NoPatientCriteria(), NoConditionCriteria(), allowCidAnd) == Err(NoCriteria)
  {
    PatientFiltersNone();
    ConditionFiltersNone(NoConditionCriteria(), allowCidAnd);
  }

  /**
   * The combined lists keep the patient clauses first and stay aligned;
   * binding them gives the patient clauses their values and then the
   * condition clauses theirs.
   */
  lemma CombinedFiltersAligned(p: PatientCriteria, cc: ConditionCriteria, allowCidAnd: bool)
    requires CombinedFilters(p, cc, allowCidAnd).Ok?
    ensures var f := CombinedFilters(p, cc, allowCidAnd).value;
      && Aligned(f.patient) && Aligned(f.condition) && Aligned(All(f))
      && |All(f).clauses| >= 1
      && All(f).clauses == f.patient.clauses + f.condition.clauses
      && All(f).params == f.patient.params + f.condition.params
      && Bind(f.patient.clauses, f.patient.params).Some?
      && Bind(f.condition.clauses, f.condition.params).Some?
      && Bind(All(f).clauses, All(f).params)
         == Some(Bind(f.patient.clauses, f.patient.params).value + Bind(f.condition.clauses, f.condition.params).value)
  {
    var f := CombinedFilters(p, cc, allowCidAnd).value;
    PatientFiltersShape(p);
    ConditionFiltersAligned(cc, allowCidAnd);
    BindJoin(f.patient, f.condition);
  }
}
