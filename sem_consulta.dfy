/**
 * Patients of a clinical profile (hypertension, diabetes, pregnancy) whose
 * last visit to a physician or nurse is older than a number of days: the
 * profile and day-count validation, the base patient set, the parameter
 * order of the statement, and the count and paginated-list tools.
 */
module SemConsulta {
  import opened Wrappers
  import opened Text
  import opened Sql
  import opened Guard
  import opened Filters
  import opened Initials

  /** `_DEFAULT_DIAS`: the default number of days without a visit, per profile. */
  const DefaultDias: map<string, int> := map["hipertensao" := 180, "diabetes" := 180, "gestante" := 60]

  /** The problem-list code patterns of each chronic profile. */
  const HipertensaoCid: seq<string> := ["I10%", "I11%", "I12%", "I13%", "I15%"]
  const HipertensaoCiap: seq<string> := ["K86", "K87"]
  const DiabetesCid: seq<string> := ["E10%", "E11%", "E12%", "E13%", "E14%"]
  const DiabetesCiap: seq<string> := ["T89", "T90"]

  /** The cap on the listing's page size. */
  const ListCap: int := 200

  predicate IsTipo(t: string) {
    t == "hipertensao" || t == "diabetes" || t == "gestante"
  }

  lemma DefaultDiasKeys(t: string)
    ensures t in DefaultDias <==> IsTipo(t)
  {
  }

  // ---------------------------------------------------------------- validation

  /** `_normalize_tipo`: required, then trimmed, lower-cased and checked against the three profiles. */
  function NormalizeTipo(tipo: Option<string>): (r: Checked<string>)
    ensures r.Ok? ==> IsTipo(r.value)
  {
    if tipo.None? || |tipo.value| == 0 then Err(TipoRequired)
    else
      var normalized := Lower(Strip(tipo.value));
      DefaultDiasKeys(normalized);
      if normalized in DefaultDias then Ok(normalized) else Err(TipoInvalid)
  }

  /** A missing or empty profile is refused as missing; any other text as invalid unless it names a profile. */
  lemma NormalizeTipoErrors(tipo: Option<string>)
    ensures NormalizeTipo(tipo) == Err(TipoRequired) <==> !Truthy(tipo)
    ensures Truthy(tipo) ==> (NormalizeTipo(tipo).Ok? <==> IsTipo(Lower(Strip(tipo.value))))
    ensures Truthy(tipo) && !IsTipo(Lower(Strip(tipo.value))) ==> NormalizeTipo(tipo) == Err(TipoInvalid)
  {
    if Truthy(tipo) {
      DefaultDiasKeys(Lower(Strip(tipo.value)));
    }
  }

  /** The three profile names are already trimmed and lower-case. */
  lemma TipoIsNormal(t: string)
    requires IsTipo(t)
    ensures forall i | 0 <= i < |t| :: IsLowerLetter(t[i])
    ensures Strip(t) == t && Lower(t) == t && |t| > 0
  {
    LowerLettersFixed(t);
    StripClean(t);
  }

  /** A given profile is looked up by its trimmed lower-case form. */
  lemma NormalizeTipoKey(tipo: Option<string>, key: string)
    requires tipo.Some? && |tipo.value| > 0 && key == Lower(Strip(tipo.value))
    ensures NormalizeTipo(tipo) == if key in DefaultDias then Ok(key) else Err(TipoInvalid)
  {
  }

  /** Each profile name is accepted as itself. */
  lemma NormalizeTipoOfTipo(t: string)
    requires IsTipo(t)
    ensures NormalizeTipo(Some(t)) == Ok(t)
  {
    if t == "gestante" {
      TipoIsNormal("gestante");
      NormalizeTipoKey(Some("gestante"), "gestante");
    } else if t == "diabetes" {
      TipoIsNormal("diabetes");
      NormalizeTipoKey(Some("diabetes"), "diabetes");
    } else {
      TipoIsNormal("hipertensao");
      NormalizeTipoKey(Some("hipertensao"), "hipertensao");
    }
  }

  /** Normalising twice is normalising once. */
  lemma NormalizeTipoIdempotent(tipo: Option<string>)
    ensures NormalizeTipo(tipo).Ok? ==> NormalizeTipo(Some(NormalizeTipo(tipo).value)) == NormalizeTipo(tipo)
  {
    if NormalizeTipo(tipo).Ok? {
      NormalizeTipoOfTipo(NormalizeTipo(tipo).value);
    }
  }

  lemma LowerUpperString(s: string)
    ensures Lower(Upper(s)) == Lower(s)
  {
  }

  /** Letter case does not matter: an upper-cased profile name normalises the same way. */
  lemma NormalizeTipoIgnoresCase(s: string)
    ensures NormalizeTipo(Some(Upper(s))) == NormalizeTipo(Some(s))
  {
    if |s| > 0 {
      assert Upper(s) != [];
      StripUpper(s);
      LowerUpperString(Strip(s));
    } else {
      assert Upper(s) == s;
    }
  }

  /** `_resolve_dias`: the profile's default when absent, otherwise a positive count. */
  function ResolveDias(tipo: string, dias: Option<int>): (r: Checked<int>)
    requires IsTipo(tipo)
    ensures r.Ok? ==> r.value > 0
  {
    DefaultDiasKeys(tipo);
    if dias.None? then Ok(DefaultDias[tipo])
    else if dias.value <= 0 then Err(NonPositiveDays)
    else Ok(dias.value)
  }

  /** The defaults are 180 days for the chronic profiles and 60 for pregnancy; a given count is kept or refused. */
  lemma ResolveDiasCases(tipo: string, dias: Option<int>)
    requires IsTipo(tipo)
    ensures dias.None? && tipo == "gestante" ==> ResolveDias(tipo, dias) == Ok(60)
    ensures dias.None? && tipo != "gestante" ==> ResolveDias(tipo, dias) == Ok(180)
    ensures dias.Some? && dias.value <= 0 ==> ResolveDias(tipo, dias) == Err(NonPositiveDays)
    ensures dias.Some? && dias.value > 0 ==> ResolveDias(tipo, dias) == Ok(dias.value)
    ensures ResolveDias(tipo, dias).Err? <==> dias.Some? && dias.value <= 0
  {
  }

  // ---------------------------------------------------------------- base patient set

  /**
   * `_build_base_sql`: pregnant patients with an open prenatal record need no
   * parameter; the chronic profiles match the problem list against the
   * profile's CID-10 and CIAP pattern lists.
   */
  function BaseSql(tipo: string): Checked<Query> {
    if tipo == "gestante" then Ok(Query([OpenPrenatal], []))
    else if tipo == "hipertensao" then
      Ok(Query([ProblemCodesAny], [TextListParam(HipertensaoCid), TextListParam(HipertensaoCiap)]))
    else if tipo == "diabetes" then
      Ok(Query([ProblemCodesAny], [TextListParam(DiabetesCid), TextListParam(DiabetesCiap)]))
    else Err(TipoInvalid)
  }

  /** Exactly the three profiles have a base set; each is aligned, and only the chronic ones take the two pattern lists. */
  lemma BaseSqlCases(tipo: string)
    ensures BaseSql(tipo).Ok? <==> IsTipo(tipo)
    ensures !IsTipo(tipo) ==> BaseSql(tipo) == Err(TipoInvalid)
    ensures BaseSql(tipo).Ok? ==> Aligned(BaseSql(tipo).value)
    ensures tipo == "gestante" ==> BaseSql(tipo).Ok? && BaseSql(tipo).value.params == []
    ensures tipo == "hipertensao"
            ==> BaseSql(tipo).Ok?
                && BaseSql(tipo).value.params == [TextListParam(HipertensaoCid), TextListParam(HipertensaoCiap)]
    ensures tipo == "diabetes"
            ==> BaseSql(tipo).Ok?
                && BaseSql(tipo).value.params == [TextListParam(DiabetesCid), TextListParam(DiabetesCiap)]
  {
  }

  // ---------------------------------------------------------------- the statement

  /** Only the facility criterion is given to the patient filters. */
  function UnitOnly(unit: Option<int>): PatientCriteria {
    PatientCriteria(None, None, None, None, None, unit)
  }

  /** The facility condition on the last-visit subquery, or the refusal of a non-positive id. */
  function LastVisitWhere(unit: Option<int>): Checked<Query> {
    if unit.None? then Ok(Query([], []))
    else if unit.value <= 0 then Err(NonPositiveFacility)
    else Ok(Query([LastVisitAtFacility], [IntParam(unit.value)]))
  }

  /** The interval parameter, `f"{dias} days"`. */
  function DaysInterval(dias: int): string {
    Decimal(dias) + " days"
  }

  /** The outer WHERE clause: the visit is missing or older than the interval. */
  function IntervalQuery(dias: int): Query {
    Query([LastVisitBefore], [TextParam(DaysInterval(dias))])
  }

  /**
   * `_build_sem_consulta_sql`, with the patient filters called as their
   * signature allows: base set, last-visit facility condition, the interval,
   * then the patient filters, clauses and parameters in the same order.
   */
  function SemConsultaSql(tipo: string, unit: Option<int>, dias: int): Checked<Query> {
    match BaseSql(tipo)
    case Err(e) => Err(e)
    case Ok(base) =>
      match LastVisitWhere(unit)
      case Err(e) => Err(e)
      case Ok(ult) =>
        match PatientFilters(UnitOnly(unit))
        case Err(e) => Err(e)
        case Ok(patient) => Ok(Sql.Join(Sql.Join(base, ult), Sql.Join(IntervalQuery(dias), patient)))
  }

  /** A positive or absent facility id passes the patient filters, which then emit at most the facility clause. */
  lemma UnitOnlyFilters(unit: Option<int>)
    requires unit.None? || unit.value > 0
    ensures unit.None? ==> PatientFilters(UnitOnly(unit)) == Ok(Query([], []))
    ensures unit.Some? ==> PatientFilters(UnitOnly(unit))
                           == Ok(Query([FacilityMembership], [IntParam(unit.value), IntParam(unit.value)]))
  {
    var c := UnitOnly(unit);
    EmitAllIsPieces(c);
    var q0 := Query([], []);
    assert Emit(c, q0, PatientIdEquals) == q0;
    assert Emit(c, q0, NameStartsWith) == q0;
    assert Emit(c, q0, SexEquals) == q0;
    assert Emit(c, q0, AgeAtLeast) == q0;
    assert Emit(c, q0, AgeAtMost) == q0;
    assert EmitAll(c) == Emit(c, q0, FacilityMembership);
    if unit.Some? {
      var u := IntParam(unit.value);
      assert CriterionParams(c, FacilityMembership) == [u, u];
      assert q0.clauses + [FacilityMembership] == [FacilityMembership];
      assert q0.params + [u, u] == [u, u];
    }
  }

  /** The patient-filter part of the statement: nothing, or the facility clause with the id twice. */
  function UnitFilter(unit: Option<int>): Query {
    if unit.Some? then Query([FacilityMembership], [IntParam(unit.value), IntParam(unit.value)]) else Query([], [])
  }

  /** With valid arguments the statement is the four parts joined in order. */
  lemma SemConsultaSqlParts(tipo: string, unit: Option<int>, dias: int)
    requires BaseSql(tipo).Ok? && (unit.None? || unit.value > 0)
    ensures SemConsultaSql(tipo, unit, dias)
            == Ok(Sql.Join(Sql.Join(BaseSql(tipo).value, LastVisitWhere(unit).value),
                           Sql.Join(IntervalQuery(dias), UnitFilter(unit))))
  {
    UnitOnlyFilters(unit);
  }

  /** The lists after the base set, for an absent or a positive facility id. */
  function TailClauses(unit: Option<int>): seq<Clause> {
    if unit.Some? then [LastVisitAtFacility, LastVisitBefore, FacilityMembership] else [LastVisitBefore]
  }

  function TailParams(unit: Option<int>, dias: int): seq<Param> {
    var d := TextParam(DaysInterval(dias));
    if unit.Some? then [IntParam(unit.value), d, IntParam(unit.value), IntParam(unit.value)] else [d]
  }

  /** Each tail clause takes its own values: the facility id, the interval, the facility id twice. */
  lemma TailBinds(unit: Option<int>, dias: int)
    ensures var d := TextParam(DaysInterval(dias));
      Bind(TailClauses(unit), TailParams(unit, dias))
      == Some(if unit.Some? then [[IntParam(unit.value)], [d], [IntParam(unit.value), IntParam(unit.value)]] else [[d]])
  {
    var d := TextParam(DaysInterval(dias));
    BindOne(LastVisitBefore, [d]);
    if unit.Some? {
      FacilityTailBinds(IntParam(unit.value), d);
    }
  }

  /** The three clauses of the facility's tail, each with its own values. */
  lemma FacilityTailBinds(u: Param, d: Param)
    ensures Bind([LastVisitAtFacility, LastVisitBefore, FacilityMembership], [u, d, u, u]) == Some([[u], [d], [u, u]])
  {
    BindOne(LastVisitAtFacility, [u]);
    BindOne(LastVisitBefore, [d]);
    BindOne(FacilityMembership, [u, u]);
    BindConcat([LastVisitBefore], [d], [FacilityMembership], [u, u], [[d]], [[u, u]]);
    assert [LastVisitBefore] + [FacilityMembership] == [LastVisitBefore, FacilityMembership];
    assert [d] + [u, u] == [d, u, u] && [[d]] + [[u, u]] == [[d], [u, u]];
    BindConcat([LastVisitAtFacility], [u], [LastVisitBefore, FacilityMembership], [d, u, u], [[u]], [[d], [u, u]]);
    assert [LastVisitAtFacility] + [LastVisitBefore, FacilityMembership] == [LastVisitAtFacility, LastVisitBefore, FacilityMembership];
    assert [u] + [d, u, u] == [u, d, u, u] && [[u]] + [[d], [u, u]] == [[u], [d], [u, u]];
  }

  lemma SemConsultaSqlJoined(base: Query, unit: Option<int>, dias: int)
    requires unit.None? || unit.value > 0
    ensures var q := Sql.Join(Sql.Join(base, LastVisitWhere(unit).value), Sql.Join(IntervalQuery(dias), UnitFilter(unit)));
      q == Query(base.clauses + TailClauses(unit), base.params + TailParams(unit, dias))
  {
    if unit.Some? {
      var u := IntParam(unit.value);
      var d := TextParam(DaysInterval(dias));
      assert base.clauses + [LastVisitAtFacility] + ([LastVisitBefore] + [FacilityMembership])
          == base.clauses + TailClauses(unit);
      assert base.params + [u] + ([d] + [u, u]) == base.params + TailParams(unit, dias);
    } else {
      assert base.clauses + [] + ([LastVisitBefore] + []) == base.clauses + TailClauses(unit);
      assert base.params + [] + ([TextParam(DaysInterval(dias))] + []) == base.params + TailParams(unit, dias);
    }
  }

  /**
   * What the statement raises, in order (profile, then facility), and with
   * valid arguments its exact clause and parameter lists: base parameters,
   * the facility id for the last-visit subquery, the interval, then the
   * facility id twice for the patient filter. The interval clause is the
   * first clause after the two subqueries.
   */
  lemma SemConsultaSqlShape(tipo: string, unit: Option<int>, dias: int)
    ensures SemConsultaSql(tipo, unit, dias).Err?
            <==> !IsTipo(tipo) || (unit.Some? && unit.value <= 0)
    ensures !IsTipo(tipo) ==> SemConsultaSql(tipo, unit, dias) == Err(TipoInvalid)
    ensures IsTipo(tipo) && unit.Some? && unit.value <= 0
            ==> SemConsultaSql(tipo, unit, dias) == Err(NonPositiveFacility)
    ensures IsTipo(tipo) && unit.None?
            ==> var base := BaseSql(tipo).value;
                SemConsultaSql(tipo, unit, dias)
                == Ok(Query(base.clauses + [LastVisitBefore], base.params + [TextParam(DaysInterval(dias))]))
    ensures IsTipo(tipo) && unit.Some? && unit.value > 0
            ==> var base := BaseSql(tipo).value;
                var u := IntParam(unit.value);
                SemConsultaSql(tipo, unit, dias)
                == Ok(Query(base.clauses + [LastVisitAtFacility, LastVisitBefore, FacilityMembership],
                            base.params + [u, TextParam(DaysInterval(dias)), u, u]))
  {
    BaseSqlCases(tipo);
    if IsTipo(tipo) && (unit.None? || unit.value > 0) {
      SemConsultaSqlParts(tipo, unit, dias);
      SemConsultaSqlJoined(BaseSql(tipo).value, unit, dias);
    }
  }

  /**
   * The statement's lists are aligned, and binding them gives each part its
   * own values: the base lists, the facility id, the interval, the facility
   * id twice.
   */
  lemma SemConsultaSqlBinds(tipo: string, unit: Option<int>, dias: int)
    requires SemConsultaSql(tipo, unit, dias).Ok?
    ensures var q := SemConsultaSql(tipo, unit, dias).value;
      var base := BaseSql(tipo).value;
      var d := TextParam(DaysInterval(dias));
      && Aligned(q)
      && Bind(base.clauses, base.params).Some?
      && Bind(q.clauses, q.params)
         == Some(Bind(base.clauses, base.params).value
                 + (if unit.Some? then [[IntParam(unit.value)], [d], [IntParam(unit.value), IntParam(unit.value)]]
                    else [[d]]))
  {
    SemConsultaSqlShape(tipo, unit, dias);
    BaseSqlCases(tipo);
    var base := BaseSql(tipo).value;
    SemConsultaSqlParts(tipo, unit, dias);
    SemConsultaSqlJoined(base, unit, dias);
    BindIffAligned(base);
    TailBinds(unit, dias);
    var tail := Query(TailClauses(unit), TailParams(unit, dias));
    BindIffAligned(tail);
    BindJoin(base, tail);
  }

  /** `_build_sem_consulta_sql`: the facility condition and the WHERE list are grown step by step. */
  method BuildSemConsultaSql(tipo: string, unit: Option<int>, dias: int) returns (r: Checked<Query>)
    ensures r == SemConsultaSql(tipo, unit, dias)
  {
    var base := BaseSql(tipo);
    if base.Err? {
      return Err(base.error);
    }
    var ultClauses: seq<Clause> := [];
    var ultParams: seq<Param> := [];
    if unit.Some? {
      var unitId := unit.value;
      if unitId <= 0 {
        return Err(NonPositiveFacility);
      }
      ultClauses := ultClauses + [LastVisitAtFacility];
      ultParams := ultParams + [IntParam(unitId)];
    }
    UnitOnlyFilters(unit);
    var patient := BuildPatientFilters(UnitOnly(unit));
    var whereClauses: seq<Clause> := [LastVisitBefore];
    whereClauses := whereClauses + patient.value.clauses;
    var params := base.value.params + ultParams + [TextParam(DaysInterval(dias))] + patient.value.params;
    r := Ok(Query(base.value.clauses + ultClauses + whereClauses, params));
    SemConsultaSqlParts(tipo, unit, dias);
    assert Query(ultClauses, ultParams) == LastVisitWhere(unit).value;
    assert patient.value == UnitFilter(unit);
    assert base.value.clauses + ultClauses + whereClauses
        == (base.value.clauses + ultClauses) + ([LastVisitBefore] + patient.value.clauses);
    assert params == (base.value.params + ultParams) + ([TextParam(DaysInterval(dias))] + patient.value.params);
  }

  // ---------------------------------------------------------------- as written

  /** The keywords `_build_sem_consulta_sql` passes to `build_patient_filters`, in call order. */
  const PassedKeywords: seq<string> :=
    ["paciente_id", "name_prefix", "sex", "age_min", "age_max", "unidade_saude_id", "equipe_id", "micro_area", "alias"]

  /**
   * `_build_sem_consulta_sql` as written: the team and micro-area keywords are
   * passed whatever their values, and the filter builder does not declare them.
   */
  function SemConsultaSqlAsWritten(tipo: string, unit: Option<int>, dias: int): Checked<Query> {
    match BaseSql(tipo)
    case Err(e) => Err(e)
    case Ok(base) =>
      match LastVisitWhere(unit)
      case Err(e) => Err(e)
      case Ok(ult) =>
        match CallPatientFilters(PassedKeywords, UnitOnly(unit))
        case Err(e) => Err(e)
        case Ok(patient) => Ok(Sql.Join(Sql.Join(base, ult), Sql.Join(IntervalQuery(dias), patient)))
  }

  /** The first undeclared keyword of the call is `equipe_id`. */
  lemma PassedKeywordsRefused()
    ensures FirstUndeclared(PassedKeywords, PatientFilterKeywords) == Some("equipe_id")
  {
    var ks := PassedKeywords;
    assert ks[0] in PatientFilterKeywords && ks[1] in PatientFilterKeywords && ks[2] in PatientFilterKeywords;
    assert ks[3] in PatientFilterKeywords && ks[4] in PatientFilterKeywords && ks[5] in PatientFilterKeywords;
    assert ks[6] !in PatientFilterKeywords;
    assert ks[1..][1..][1..][1..][1..][1..] == ks[6..];
  }

  /**
   * As written, every call that passes the profile and facility checks
   * raises the keyword error, so neither tool can return for valid input;
   * where the corrected statement succeeds the two differ.
   */
  lemma SemConsultaSqlAsWrittenRaises(tipo: string, unit: Option<int>, dias: int)
    ensures SemConsultaSqlAsWritten(tipo, unit, dias).Err?
    ensures IsTipo(tipo) && (unit.None? || unit.value > 0)
            ==> SemConsultaSqlAsWritten(tipo, unit, dias) == Err(UnexpectedKeyword("equipe_id"))
                && SemConsultaSql(tipo, unit, dias).Ok?
  {
    PassedKeywordsRefused();
    SemConsultaSqlShape(tipo, unit, dias);
    BaseSqlCases(tipo);
  }

  // ---------------------------------------------------------------- the two tools

  /** The statement `contar_pacientes_sem_consulta` runs: profile, then days, then the statement's own checks. */
  function CountQuery(tipo: Option<string>, unit: Option<int>, dias: Option<int>): Checked<Query> {
    match NormalizeTipo(tipo)
    case Err(e) => Err(e)
    case Ok(t) =>
      match ResolveDias(t, dias)
      case Err(e) => Err(e)
      case Ok(d) => SemConsultaSql(t, unit, d)
  }

  /** `contar_pacientes_sem_consulta`, the database being the function from statement to its one row. */
  function CountSemConsulta(tipo: Option<string>, unit: Option<int>, dias: Option<int>,
                            db: Query -> Option<Option<int>>): Checked<int> {
    match CountQuery(tipo, unit, dias)
    case Err(e) => Err(e)
    case Ok(q) => Ok(CountTotal(db(q)))
  }

  /** The count is read from the statement's row; a missing row or a null total counts zero. */
  lemma CountSemConsultaResult(tipo: Option<string>, unit: Option<int>, dias: Option<int>,
                               db: Query -> Option<Option<int>>)
    ensures CountSemConsulta(tipo, unit, dias, db).Err? <==> CountQuery(tipo, unit, dias).Err?
    ensures CountQuery(tipo, unit, dias).Ok? && (db(CountQuery(tipo, unit, dias).value).None?
                                                 || db(CountQuery(tipo, unit, dias).value).value.None?)
            ==> CountSemConsulta(tipo, unit, dias, db) == Ok(0)
    ensures CountQuery(tipo, unit, dias).Ok? && db(CountQuery(tipo, unit, dias).value).Some?
            && db(CountQuery(tipo, unit, dias).value).value.Some?
            ==> CountSemConsulta(tipo, unit, dias, db) == Ok(db(CountQuery(tipo, unit, dias).value).value.value)
  {
  }

  /** The statement `listar_pacientes_sem_consulta` runs: the filter statement, then LIMIT and OFFSET. */
  function ListQuery(tipo: Option<string>, unit: Option<int>, dias: Option<int>, limite: int, offset: int): Checked<Query> {
    match CountQuery(tipo, unit, dias)
    case Err(e) => Err(e)
    case Ok(q) => Ok(Page(q, Clamp(limite, ListCap), Max(0, offset)))
  }

  /** A statement followed by `LIMIT %s OFFSET %s`. */
  function Page(q: Query, limit: int, offset: int): Query {
    Sql.Join(q, Query([Limit, Offset], [IntParam(limit), IntParam(offset)]))
  }

  /** Limit and offset are the last two parameters, after all of the statement's own; alignment is kept. */
  lemma PageShape(q: Query, limit: int, offset: int)
    requires Aligned(q)
    ensures var p := Page(q, limit, offset);
      && Aligned(p)
      && p.clauses == q.clauses + [Limit, Offset]
      && |p.params| == |q.params| + 2
      && p.params[..|q.params|] == q.params
      && p.params[|q.params|..] == [IntParam(limit), IntParam(offset)]
  {
    var tail := Query([Limit, Offset], [IntParam(limit), IntParam(offset)]);
    assert HolesAll(tail.clauses) == 2;
    BindJoin(q, tail);
  }

  /** Every statement the count tool would run is aligned. */
  lemma CountQueryAligned(tipo: Option<string>, unit: Option<int>, dias: Option<int>)
    requires CountQuery(tipo, unit, dias).Ok?
    ensures Aligned(CountQuery(tipo, unit, dias).value)
  {
    var t := NormalizeTipo(tipo).value;
    var d := ResolveDias(t, dias).value;
    SemConsultaSqlBinds(t, unit, d);
  }

  /**
   * The page size is clamped into [1, 200] and a negative offset becomes 0;
   * both come after every filter parameter, and the lists stay aligned.
   * The listing fails exactly when the count would.
   */
  lemma ListQueryShape(tipo: Option<string>, unit: Option<int>, dias: Option<int>, limite: int, offset: int)
    ensures ListQuery(tipo, unit, dias, limite, offset).Err? <==> CountQuery(tipo, unit, dias).Err?
    ensures ListQuery(tipo, unit, dias, limite, offset).Ok?
            ==> var q := ListQuery(tipo, unit, dias, limite, offset).value;
                var filter := CountQuery(tipo, unit, dias).value;
                && Aligned(q)
                && q.clauses == filter.clauses + [Limit, Offset]
                && |q.params| == |filter.params| + 2
                && q.params[..|filter.params|] == filter.params
                && q.params[|filter.params|..] == [IntParam(Clamp(limite, ListCap)), IntParam(Max(0, offset))]
                && 1 <= Clamp(limite, ListCap) <= 200
                && Max(0, offset) >= 0 && (offset >= 0 ==> Max(0, offset) == offset)
  {
    if CountQuery(tipo, unit, dias).Ok? {
      CountQueryAligned(tipo, unit, dias);
      PageShape(CountQuery(tipo, unit, dias).value, Clamp(limite, ListCap), Max(0, offset));
    }
  }

  /** A row of the listing statement; dates arrive already formatted. */
  datatype SemConsultaRow = SemConsultaRow(
    pacienteId: int,
    nomePaciente: Option<string>,
    dataNascimento: Option<string>,
    sexo: Option<string>,
    ultimaConsulta: Option<string>,
    diasSemConsulta: Option<int>)

  /** `PacienteSemConsultaResult`: the name only as initials. */
  datatype PacienteSemConsulta = PacienteSemConsulta(
    pacienteId: int,
    pacienteInitials: string,
    birthDate: Option<string>,
    sex: Option<string>,
    ultimaConsulta: Option<string>,
    diasSemConsulta: Option<int>)

  function ToResult(row: SemConsultaRow): PacienteSemConsulta {
    PacienteSemConsulta(row.pacienteId, ToInitials(row.nomePaciente), row.dataNascimento, row.sexo,
                        row.ultimaConsulta, row.diasSemConsulta)
  }

  /** `listar_pacientes_sem_consulta`, the database being the function from statement to rows. */
  function ListSemConsulta(tipo: Option<string>, unit: Option<int>, dias: Option<int>, limite: int, offset: int,
                           db: Query -> seq<SemConsultaRow>): Checked<seq<PacienteSemConsulta>> {
    match ListQuery(tipo, unit, dias, limite, offset)
    case Err(e) => Err(e)
    case Ok(q) => Ok(seq(|db(q)|, k requires 0 <= k < |db(q)| => ToResult(db(q)[k])))
  }

  /**
   * One result per row, in row order; the patient id, dates, sex and day count
   * are kept, and the name is shown only as its initials, which are never
   * empty and read the same upper-cased.
   */
  lemma ListSemConsultaResults(tipo: Option<string>, unit: Option<int>, dias: Option<int>, limite: int, offset: int,
                               db: Query -> seq<SemConsultaRow>)
    requires ListQuery(tipo, unit, dias, limite, offset).Ok?
    ensures var rows := db(ListQuery(tipo, unit, dias, limite, offset).value);
      var rs := ListSemConsulta(tipo, unit, dias, limite, offset, db);
      && rs.Ok? && |rs.value| == |rows|
      && forall k | 0 <= k < |rows| ::
           && rs.value[k].pacienteId == rows[k].pacienteId
           && rs.value[k].pacienteInitials == ToInitials(rows[k].nomePaciente)
           && |rs.value[k].pacienteInitials| > 0
           && Upper(rs.value[k].pacienteInitials) == rs.value[k].pacienteInitials
           && rs.value[k].birthDate == rows[k].dataNascimento && rs.value[k].sex == rows[k].sexo
           && rs.value[k].ultimaConsulta == rows[k].ultimaConsulta
           && rs.value[k].diasSemConsulta == rows[k].diasSemConsulta
  {
    var rows := db(ListQuery(tipo, unit, dias, limite, offset).value);
    forall k | 0 <= k < |rows|
      ensures |ToInitials(rows[k].nomePaciente)| > 0 && Upper(ToInitials(rows[k].nomePaciente)) == ToInitials(rows[k].nomePaciente)
    {
      ToInitialsDisplayed(rows[k].nomePaciente);
    }
  }
}
