/**
 * The shared filter builders: patient criteria (id, name prefix, sex, age
 * range, health facility) and condition criteria (CID-10 and CIAP code
 * prefixes, free text) turned into predicate clauses and the parameters that
 * fill their placeholders, in a fixed order.
 *
 * Each builder is specified by a function returning the list of fragments it
 * emits (a clause paired with its own parameters); the imperative builders,
 * which append to a clause list and a parameter list step by step, are proved
 * to return exactly that list flattened.
 */
module Filters {
  import opened Wrappers
  import opened Text
  import opened Sql
  import opened Guard

  // ---------------------------------------------------------------- sex

  /** The database's sex values, reached from a one-letter or full spelling. */
  const SexAliases: map<string, string> := map[
    "M" := "MASCULINO",
    "F" := "FEMININO",
    "I" := "INDETERMINADO",
    "MASCULINO" := "MASCULINO",
    "FEMININO" := "FEMININO",
    "INDETERMINADO" := "INDETERMINADO"
  ]

  predicate IsCanonicalSex(s: string) {
    s == "MASCULINO" || s == "FEMININO" || s == "INDETERMINADO"
  }

  /** `normalize_sex`: trimmed, upper-cased and looked up; unknown spellings give `None`. */
  function NormalizeSex(sex: Option<string>): (r: Option<string>)
    ensures sex.None? ==> r.None?
    ensures r.Some? ==> IsCanonicalSex(r.value)
  {
    if sex.None? then None
    else
      var key := Upper(Strip(sex.value));
      if key in SexAliases then Some(SexAliases[key]) else None
  }

  lemma CanonicalSexIsNormal(s: string)
    requires IsCanonicalSex(s)
    ensures NoEdgeSpace(s) && IsUpperCase(s) && s in SexAliases && SexAliases[s] == s
  {
  }

  /** The three database values normalise to themselves, so normalising twice is normalising once. */
  lemma NormalizeSexIdempotent(sex: Option<string>)
    ensures NormalizeSex(sex).Some? ==> NormalizeSex(NormalizeSex(sex)) == NormalizeSex(sex)
    ensures forall s | IsCanonicalSex(s) :: NormalizeSex(Some(s)) == Some(s)
  {
    forall s | IsCanonicalSex(s)
      ensures NormalizeSex(Some(s)) == Some(s)
    {
      CanonicalSexIsNormal(s);
      StripClean(s);
      UpperCaseIsFixed(s);
    }
  }

  /** Surrounding whitespace and letter case do not matter: only the trimmed upper-case spelling is looked up. */
  lemma NormalizeSexIgnoresCaseAndPadding(s: string)
    ensures NormalizeSex(Some(s)) == NormalizeSex(Some(Upper(Strip(s))))
    ensures NormalizeSex(Some(s)).Some? <==> Upper(Strip(s)) in SexAliases
  {
    var key := Upper(Strip(s));
    StripUpper(Strip(s));
    StripIdempotent(s);
    UpperIsUpperCase(Strip(s));
  }

  /** An unknown spelling normalises to `None`. */
  lemma NormalizeSexUnknown()
    ensures NormalizeSex(Some("XYZ")) == None
  {
    StripClean("XYZ");
    UpperCaseIsFixed("XYZ");
  }

  lemma LetterKeys()
    ensures "M" in SexAliases && SexAliases["M"] == "MASCULINO"
    ensures "F" in SexAliases && SexAliases["F"] == "FEMININO"
    ensures "I" in SexAliases && SexAliases["I"] == "INDETERMINADO"
  {
  }

  /** A one-letter spelling, in either case and with any padding, finds its full spelling. */
  lemma NormalizeSexLetters(s: string, key: string)
    requires key == Upper(Strip(s))
    ensures key == "M" ==> NormalizeSex(Some(s)) == Some("MASCULINO")
    ensures key == "F" ==> NormalizeSex(Some(s)) == Some("FEMININO")
    ensures key == "I" ==> NormalizeSex(Some(s)) == Some("INDETERMINADO")
  {
    LetterKeys();
  }

  // ---------------------------------------------------------------- patient filters

  /** The arguments of `build_patient_filters`; the table alias only changes the SQL text. */
  datatype PatientCriteria = PatientCriteria(
    pacienteId: Option<int>,
    namePrefix: Option<string>,
    sex: Option<string>,
    ageMin: Option<int>,
    ageMax: Option<int>,
    unidadeSaudeId: Option<int>)

  /** Every criterion absent. */
  function NoPatientCriteria(): PatientCriteria {
    PatientCriteria(None, None, None, None, None, None)
  }

  predicate AgeRangeInverted(c: PatientCriteria) {
    c.ageMin.Some? && c.ageMax.Some? && c.ageMin.value > c.ageMax.value
  }

  predicate SexUnknown(c: PatientCriteria) {
    Truthy(c.sex) && NormalizeSex(c.sex).None?
  }

  predicate FacilityNotPositive(c: PatientCriteria) {
    c.unidadeSaudeId.Some? && c.unidadeSaudeId.value <= 0
  }

  /** The builder's fixed clause order. */
  const PatientClauseOrder: seq<Clause> :=
    [PatientIdEquals, NameStartsWith, SexEquals, AgeAtLeast, AgeAtMost, FacilityMembership]

  /** Whether the criterion behind a patient clause is given (a name prefix or sex must be non-empty). */
  predicate CriterionPresent(c: PatientCriteria, cl: Clause) {
    match cl
    case PatientIdEquals => c.pacienteId.Some?
    case NameStartsWith => Truthy(c.namePrefix)
    case SexEquals => Truthy(c.sex)
    case AgeAtLeast => c.ageMin.Some?
    case AgeAtMost => c.ageMax.Some?
    case FacilityMembership => c.unidadeSaudeId.Some?
    case _ => false
  }

  /** The parameters a present criterion supplies to its own clause: the prefix gets `%`, the sex is normalised, the facility id is sent twice. */
  function CriterionParams(c: PatientCriteria, cl: Clause): seq<Param>
    requires !SexUnknown(c)
    requires CriterionPresent(c, cl)
  {
    match cl
    case PatientIdEquals => [IntParam(c.pacienteId.value)]
    case NameStartsWith => [TextParam(c.namePrefix.value + "%")]
    case SexEquals => [TextParam(NormalizeSex(c.sex).value)]
    case AgeAtLeast => [IntParam(c.ageMin.value)]
    case AgeAtMost => [IntParam(c.ageMax.value)]
    case FacilityMembership => [IntParam(c.unidadeSaudeId.value), IntParam(c.unidadeSaudeId.value)]
  }

  /** The fragment one criterion contributes: its clause with its values, or nothing when absent. */
  function Piece(c: PatientCriteria, cl: Clause): (r: seq<Fragment>)
    requires !SexUnknown(c)
    ensures |r| <= 1 && AllWellFormed(r)
  {
    if CriterionPresent(c, cl) then [Fragment(cl, CriterionParams(c, cl))] else []
  }

  /** The pieces of the given clauses, in order. */
  function Pieces(c: PatientCriteria, cls: seq<Clause>): (r: seq<Fragment>)
    requires !SexUnknown(c)
    ensures AllWellFormed(r)
  {
    if cls == [] then [] else Pieces(c, cls[..|cls| - 1]) + Piece(c, cls[|cls| - 1])
  }

  /** The fragments `build_patient_filters` emits, or what it raises. */
  function PatientFragments(c: PatientCriteria): Checked<seq<Fragment>> {
    if AgeRangeInverted(c) then Err(AgeMinAboveMax)
    else if SexUnknown(c) then Err(InvalidSex)
    else if FacilityNotPositive(c) then Err(NonPositiveFacility)
    else Ok(Pieces(c, PatientClauseOrder))
  }

  /** The parallel clause and parameter lists `build_patient_filters` returns. */
  function PatientFilters(c: PatientCriteria): Checked<Query> {
    match PatientFragments(c)
    case Err(e) => Err(e)
    case Ok(fs) => Ok(Flatten(fs))
  }

  /** The clauses of `cls` whose criterion is given, in the order of `cls`. */
  function KeepPresent(c: PatientCriteria, cls: seq<Clause>): (r: seq<Clause>)
    ensures |r| <= |cls|
    ensures forall k | 0 <= k < |r| :: CriterionPresent(c, r[k])
  {
    if cls == [] then []
    else KeepPresent(c, cls[..|cls| - 1]) + (if CriterionPresent(c, cls[|cls| - 1]) then [cls[|cls| - 1]] else [])
  }

  /** The builder raises before emitting anything, in this order of checks. */
  lemma PatientFiltersErrors(c: PatientCriteria)
    ensures PatientFilters(c).Err? <==> AgeRangeInverted(c) || SexUnknown(c) || FacilityNotPositive(c)
    ensures AgeRangeInverted(c) ==> PatientFilters(c) == Err(AgeMinAboveMax)
    ensures !AgeRangeInverted(c) && SexUnknown(c) ==> PatientFilters(c) == Err(InvalidSex)
    ensures !AgeRangeInverted(c) && !SexUnknown(c) && FacilityNotPositive(c)
            ==> PatientFilters(c) == Err(NonPositiveFacility)
  {
  }

  /** The pieces of a clause list are the present clauses, each with its criterion's values. */
  lemma {:induction false} PiecesAreKept(c: PatientCriteria, cls: seq<Clause>)
    requires !SexUnknown(c)
    ensures |Pieces(c, cls)| == |KeepPresent(c, cls)|
    ensures forall k | 0 <= k < |Pieces(c, cls)| ::
      Pieces(c, cls)[k].clause == KeepPresent(c, cls)[k]
      && Pieces(c, cls)[k].params == CriterionParams(c, KeepPresent(c, cls)[k])
  {
    if cls != [] {
      PiecesAreKept(c, cls[..|cls| - 1]);
    }
  }

  /**
   * One clause per given criterion, in the fixed order id, name prefix, sex,
   * minimum age, maximum age, facility; binding the lists gives every clause
   * exactly its own criterion's values.
   */
  lemma PatientFiltersShape(c: PatientCriteria)
    requires PatientFilters(c).Ok?
    ensures var q := PatientFilters(c).value;
      && q.clauses == KeepPresent(c, PatientClauseOrder)
      && Aligned(q)
      && Bind(q.clauses, q.params).Some?
      && |Bind(q.clauses, q.params).value| == |q.clauses|
      && forall k | 0 <= k < |q.clauses| :: Bind(q.clauses, q.params).value[k] == CriterionParams(c, q.clauses[k])
  {
    var fs := PatientFragments(c).value;
    assert fs == Pieces(c, PatientClauseOrder);
    PiecesFlatten(c);
    FlattenAligned(fs);
    BindFlatten(fs);
  }

  /** The flattened pieces hold the present clauses, and each piece holds its own criterion's values. */
  lemma PiecesFlatten(c: PatientCriteria)
    requires !SexUnknown(c)
    ensures var fs := Pieces(c, PatientClauseOrder);
      var cls := Flatten(fs).clauses;
      && cls == KeepPresent(c, PatientClauseOrder)
      && |ParamLists(fs)| == |cls|
      && forall k | 0 <= k < |cls| :: ParamLists(fs)[k] == CriterionParams(c, cls[k])
  {
    var fs := Pieces(c, PatientClauseOrder);
    PiecesAreKept(c, PatientClauseOrder);
    FlattenClauses(fs);
  }

  /** A name prefix becomes `prefix%`; an empty prefix, like an absent one, emits no clause. */
  lemma NamePrefixPattern(c: PatientCriteria)
    requires PatientFilters(c).Ok?
    ensures NameStartsWith in PatientFilters(c).value.clauses <==> Truthy(c.namePrefix)
    ensures Truthy(c.namePrefix) ==> CriterionParams(c, NameStartsWith) == [TextParam(c.namePrefix.value + "%")]
  {
    PatientFiltersShape(c);
    KeepPresentMembers(c, PatientClauseOrder);
  }

  lemma {:induction false} KeepPresentMembers(c: PatientCriteria, cls: seq<Clause>)
    ensures forall cl | cl in cls :: cl in KeepPresent(c, cls) <==> CriterionPresent(c, cl)
    ensures forall cl | cl in KeepPresent(c, cls) :: cl in cls
  {
    if cls != [] {
      KeepPresentMembers(c, cls[..|cls| - 1]);
      assert forall cl | cl in cls :: cl in cls[..|cls| - 1] || cl == cls[|cls| - 1];
    }
  }

  /** No clause is kept exactly when none of them has its criterion. */
  lemma {:induction false} KeepPresentEmpty(c: PatientCriteria, cls: seq<Clause>)
    ensures KeepPresent(c, cls) == [] <==> forall k | 0 <= k < |cls| :: !CriterionPresent(c, cls[k])
  {
    if cls != [] {
      var front := cls[..|cls| - 1];
      KeepPresentEmpty(c, front);
      assert forall k | 0 <= k < |front| :: front[k] == cls[k];
    }
  }

  /** The facility clause is the only one with two placeholders, both bound to the facility id. */
  lemma FacilityTwice(c: PatientCriteria)
    requires PatientFilters(c).Ok? && c.unidadeSaudeId.Some?
    ensures c.unidadeSaudeId.value > 0
    ensures FacilityMembership in PatientFilters(c).value.clauses
    ensures CriterionParams(c, FacilityMembership)
         == [IntParam(c.unidadeSaudeId.value), IntParam(c.unidadeSaudeId.value)]
  {
    PatientFiltersErrors(c);
    assert PatientFilters(c).value.clauses == KeepPresent(c, PatientClauseOrder) by {
      PatientFiltersShape(c);
    }
    KeepPresentMembers(c, PatientClauseOrder);
    assert FacilityMembership in PatientClauseOrder;
  }

  /** No criteria, no clauses: the builder returns two empty lists. */
  lemma PatientFiltersNone()
    ensures PatientFilters(NoPatientCriteria()) == Ok(Query([], []))
  {
    PiecesAreKept(NoPatientCriteria(), PatientClauseOrder);
  }

  /** One step of the builder: a given criterion appends its clause and its values. */
  function Emit(c: PatientCriteria, q: Query, cl: Clause): Query
    requires !SexUnknown(c)
  {
    if CriterionPresent(c, cl) then Query(q.clauses + [cl], q.params + CriterionParams(c, cl)) else q
  }

  /** The six steps of the builder, one per criterion in the fixed order. */
  function EmitAll(c: PatientCriteria): Query
    requires !SexUnknown(c)
  {
    var q1 := Emit(c, Query([], []), PatientIdEquals);
    var q2 := Emit(c, q1, NameStartsWith);
    var q3 := Emit(c, q2, SexEquals);
    var q4 := Emit(c, q3, AgeAtLeast);
    var q5 := Emit(c, q4, AgeAtMost);
    Emit(c, q5, FacilityMembership)
  }

  /** Emitting a criterion extends the flattened pieces by that criterion. */
  lemma PieceStep(c: PatientCriteria, done: seq<Clause>, cl: Clause)
    requires !SexUnknown(c)
    ensures Flatten(Pieces(c, done + [cl])) == Emit(c, Flatten(Pieces(c, done)), cl)
  {
    assert (done + [cl])[..|done|] == done;
    assert Pieces(c, done + [cl]) == Pieces(c, done) + Piece(c, cl);
    if CriterionPresent(c, cl) {
      FlattenSnoc(Pieces(c, done), Fragment(cl, CriterionParams(c, cl)));
    } else {
      assert Pieces(c, done) + Piece(c, cl) == Pieces(c, done);
    }
  }

  /** The six steps produce exactly the flattened pieces of the fixed order. */
  lemma EmitAllIsPieces(c: PatientCriteria)
    requires !SexUnknown(c)
    ensures EmitAll(c) == Flatten(Pieces(c, PatientClauseOrder))
  {
    var o := PatientClauseOrder;
    assert Pieces(c, []) == [];
    PieceStep(c, [], o[0]);
    assert [] + [o[0]] == o[..1];
    PieceStep(c, o[..1], o[1]);
    assert o[..1] + [o[1]] == o[..2];
    PieceStep(c, o[..2], o[2]);
    assert o[..2] + [o[2]] == o[..3];
    PieceStep(c, o[..3], o[3]);
    assert o[..3] + [o[3]] == o[..4];
    PieceStep(c, o[..4], o[4]);
    assert o[..4] + [o[4]] == o[..5];
    PieceStep(c, o[..5], o[5]);
    assert o[..5] + [o[5]] == o;
  }

  /** `build_patient_filters`: validates, then appends each given criterion's clause and parameters. */
  method BuildPatientFilters(c: PatientCriteria) returns (r: Checked<Query>)
    ensures r == PatientFilters(c)
  {
    if AgeRangeInverted(c) {
      return Err(AgeMinAboveMax);
    }
    var clauses: seq<Clause> := [];
    var params: seq<Param> := [];
    ghost var q0 := Query(clauses, params);
    if c.pacienteId.Some? {
      clauses := clauses + [PatientIdEquals];
      params := params + [IntParam(c.pacienteId.value)];
    }
    ghost var q1 := Query(clauses, params);
    if Truthy(c.namePrefix) {
      clauses := clauses + [NameStartsWith];
      params := params + [TextParam(c.namePrefix.value + "%")];
    }
    ghost var q2 := Query(clauses, params);
    if Truthy(c.sex) {
      var normalized := NormalizeSex(c.sex);
      if normalized.None? {
        return Err(InvalidSex);
      }
      clauses := clauses + [SexEquals];
      params := params + [TextParam(normalized.value)];
    }
    ghost var q3 := Query(clauses, params);
    assert q1 == Emit(c, q0, PatientIdEquals);
    assert q2 == Emit(c, q1, NameStartsWith);
    assert q3 == Emit(c, q2, SexEquals);
    if c.ageMin.Some? {
      clauses := clauses + [AgeAtLeast];
      params := params + [IntParam(c.ageMin.value)];
    }
    assert Query(clauses, params) == Emit(c, q3, AgeAtLeast);
    ghost var q4 := Query(clauses, params);
    if c.ageMax.Some? {
      clauses := clauses + [AgeAtMost];
      params := params + [IntParam(c.ageMax.value)];
    }
    assert Query(clauses, params) == Emit(c, q4, AgeAtMost);
    ghost var q5 := Query(clauses, params);
    if c.unidadeSaudeId.Some? {
      var unitId := c.unidadeSaudeId.value;
      if unitId <= 0 {
        return Err(NonPositiveFacility);
      }
      clauses := clauses + [FacilityMembership];
      params := params + [IntParam(unitId), IntParam(unitId)];
    }
    assert Query(clauses, params) == Emit(c, q5, FacilityMembership);
    EmitAllIsPieces(c);
    r := Ok(Query(clauses, params));
  }

  /** The keyword parameters `build_patient_filters` declares. */
  const PatientFilterKeywords: set<string> :=
    {"paciente_id", "name_prefix", "sex", "age_min", "age_max", "unidade_saude_id", "alias"}

  /** The first keyword of a call that the callee does not declare. */
  function FirstUndeclared(keywords: seq<string>, declared: set<string>): (r: Option<string>)
    ensures r.Some? ==> r.value in keywords && r.value !in declared
    ensures r.None? <==> forall k | 0 <= k < |keywords| :: keywords[k] in declared
  {
    if keywords == [] then None
    else if keywords[0] !in declared then Some(keywords[0])
    else FirstUndeclared(keywords[1..], declared)
  }

  /**
   * Calling `build_patient_filters` with the given keyword arguments: a
   * keyword it does not declare raises before its body runs.
   */
  function CallPatientFilters(keywords: seq<string>, c: PatientCriteria): (r: Checked<Query>)
    ensures (forall k | 0 <= k < |keywords| :: keywords[k] in PatientFilterKeywords) ==> r == PatientFilters(c)
    ensures (exists k | 0 <= k < |keywords| :: keywords[k] !in PatientFilterKeywords)
            ==> r.Err? && r.error.UnexpectedKeyword? && r.error.name in keywords
                && r.error.name !in PatientFilterKeywords
  {
    var undeclared := FirstUndeclared(keywords, PatientFilterKeywords);
    if undeclared.Some? then Err(UnexpectedKeyword(undeclared.value)) else PatientFilters(c)
  }

  // ---------------------------------------------------------------- condition filters

  /** `_normalize_code_prefix`: trimmed, upper-cased, and made a prefix pattern unless it already holds a wildcard. */
  function NormalizeCodePrefix(code: Option<string>): (r: Option<string>)
    ensures r.None? <==> !Truthy(code)
    ensures r.Some? ==>
      var n := Upper(Strip(code.value));
      && |n| <= |r.value| <= |n| + 1 && r.value[..|n|] == n
      && ('%' in r.value || '_' in r.value)
      && ('%' in n || '_' in n ==> r.value == n)
      && ('%' !in n && '_' !in n ==> r.value == n + "%")
  {
    if !Truthy(code) then None
    else
      var normalized := Upper(Strip(code.value));
      if '%' !in normalized && '_' !in normalized then Some(normalized + "%") else Some(normalized)
  }

  /** A normalised pattern is trimmed, upper-case and not empty. */
  lemma NormalizedPatternShape(code: Option<string>)
    requires Truthy(code)
    ensures var p := NormalizeCodePrefix(code).value;
      p != [] && NoEdgeSpace(p) && IsUpperCase(p)
  {
    var n := Upper(Strip(code.value));
    UpperStripped(Strip(code.value));
    if '%' !in n && '_' !in n {
      var p := n + "%";
      assert p[|p| - 1] == '%';
      assert n != [] ==> p[0] == n[0];
      assert forall i | 0 <= i < |p| :: p[i] == if i < |n| then n[i] else '%';
    }
  }

  /** Normalising a normalised pattern changes nothing. */
  lemma NormalizeCodePrefixIdempotent(code: Option<string>)
    requires Truthy(code)
    ensures NormalizeCodePrefix(NormalizeCodePrefix(code)) == NormalizeCodePrefix(code)
  {
    var p := NormalizeCodePrefix(code).value;
    NormalizedPatternShape(code);
    StripClean(p);
    UpperCaseIsFixed(p);
  }

  /** The normalised patterns of the non-empty entries of a code list, in order. */
  function PatternsOf(codes: seq<string>): (r: seq<string>)
    ensures |r| <= |codes|
    ensures r == [] <==> forall k | 0 <= k < |codes| :: codes[k] == ""
  {
    if codes == [] then []
    else
      (if codes[0] != "" then [NormalizeCodePrefix(Some(codes[0])).value] else [])
      + PatternsOf(codes[1..])
  }

  /** The single code first, then the list's entries; empty entries are dropped. */
  function CodePatterns(code: Option<string>, codes: seq<string>): (r: seq<string>)
    ensures |r| <= |codes| + 1
    ensures r == [] <==> !Truthy(code) && forall k | 0 <= k < |codes| :: codes[k] == ""
    ensures Truthy(code) ==> r[0] == NormalizeCodePrefix(code).value
  {
    (if Truthy(code) then [NormalizeCodePrefix(code).value] else []) + PatternsOf(codes)
  }

  /** The arguments of `build_condition_filters`; an absent code list is the empty list. */
  datatype ConditionCriteria = ConditionCriteria(
    cidCode: Option<string>,
    cidCodes: seq<string>,
    ciapCode: Option<string>,
    ciapCodes: seq<string>,
    conditionText: Option<string>,
    cidLogic: string,
    cidCiapLogic: string)

  function NoConditionCriteria(): ConditionCriteria {
    ConditionCriteria(None, [], None, [], None, "OR", "OR")
  }

  function CidPatterns(cc: ConditionCriteria): seq<string> { CodePatterns(cc.cidCode, cc.cidCodes) }
  function CiapPatterns(cc: ConditionCriteria): seq<string> { CodePatterns(cc.ciapCode, cc.ciapCodes) }

  /** How several CID-10 patterns combine; an empty setting means OR. */
  function CidLogic(cc: ConditionCriteria): string {
    if cc.cidLogic == "" then "OR" else Upper(cc.cidLogic)
  }

  /** How the CID-10 group and the CIAP group combine; anything but OR or AND means OR. */
  function Combiner(cc: ConditionCriteria): (r: string)
    ensures r == "OR" || r == "AND"
  {
    var logic := Upper(cc.cidCiapLogic);
    if logic == "OR" || logic == "AND" then logic else "OR"
  }

  function TextParams(pats: seq<string>): (r: seq<Param>)
    ensures |r| == |pats| && forall k | 0 <= k < |pats| :: r[k] == TextParam(pats[k])
  {
    seq(|pats|, k requires 0 <= k < |pats| => TextParam(pats[k]))
  }

  function CidExistsEach(n: nat): (r: seq<Clause>)
    ensures |r| == n && forall k | 0 <= k < n :: r[k] == CidExists
  {
    seq(n, _ => CidExists)
  }

  lemma {:induction false} CidExistsHoles(n: nat)
    ensures HolesAll(CidExistsEach(n)) == n
  {
    if n > 0 {
      assert CidExistsEach(n)[1..] == CidExistsEach(n - 1);
      CidExistsHoles(n - 1);
    }
  }

  /** One more pattern adds one EXISTS and its parameter. */
  lemma CidExistsStep(pats: seq<string>, i: nat)
    requires i < |pats|
    ensures CidExistsEach(i + 1) == CidExistsEach(i) + [CidExists]
    ensures TextParams(pats[..i + 1]) == TextParams(pats[..i]) + [TextParam(pats[i])]
  {
  }

  /** The CID-10 group: one list-matching clause under OR, one EXISTS per pattern joined by AND. */
  function CidFragment(pats: seq<string>, logic: string): (r: Fragment)
    ensures WellFormed(r)
  {
    CidExistsHoles(|pats|);
    if logic == "AND" then Fragment(AllOf(CidExistsEach(|pats|)), TextParams(pats))
    else Fragment(CidMatchesAny, [TextListParam(pats)])
  }

  /** The CIAP group: always one list-matching clause. */
  function CiapFragment(pats: seq<string>): (r: Fragment)
    ensures WellFormed(r)
  {
    Fragment(CiapMatchesAny, [TextListParam(pats)])
  }

  /** The CID-10 group, when there is a CID-10 pattern. */
  function CidGroup(cc: ConditionCriteria): Option<Fragment> {
    var pats := CidPatterns(cc);
    if pats == [] then None else Some(CidFragment(pats, CidLogic(cc)))
  }

  /** The CIAP group, when there is a CIAP pattern. */
  function CiapGroup(cc: ConditionCriteria): Option<Fragment> {
    var pats := CiapPatterns(cc);
    if pats == [] then None else Some(CiapFragment(pats))
  }

  /** The code clauses: both groups in one OR clause or as two clauses, or whichever group exists. */
  function Combine(cid: Option<Fragment>, ciap: Option<Fragment>, combiner: string): (r: seq<Fragment>)
    requires cid.Some? ==> WellFormed(cid.value)
    requires ciap.Some? ==> WellFormed(ciap.value)
    ensures AllWellFormed(r)
  {
    if cid.Some? && ciap.Some? then
      if combiner == "OR" then [Fragment(EitherOf(cid.value.clause, ciap.value.clause), cid.value.params + ciap.value.params)]
      else [cid.value, ciap.value]
    else if cid.Some? then [cid.value]
    else if ciap.Some? then [ciap.value]
    else []
  }

  function CodeFragments(cc: ConditionCriteria): (r: seq<Fragment>)
    ensures AllWellFormed(r)
  {
    Combine(CidGroup(cc), CiapGroup(cc), Combiner(cc))
  }

  predicate CidLogicInvalid(cc: ConditionCriteria) {
    CidPatterns(cc) != [] && CidLogic(cc) != "OR" && CidLogic(cc) != "AND"
  }

  predicate CidAndRefused(cc: ConditionCriteria, allowCidAnd: bool) {
    CidPatterns(cc) != [] && CidLogic(cc) == "AND" && !allowCidAnd && |CidPatterns(cc)| > 1
  }

  predicate TextTooLong(cc: ConditionCriteria) {
    Truthy(cc.conditionText) && |Strip(cc.conditionText.value)| > 100
  }

  /** The text clause: four descriptions searched for `%text%`. */
  function TextFragment(text: string): (r: Fragment)
    ensures WellFormed(r)
  {
    var like := "%" + text + "%";
    Fragment(TextMentions, [TextParam(like), TextParam(like), TextParam(like), TextParam(like)])
  }

  /** The fragments `build_condition_filters` emits, or what it raises. */
  function ConditionFragments(cc: ConditionCriteria, allowCidAnd: bool): (r: Checked<seq<Fragment>>)
    ensures r.Ok? ==> AllWellFormed(r.value)
  {
    if CidLogicInvalid(cc) then Err(InvalidCidLogic)
    else if CidAndRefused(cc, allowCidAnd) then Err(CidAndNotSupported)
    else if TextTooLong(cc) then Err(ConditionTextTooLong)
    else if Truthy(cc.conditionText) then Ok(CodeFragments(cc) + [TextFragment(Strip(cc.conditionText.value))])
    else Ok(CodeFragments(cc))
  }

  /** The parallel clause and parameter lists `build_condition_filters` returns. */
  function ConditionFilters(cc: ConditionCriteria, allowCidAnd: bool): Checked<Query> {
    match ConditionFragments(cc, allowCidAnd)
    case Err(e) => Err(e)
    case Ok(fs) => Ok(Flatten(fs))
  }

  /** What raises, and in which order the checks run; an unknown CID/CIAP combiner never raises. */
  lemma ConditionFiltersErrors(cc: ConditionCriteria, allowCidAnd: bool)
    ensures ConditionFilters(cc, allowCidAnd).Err?
            <==> CidLogicInvalid(cc) || CidAndRefused(cc, allowCidAnd) || TextTooLong(cc)
    ensures CidLogicInvalid(cc) ==> ConditionFilters(cc, allowCidAnd) == Err(InvalidCidLogic)
    ensures !CidLogicInvalid(cc) && CidAndRefused(cc, allowCidAnd)
            ==> ConditionFilters(cc, allowCidAnd) == Err(CidAndNotSupported)
    ensures !CidLogicInvalid(cc) && !CidAndRefused(cc, allowCidAnd) && TextTooLong(cc)
            ==> ConditionFilters(cc, allowCidAnd) == Err(ConditionTextTooLong)
    ensures CidPatterns(cc) == [] ==> !CidLogicInvalid(cc) && !CidAndRefused(cc, allowCidAnd)
    ensures allowCidAnd ==> !CidAndRefused(cc, allowCidAnd)
  {
  }

  /** The condition lists stay aligned, and binding them gives each emitted fragment its own parameters. */
  lemma ConditionFiltersAligned(cc: ConditionCriteria, allowCidAnd: bool)
    requires ConditionFilters(cc, allowCidAnd).Ok?
    ensures var q := ConditionFilters(cc, allowCidAnd).value;
      var fs := ConditionFragments(cc, allowCidAnd).value;
      && Aligned(q)
      && |q.clauses| == |fs|
      && (forall k | 0 <= k < |fs| :: q.clauses[k] == fs[k].clause)
      && Bind(q.clauses, q.params) == Some(ParamLists(fs))
  {
    var fs := ConditionFragments(cc, allowCidAnd).value;
    FlattenAligned(fs);
    BindFlatten(fs);
    FlattenClauses(fs);
  }

  /** Under OR the two groups share one clause, the CID-10 parameters before the CIAP list. */
  lemma ConditionGroupsOr(cc: ConditionCriteria, allowCidAnd: bool)
    requires ConditionFilters(cc, allowCidAnd).Ok?
    requires CidGroup(cc).Some? && CiapGroup(cc).Some? && Combiner(cc) == "OR"
    ensures var q := ConditionFilters(cc, allowCidAnd).value;
      var cid := CidGroup(cc).value;
      && |q.clauses| >= 1 && q.clauses[0] == EitherOf(cid.clause, CiapMatchesAny)
      && Bind(q.clauses, q.params).Some? && |Bind(q.clauses, q.params).value| >= 1
      && Bind(q.clauses, q.params).value[0] == cid.params + [TextListParam(CiapPatterns(cc))]
  {
    ConditionFiltersAligned(cc, allowCidAnd);
    var codes := CodeFragments(cc);
    var fs := ConditionFragments(cc, allowCidAnd).value;
    assert codes == [Fragment(EitherOf(CidGroup(cc).value.clause, CiapMatchesAny),
                              CidGroup(cc).value.params + [TextListParam(CiapPatterns(cc))])];
    assert fs[0] == codes[0];
  }

  /** Under AND the two groups are two clauses, CID-10 first. */
  lemma ConditionGroupsAnd(cc: ConditionCriteria, allowCidAnd: bool)
    requires ConditionFilters(cc, allowCidAnd).Ok?
    requires CidGroup(cc).Some? && CiapGroup(cc).Some? && Combiner(cc) == "AND"
    ensures var q := ConditionFilters(cc, allowCidAnd).value;
      var cid := CidGroup(cc).value;
      && |q.clauses| >= 2 && q.clauses[..2] == [cid.clause, CiapMatchesAny]
      && Bind(q.clauses, q.params).Some? && |Bind(q.clauses, q.params).value| >= 2
      && Bind(q.clauses, q.params).value[..2] == [cid.params, [TextListParam(CiapPatterns(cc))]]
  {
    ConditionFiltersAligned(cc, allowCidAnd);
    var codes := CodeFragments(cc);
    var fs := ConditionFragments(cc, allowCidAnd).value;
    assert codes == [CidGroup(cc).value, Fragment(CiapMatchesAny, [TextListParam(CiapPatterns(cc))])];
    assert fs[0] == codes[0] && fs[1] == codes[1];
  }

  /** The text clause comes last, with four identical `%text%` parameters. */
  lemma ConditionTextLast(cc: ConditionCriteria, allowCidAnd: bool)
    requires ConditionFilters(cc, allowCidAnd).Ok? && Truthy(cc.conditionText)
    ensures var q := ConditionFilters(cc, allowCidAnd).value;
      var like := TextParam("%" + Strip(cc.conditionText.value) + "%");
      && |q.clauses| >= 1 && q.clauses[|q.clauses| - 1] == TextMentions
      && |q.params| >= 4 && q.params[|q.params| - 4..] == [like, like, like, like]
  {
    var codes := CodeFragments(cc);
    FlattenSnoc(codes, TextFragment(Strip(cc.conditionText.value)));
  }

  /** Without code patterns and text nothing is emitted, whatever the logic settings. */
  lemma ConditionFiltersNone(cc: ConditionCriteria, allowCidAnd: bool)
    requires CidPatterns(cc) == [] && CiapPatterns(cc) == [] && !Truthy(cc.conditionText)
    ensures ConditionFilters(cc, allowCidAnd) == Ok(Query([], []))
  {
  }

  /** Under OR, the CID-10 group is one clause whose single parameter is the whole pattern list. */
  lemma CidOrIsOneListParameter(pats: seq<string>, logic: string)
    requires logic != "AND"
    ensures CidFragment(pats, logic).clause == CidMatchesAny
    ensures CidFragment(pats, logic).params == [TextListParam(pats)]
  {
  }

  /** Under AND, one EXISTS per pattern, joined into one clause, one parameter per pattern in order. */
  lemma CidAndIsOneParameterPerPattern(pats: seq<string>)
    ensures CidFragment(pats, "AND").clause == AllOf(CidExistsEach(|pats|))
    ensures Holes(CidFragment(pats, "AND").clause) == |pats|
    ensures forall k | 0 <= k < |pats| :: CidFragment(pats, "AND").params[k] == TextParam(pats[k])
  {
  }

  /**
   * Step 1 of `build_condition_filters`: the CID-10 patterns, the logic checks,
   * and the group's clause and parameters (one EXISTS per pattern under AND).
   */
  method BuildCidGroup(cc: ConditionCriteria, allowCidAnd: bool) returns (r: Checked<Option<Fragment>>)
    ensures CidLogicInvalid(cc) ==> r == Err(InvalidCidLogic)
    ensures !CidLogicInvalid(cc) && CidAndRefused(cc, allowCidAnd) ==> r == Err(CidAndNotSupported)
    ensures !CidLogicInvalid(cc) && !CidAndRefused(cc, allowCidAnd) ==> r == Ok(CidGroup(cc))
  {
    var cidPatterns := CodePatterns(cc.cidCode, cc.cidCodes);
    var cidLogicUpper := if cc.cidLogic != "" then Upper(cc.cidLogic) else "OR";
    assert cidPatterns == CidPatterns(cc) && cidLogicUpper == CidLogic(cc);
    if cidPatterns == [] {
      return Ok(None);
    }
    if cidLogicUpper != "OR" && cidLogicUpper != "AND" {
      return Err(InvalidCidLogic);
    }
    if cidLogicUpper == "AND" {
      if !allowCidAnd && |cidPatterns| > 1 {
        return Err(CidAndNotSupported);
      }
      var subClauses: seq<Clause> := [];
      var cidParams: seq<Param> := [];
      var i := 0;
      while i < |cidPatterns|
        invariant 0 <= i <= |cidPatterns|
        invariant subClauses == CidExistsEach(i)
        invariant cidParams == TextParams(cidPatterns[..i])
      {
        CidExistsStep(cidPatterns, i);
        subClauses := subClauses + [CidExists];
        cidParams := cidParams + [TextParam(cidPatterns[i])];
        i := i + 1;
      }
      assert cidPatterns[..i] == cidPatterns;
      r := Ok(Some(Fragment(AllOf(subClauses), cidParams)));
    } else {
      r := Ok(Some(Fragment(CidMatchesAny, [TextListParam(cidPatterns)])));
    }
  }

  /** `build_condition_filters`: the CID-10 group, the CIAP group, their combination, then the text. */
  method BuildConditionFilters(cc: ConditionCriteria, allowCidAnd: bool) returns (r: Checked<Query>)
    ensures r == ConditionFilters(cc, allowCidAnd)
  {
    var cid := BuildCidGroup(cc, allowCidAnd);
    if cid.Err? {
      return Err(cid.error);
    }

    var ciapPatterns := CodePatterns(cc.ciapCode, cc.ciapCodes);
    var ciap: Option<Fragment> := None;
    if ciapPatterns != [] {
      ciap := Some(Fragment(CiapMatchesAny, [TextListParam(ciapPatterns)]));
    }
    assert ciap == CiapGroup(cc);

    var combiner := Upper(cc.cidCiapLogic);
    if combiner != "OR" && combiner != "AND" {
      combiner := "OR";
    }
    assert combiner == Combiner(cc);

    var q := CombineGroups(cid.value, ciap, combiner);
    var clauses := q.clauses;
    var params := q.params;

    if Truthy(cc.conditionText) {
      var text := Strip(cc.conditionText.value);
      if |text| > 100 {
        return Err(ConditionTextTooLong);
      }
      var like := "%" + text + "%";
      FlattenSnoc(CodeFragments(cc), TextFragment(text));
      clauses := clauses + [TextMentions];
      params := params + [TextParam(like), TextParam(like), TextParam(like), TextParam(like)];
    }
    r := Ok(Query(clauses, params));
  }

  /** Step 3 of `build_condition_filters`: the clauses and parameters of the two groups, combined. */
  method CombineGroups(cid: Option<Fragment>, ciap: Option<Fragment>, combiner: string) returns (q: Query)
    requires cid.Some? ==> WellFormed(cid.value)
    requires ciap.Some? ==> WellFormed(ciap.value)
    ensures q == Flatten(Combine(cid, ciap, combiner))
  {
    var clauses: seq<Clause> := [];
    var params: seq<Param> := [];
    if cid.Some? && ciap.Some? {
      if combiner == "OR" {
        clauses := clauses + [EitherOf(cid.value.clause, ciap.value.clause)];
        params := params + cid.value.params + ciap.value.params;
        FlattenSingle(Fragment(EitherOf(cid.value.clause, ciap.value.clause), cid.value.params + ciap.value.params));
      } else {
        clauses := clauses + [cid.value.clause];
        params := params + cid.value.params;
        clauses := clauses + [ciap.value.clause];
        params := params + ciap.value.params;
        FlattenPair(cid.value, ciap.value);
      }
    } else if cid.Some? {
      clauses := clauses + [cid.value.clause];
      params := params + cid.value.params;
      FlattenSingle(cid.value);
    } else if ciap.Some? {
      clauses := clauses + [ciap.value.clause];
      params := params + ciap.value.params;
      FlattenSingle(ciap.value);
    }
    q := Query(clauses, params);
  }

  lemma FlattenSingle(f: Fragment)
    ensures Flatten([f]) == Query([f.clause], f.params)
  {
    FlattenSnoc([], f);
  }

  lemma FlattenPair(f: Fragment, g: Fragment)
    ensures Flatten([f, g]) == Query([f.clause, g.clause], f.params + g.params)
  {
    FlattenSingle(f);
    FlattenSnoc([f], g);
    assert [f, g] == [f] + [g];
  }
}
