/**
 * `listar_condicoes_pacientes`: the problems (CID-10/CIAP conditions)
 * recorded for the patients matching the patient and condition criteria, at
 * most 200 per call, each patient shown only by initials. CID-10 codes
 * cannot be combined with AND here.
 */
module Condicoes {
  import opened Wrappers
  import opened Text
  import opened Sql
  import opened Guard
  import opened Filters
  import opened Combined
  import opened Initials

  /** The largest page the listing returns. */
  const ListCap: int := 200

  /**
   * The statement the tool runs with the filter call corrected: the team
   * and micro-area arguments, which the filter builder has no use for, are
   * not passed to it.
   */
  function ListQuery(p: PatientCriteria, cc: ConditionCriteria, limite: int): Checked<Query> {
    Listing(CombinedFilters(p, cc, false), limite)
  }

  /** The combined filters followed by the clamped page size. */
  function Listing(filtered: Checked<Filtered>, limite: int): Checked<Query> {
    match filtered
    case Err(e) => Err(e)
    case Ok(f) => Ok(Limited(All(f), Clamp(limite, ListCap)))
  }

  /** The statement as written: the filter builder is called with keywords it does not declare. */
  function ListQueryAsWritten(p: PatientCriteria, cc: ConditionCriteria, limite: int): Checked<Query> {
    Listing(CombineWith(CallPatientFilters(ListingKeywords, p), cc, false), limite)
  }

  /**
   * As written, every call raises the keyword error before any criterion is
   * looked at, the call without criteria included, which was meant to be
   * refused for having none.
   */
  lemma ListQueryAsWrittenRaises(p: PatientCriteria, cc: ConditionCriteria, limite: int)
    ensures ListQueryAsWritten(p, cc, limite) == Err(UnexpectedKeyword("equipe_id"))
    ensures ListQuery(NoPatientCriteria(), NoConditionCriteria(), limite) == Err(NoCriteria)
  {
    ListingKeywordsRefused();
    NoArgumentsRefused(false);
  }

  /**
   * The corrected listing raises what the builders raise, in their order;
   * several CID-10 codes under AND are refused, and a call without any
   * criterion is refused.
   */
  lemma ListQueryErrors(p: PatientCriteria, cc: ConditionCriteria, limite: int)
    ensures ListQuery(p, cc, limite).Err? <==> CombinedFilters(p, cc, false).Err?
    ensures ListQuery(p, cc, limite).Err? ==> ListQuery(p, cc, limite).error == CombinedFilters(p, cc, false).error
    ensures PatientFilters(p).Ok? && !CidLogicInvalid(cc) && CidAndRefused(cc, false)
            ==> ListQuery(p, cc, limite) == Err(CidAndNotSupported)
    ensures PatientFilters(p).Ok? && ConditionFilters(cc, false).Ok?
            ==> (ListQuery(p, cc, limite) == Err(NoCriteria) <==> NoPatientCriterion(p) && NoConditionCriterion(cc))
  {
    CombinedFiltersErrors(p, cc, false);
    ConditionFiltersErrors(cc, false);
  }

  /**
   * The filter clauses, patient ones first, then `LIMIT`; the page size,
   * clamped into [1, 200], is the last parameter, after every filter value.
   */
  lemma ListQueryShape(p: PatientCriteria, cc: ConditionCriteria, limite: int)
    requires ListQuery(p, cc, limite).Ok?
    ensures var q := ListQuery(p, cc, limite).value;
      var pq := PatientFilters(p).value;
      var cq := ConditionFilters(cc, false).value;
      && PatientFilters(p).Ok? && ConditionFilters(cc, false).Ok?
      && Aligned(q)
      && q.clauses == pq.clauses + cq.clauses + [Limit]
      && q.params == pq.params + cq.params + [IntParam(Clamp(limite, ListCap))]
      && 1 <= Clamp(limite, ListCap) <= ListCap
      && (1 <= limite <= ListCap ==> Clamp(limite, ListCap) == limite)
  {
    CombinedFiltersErrors(p, cc, false);
    CombinedFiltersAligned(p, cc, false);
    var f := CombinedFilters(p, cc, false).value;
    LimitedShape(All(f), Clamp(limite, ListCap));
  }

  /** A row of the listing statement; dates arrive already formatted, codes and notes as text. */
  datatype ConditionRow = ConditionRow(
    pacienteId: int,
    nomePaciente: Option<string>,
    dataNascimento: Option<string>,
    sexo: Option<string>,
    conditionId: int,
    cidCode: Option<string>,
    cidDescription: Option<string>,
    ciapCode: Option<string>,
    ciapDescription: Option<string>,
    dtInicioCondicao: Option<string>,
    dtFimCondicao: Option<string>,
    situacaoId: Option<string>,
    observacao: Option<string>)

  /** `ConditionResult`: the row with the name replaced by its initials. */
  datatype ConditionResult = ConditionResult(
    pacienteId: int,
    pacienteInitials: string,
    birthDate: Option<string>,
    sex: Option<string>,
    conditionId: int,
    cidCode: Option<string>,
    cidDescription: Option<string>,
    ciapCode: Option<string>,
    ciapDescription: Option<string>,
    dtInicioCondicao: Option<string>,
    dtFimCondicao: Option<string>,
    situacaoId: Option<string>,
    observacao: Option<string>)

  function ToResult(row: ConditionRow): ConditionResult {
    ConditionResult(row.pacienteId, ToInitials(row.nomePaciente), row.dataNascimento, row.sexo,
                    row.conditionId, row.cidCode, row.cidDescription, row.ciapCode, row.ciapDescription,
                    row.dtInicioCondicao, row.dtFimCondicao, row.situacaoId, row.observacao)
  }

  /** `listar_condicoes_pacientes` with the corrected call, the database being the function from statement to rows. */
  function ListCondicoes(p: PatientCriteria, cc: ConditionCriteria, limite: int,
                         db: Query -> seq<ConditionRow>): Checked<seq<ConditionResult>> {
    match ListQuery(p, cc, limite)
    case Err(e) => Err(e)
    case Ok(q) => Ok(seq(|db(q)|, k requires 0 <= k < |db(q)| => ToResult(db(q)[k])))
  }

  /**
   * One result per row, in row order; the identifiers, birth date, sex and
   * every code, description, date, status and note are kept, and the name is
   * shown only as its initials, which are non-empty and upper-case.
   */
  lemma ListCondicoesResults(p: PatientCriteria, cc: ConditionCriteria, limite: int, db: Query -> seq<ConditionRow>)
    ensures ListCondicoes(p, cc, limite, db).Err? <==> ListQuery(p, cc, limite).Err?
    ensures ListQuery(p, cc, limite).Ok?
            ==> var rows := db(ListQuery(p, cc, limite).value);
                var rs := ListCondicoes(p, cc, limite, db).value;
                && |rs| == |rows|
                && forall k | 0 <= k < |rows| ::
                     && rs[k].pacienteId == rows[k].pacienteId
                     && rs[k].pacienteInitials == ToInitials(rows[k].nomePaciente)
                     && rs[k].birthDate == rows[k].dataNascimento && rs[k].sex == rows[k].sexo
                     && rs[k].conditionId == rows[k].conditionId
                     && rs[k].cidCode == rows[k].cidCode && rs[k].cidDescription == rows[k].cidDescription
                     && rs[k].ciapCode == rows[k].ciapCode && rs[k].ciapDescription == rows[k].ciapDescription
                     && rs[k].dtInicioCondicao == rows[k].dtInicioCondicao
                     && rs[k].dtFimCondicao == rows[k].dtFimCondicao
                     && rs[k].situacaoId == rows[k].situacaoId
                     && rs[k].observacao == rows[k].observacao
                     && |rs[k].pacienteInitials| > 0
                     && Upper(rs[k].pacienteInitials) == rs[k].pacienteInitials
  {
    if ListQuery(p, cc, limite).Ok? {
      var rows := db(ListQuery(p, cc, limite).value);
      forall k | 0 <= k < |rows|
        ensures |ToInitials(rows[k].nomePaciente)| > 0
        ensures Upper(ToInitials(rows[k].nomePaciente)) == ToInitials(rows[k].nomePaciente)
      {
        ToInitialsDisplayed(rows[k].nomePaciente);
      }
    }
  }
}
