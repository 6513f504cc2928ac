/**
 * `capturar_paciente`: minimal, anonymised data of the patients matching the
 * patient criteria (initials, birth date, sex), at most 200 per call.
 */
module Paciente {
  import opened Wrappers
  import opened Text
  import opened Sql
  import opened Guard
  import opened Filters
  import opened Combined
  import opened Initials

  /** The largest page the tool returns. */
  const ListCap: int := 200

  /** The outcome of the filter call, refused when it yields no clause, then the clamped page size. */
  function Capture(patient: Checked<Query>, limite: int): Checked<Query> {
    match patient
    case Err(e) => Err(e)
    case Ok(q) => if |q.clauses| == 0 then Err(NoCriteria) else Ok(Limited(q, Clamp(limite, ListCap)))
  }

  /**
   * The statement the tool runs with the filter call corrected: the team
   * and micro-area arguments, which the filter builder has no use for, are
   * not passed to it.
   */
  function CaptureQuery(p: PatientCriteria, limite: int): Checked<Query> {
    Capture(PatientFilters(p), limite)
  }

  /** The statement as written: the filter builder is called with keywords it does not declare. */
  function CaptureQueryAsWritten(p: PatientCriteria, limite: int): Checked<Query> {
    Capture(CallPatientFilters(ListingKeywords, p), limite)
  }

  /** The criteria of a call that gives only a sex. */
  function SexOnly(sex: string): PatientCriteria {
    PatientCriteria(None, None, Some(sex), None, None, None)
  }

  /**
   * As written, every call raises the keyword error; the corrected tool
   * refuses a call without criteria and an unknown sex, as the tool's own
   * checks intend, with the errors those checks raise.
   */
  lemma CaptureQueryAsWrittenRaises(p: PatientCriteria, limite: int)
    ensures CaptureQueryAsWritten(p, limite) == Err(UnexpectedKeyword("equipe_id"))
    ensures CaptureQuery(NoPatientCriteria(), limite) == Err(NoCriteria)
    ensures CaptureQuery(SexOnly("XYZ"), limite) == Err(InvalidSex)
  {
    ListingKeywordsRefused();
    PatientFiltersNone();
    NormalizeSexUnknown();
    PatientFiltersErrors(SexOnly("XYZ"));
  }

  /**
   * The corrected tool raises what the filter builder raises, and otherwise
   * refuses exactly the calls that give no criterion.
   */
  lemma CaptureQueryErrors(p: PatientCriteria, limite: int)
    ensures PatientFilters(p).Err? ==> CaptureQuery(p, limite) == Err(PatientFilters(p).error)
    ensures PatientFilters(p).Ok? ==> (CaptureQuery(p, limite).Err? <==> NoPatientCriterion(p))
    ensures PatientFilters(p).Ok? && NoPatientCriterion(p) ==> CaptureQuery(p, limite) == Err(NoCriteria)
  {
    if PatientFilters(p).Ok? {
      PatientClausesEmpty(p);
    }
  }

  /**
   * The patient clauses, then `LIMIT`; the page size, clamped into [1, 200],
   * is the last parameter and binds to `LIMIT`, after every filter value.
   */
  lemma CaptureQueryShape(p: PatientCriteria, limite: int)
    requires CaptureQuery(p, limite).Ok?
    ensures var q := CaptureQuery(p, limite).value;
      var pq := PatientFilters(p).value;
      && PatientFilters(p).Ok?
      && Aligned(q)
      && |pq.clauses| >= 1
      && q.clauses == pq.clauses + [Limit]
      && q.params == pq.params + [IntParam(Clamp(limite, ListCap))]
      && Bind(pq.clauses, pq.params).Some?
      && Bind(q.clauses, q.params) == Some(Bind(pq.clauses, pq.params).value + [[IntParam(Clamp(limite, ListCap))]])
      && 1 <= Clamp(limite, ListCap) <= ListCap
      && (1 <= limite <= ListCap ==> Clamp(limite, ListCap) == limite)
  {
    PatientFiltersShape(p);
    LimitedShape(PatientFilters(p).value, Clamp(limite, ListCap));
  }

  /** A row of the statement; the birth date arrives already formatted. */
  datatype PatientRow = PatientRow(nomePaciente: Option<string>, dataNascimento: Option<string>, sexo: Option<string>)

  /** `PatientCaptureResult`: initials instead of the name; the sex doubles as gender. */
  datatype PatientCapture = PatientCapture(name: string, birthDate: Option<string>, sex: Option<string>,
                                           gender: Option<string>)

  function ToResult(row: PatientRow): PatientCapture {
    PatientCapture(ToInitials(row.nomePaciente), row.dataNascimento, row.sexo, row.sexo)
  }

  /** `capturar_paciente` with the corrected call, the database being the function from statement to rows. */
  function CapturarPaciente(p: PatientCriteria, limite: int, db: Query -> seq<PatientRow>): Checked<seq<PatientCapture>> {
    match CaptureQuery(p, limite)
    case Err(e) => Err(e)
    case Ok(q) => Ok(seq(|db(q)|, k requires 0 <= k < |db(q)| => ToResult(db(q)[k])))
  }

  /**
   * One result per row, in row order; the name is shown only as non-empty
   * initials that read the same upper-cased, and gender repeats the sex.
   */
  lemma CapturarPacienteResults(p: PatientCriteria, limite: int, db: Query -> seq<PatientRow>)
    ensures CapturarPaciente(p, limite, db).Err? <==> CaptureQuery(p, limite).Err?
    ensures CaptureQuery(p, limite).Ok?
            ==> var rows := db(CaptureQuery(p, limite).value);
                var rs := CapturarPaciente(p, limite, db).value;
                && |rs| == |rows|
                && forall k | 0 <= k < |rows| ::
                     && rs[k].name == ToInitials(rows[k].nomePaciente)
                     && |rs[k].name| > 0
                     && Upper(rs[k].name) == rs[k].name
                     && rs[k].birthDate == rows[k].dataNascimento
                     && rs[k].sex == rows[k].sexo && rs[k].gender == rows[k].sexo
  {
    if CaptureQuery(p, limite).Ok? {
      var rows := db(CaptureQuery(p, limite).value);
      forall k | 0 <= k < |rows|
        ensures |ToInitials(rows[k].nomePaciente)| > 0
        ensures Upper(ToInitials(rows[k].nomePaciente)) == ToInitials(rows[k].nomePaciente)
      {
        ToInitialsDisplayed(rows[k].nomePaciente);
      }
    }
  }
}
