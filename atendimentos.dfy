/**
 * `listar_ultimos_atendimentos_soap`: the SOAP notes of one patient's
 * attendances by physicians and nurses, newest first, optionally limited to
 * at most 1000.
 */
module Atendimentos {
  import opened Wrappers
  import opened Sql
  import opened Guard

  /** The largest page the history returns. */
  const HistoryCap: int := 1000

  /**
   * The statement's lists: the patient test bound to the id, then, when a
   * limit is asked for, `LIMIT` bound to it clamped into [1, 1000].
   */
  function HistoryQuery(pacienteId: Option<int>, limite: Option<int>): Checked<Query> {
    if pacienteId.None? then Err(PatientIdRequired)
    else if pacienteId.value <= 0 then Err(NonPositivePatientId)
    else
      var base := Query([RecordPatientEquals], [IntParam(pacienteId.value)]);
      if limite.None? then Ok(base) else Ok(Limited(base, Clamp(limite.value, HistoryCap)))
  }

  /** The tool's steps: the two id checks, the clamp, then the conditional `LIMIT`. */
  method BuildHistoryQuery(pacienteId: Option<int>, limite: Option<int>) returns (r: Checked<Query>)
    ensures r == HistoryQuery(pacienteId, limite)
  {
    if pacienteId.None? {
      return Err(PatientIdRequired);
    }
    var id := pacienteId.value;
    if id <= 0 {
      return Err(NonPositivePatientId);
    }
    var safeLimit: Option<int> := None;
    if limite.Some? {
      safeLimit := Some(Clamp(limite.value, HistoryCap));
    }
    var clauses := [RecordPatientEquals];
    var params := [IntParam(id)];
    if safeLimit.Some? {
      clauses := clauses + [Limit];
      params := params + [IntParam(safeLimit.value)];
    }
    r := Ok(Query(clauses, params));
  }

  /**
   * A missing id and a non-positive id are refused, in that order, and
   * nothing else is; the limit is never refused, only clamped.
   */
  lemma HistoryQueryErrors(pacienteId: Option<int>, limite: Option<int>)
    ensures HistoryQuery(pacienteId, limite).Err? <==> pacienteId.None? || pacienteId.value <= 0
    ensures pacienteId.None? ==> HistoryQuery(pacienteId, limite) == Err(PatientIdRequired)
    ensures pacienteId.Some? && pacienteId.value <= 0 ==> HistoryQuery(pacienteId, limite) == Err(NonPositivePatientId)
    ensures HistoryQuery(pacienteId, limite).Ok? <==> HistoryQuery(pacienteId, None).Ok?
  {
  }

  /**
   * The id is the first parameter and binds to the patient test; without a
   * limit it is the only one and there is no `LIMIT`; with one, the clamped
   * limit follows it and binds to `LIMIT`.
   */
  lemma HistoryQueryShape(pacienteId: Option<int>, limite: Option<int>)
    requires HistoryQuery(pacienteId, limite).Ok?
    ensures var q := HistoryQuery(pacienteId, limite).value;
      && Aligned(q)
      && pacienteId.Some? && pacienteId.value > 0
      && |q.params| >= 1 && q.params[0] == IntParam(pacienteId.value)
      && (limite.None? ==> q == Query([RecordPatientEquals], [IntParam(pacienteId.value)]) && Limit !in q.clauses)
      && (limite.Some? ==> q.clauses == [RecordPatientEquals, Limit]
                           && q.params == [IntParam(pacienteId.value), IntParam(Clamp(limite.value, HistoryCap))]
                           && 1 <= Clamp(limite.value, HistoryCap) <= HistoryCap
                           && Bind(q.clauses, q.params)
                              == Some([[IntParam(pacienteId.value)], [IntParam(Clamp(limite.value, HistoryCap))]]))
  {
    var base := Query([RecordPatientEquals], [IntParam(pacienteId.value)]);
    BindOne(RecordPatientEquals, base.params);
    assert Aligned(base);
    if limite.Some? {
      var l := Clamp(limite.value, HistoryCap);
      LimitedShape(base, l);
      assert Bind(base.clauses, base.params).value + [[IntParam(l)]] == [[IntParam(pacienteId.value)], [IntParam(l)]];
    }
  }

  /** A limit that is already in range is sent unchanged, and any two limits beyond 1000 ask for the same page. */
  lemma HistoryLimitClamp(pacienteId: int, limite: int, other: int)
    requires pacienteId > 0
    ensures 1 <= limite <= HistoryCap
            ==> HistoryQuery(Some(pacienteId), Some(limite)).value.params == [IntParam(pacienteId), IntParam(limite)]
    ensures limite >= HistoryCap && other >= HistoryCap
            ==> HistoryQuery(Some(pacienteId), Some(limite)) == HistoryQuery(Some(pacienteId), Some(other))
  {
  }
}
