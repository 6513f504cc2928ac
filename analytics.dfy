/**
 * The closed catalogue of analytic queries: `consulta_epidemiologia`, which
 * counts patients per CID-10 problem under optional sex, age and locality
 * filters, and `consulta_pessoal`, which dispatches a fixed query name to one
 * of five parameterised statements. Both clamp the page size into [1, 500].
 */
module Analytics {
  import opened Wrappers
  import opened Sql
  import opened Guard
  import SemConsulta

  /** The largest page either entry point returns. */
  const AnalyticsCap: int := 500

  // ---------------------------------------------------------------- consulta_epidemiologia

  /** The only epidemiological query name. */
  const ComorbidadesPorFiltro: string := "comorbidades_por_filtro"

  /** The optional filters of the epidemiological query, sent to the database as given. */
  datatype EpiCriteria = EpiCriteria(sexo: Option<string>, idadeMin: Option<int>, idadeMax: Option<int>,
                                     localidadeId: Option<int>)

  /** One row of the filter table: a clause and the value bound to it, absent when the argument is `None`. */
  datatype Term = Term(clause: Clause, value: Option<Param>)

  function IntValue(v: Option<int>): Option<Param> {
    if v.Some? then Some(IntParam(v.value)) else None
  }

  function TextValue(v: Option<string>): Option<Param> {
    if v.Some? then Some(TextParam(v.value)) else None
  }

  /** The one-element list of `x` when `b` holds, otherwise the empty list. */
  function OneIf<T>(b: bool, x: T): seq<T> {
    if b then [x] else []
  }

  /** The value of an optional parameter as a list of zero or one elements. */
  function Present(v: Option<Param>): seq<Param> {
    if v.Some? then [v.value] else []
  }

  /** The filter table, in its fixed order: sex, minimum age, maximum age, locality. */
  function Terms(c: EpiCriteria): seq<Term> {
    [ Term(SexEquals, TextValue(c.sexo)),
      Term(AgeAtLeast, IntValue(c.idadeMin)),
      Term(AgeAtMost, IntValue(c.idadeMax)),
      Term(LocalityEquals, IntValue(c.localidadeId)) ]
  }

  /** The clauses of the terms that carry a value, each with its value, in table order. */
  function Given(ts: seq<Term>): Query {
    if ts == [] then Query([], [])
    else
      var front := Given(ts[..|ts| - 1]);
      var t := ts[|ts| - 1];
      if t.value.Some? then Query(front.clauses + [t.clause], front.params + [t.value.value]) else front
  }

  /** The WHERE lists of the epidemiological query; empty lists mean no WHERE at all. */
  function EpiWhere(c: EpiCriteria): Query {
    Given(Terms(c))
  }

  /** Every kept clause sits beside its own value, and a term with a value keeps its clause. */
  lemma {:induction false} GivenPairs(ts: seq<Term>)
    ensures |Given(ts).clauses| == |Given(ts).params|
    ensures forall k | 0 <= k < |Given(ts).clauses| :: Term(Given(ts).clauses[k], Some(Given(ts).params[k])) in ts
    ensures forall t | t in ts && t.value.Some? :: t.clause in Given(ts).clauses
  {
    if ts != [] {
      var front := ts[..|ts| - 1];
      GivenPairs(front);
      assert forall t | t in front :: t in ts;
      assert forall t | t in ts :: t in front || t == ts[|ts| - 1];
    }
  }

  /** One placeholder per clause of the filter table. */
  lemma {:induction false} GivenAligned(ts: seq<Term>)
    requires forall k | 0 <= k < |ts| :: Holes(ts[k].clause) == 1
    ensures HolesAll(Given(ts).clauses) == |Given(ts).clauses|
  {
    if ts != [] {
      var front := ts[..|ts| - 1];
      GivenAligned(front);
      if ts[|ts| - 1].value.Some? {
        HolesAllAppend(Given(front).clauses, [ts[|ts| - 1].clause]);
      }
    }
  }

  /** Terms without a value emit nothing. */
  lemma {:induction false} GivenNone(ts: seq<Term>)
    requires forall k | 0 <= k < |ts| :: ts[k].value.None?
    ensures Given(ts) == Query([], [])
  {
    if ts != [] {
      GivenNone(ts[..|ts| - 1]);
    }
  }

  /** Terms that all carry a value emit every clause and every value, in table order. */
  lemma {:induction false} GivenAll(ts: seq<Term>)
    requires forall k | 0 <= k < |ts| :: ts[k].value.Some?
    ensures Given(ts).clauses == seq(|ts|, k requires 0 <= k < |ts| => ts[k].clause)
    ensures Given(ts).params == seq(|ts|, k requires 0 <= k < |ts| => ts[k].value.value)
  {
    if ts != [] {
      GivenAll(ts[..|ts| - 1]);
    }
  }

  /**
   * A filter clause is emitted exactly when its argument is not `None`, and
   * each emitted clause is bound to its own argument; the lists are aligned.
   * EpiWhereOrder states the order.
   */
  lemma EpiWhereShape(c: EpiCriteria)
    ensures var q := EpiWhere(c);
      && Aligned(q)
      && |q.clauses| == |q.params|
      && (SexEquals in q.clauses <==> c.sexo.Some?)
      && (AgeAtLeast in q.clauses <==> c.idadeMin.Some?)
      && (AgeAtMost in q.clauses <==> c.idadeMax.Some?)
      && (LocalityEquals in q.clauses <==> c.localidadeId.Some?)
      && (forall k | 0 <= k < |q.clauses| :: Term(q.clauses[k], Some(q.params[k])) in Terms(c))
  {
    var ts := Terms(c);
    GivenPairs(ts);
    GivenAligned(ts);
    var q := EpiWhere(c);
    forall k | 0 <= k < |q.clauses|
      ensures q.clauses[k] == SexEquals ==> c.sexo.Some?
      ensures q.clauses[k] == AgeAtLeast ==> c.idadeMin.Some?
      ensures q.clauses[k] == AgeAtMost ==> c.idadeMax.Some?
      ensures q.clauses[k] == LocalityEquals ==> c.localidadeId.Some?
    {
      TermOwner(c, q.clauses[k], q.params[k]);
    }
    assert ts[0] in ts && ts[1] in ts && ts[2] in ts && ts[3] in ts;
  }

  /** Appending a term appends its clause and its value exactly when it has a value. */
  lemma GivenSnoc(ts: seq<Term>, t: Term)
    ensures Given(ts + [t]).clauses == Given(ts).clauses + OneIf(t.value.Some?, t.clause)
    ensures Given(ts + [t]).params == Given(ts).params + Present(t.value)
  {
    assert (ts + [t])[..|ts|] == ts;
  }

  /**
   * The clauses, and their values, are those of the given arguments in the
   * order sexo, idade_min, idade_max, localidade_id, whichever are given.
   */
  lemma EpiWhereOrder(c: EpiCriteria)
    ensures EpiWhere(c).clauses
            == OneIf(c.sexo.Some?, SexEquals) + OneIf(c.idadeMin.Some?, AgeAtLeast)
               + OneIf(c.idadeMax.Some?, AgeAtMost) + OneIf(c.localidadeId.Some?, LocalityEquals)
    ensures EpiWhere(c).params
            == Present(TextValue(c.sexo)) + Present(IntValue(c.idadeMin))
               + Present(IntValue(c.idadeMax)) + Present(IntValue(c.localidadeId))
  {
    var ts := Terms(c);
    var none: seq<Term> := [];
    GivenSnoc(none, ts[0]);
    GivenSnoc(none + [ts[0]], ts[1]);
    GivenSnoc(none + [ts[0]] + [ts[1]], ts[2]);
    GivenSnoc(none + [ts[0]] + [ts[1]] + [ts[2]], ts[3]);
    assert none + [ts[0]] + [ts[1]] + [ts[2]] + [ts[3]] == ts;
  }

  /** Each clause of the filter table belongs to one argument only. */
  lemma TermOwner(c: EpiCriteria, cl: Clause, v: Param)
    requires Term(cl, Some(v)) in Terms(c)
    ensures cl == SexEquals ==> c.sexo.Some?
    ensures cl == AgeAtLeast ==> c.idadeMin.Some?
    ensures cl == AgeAtMost ==> c.idadeMax.Some?
    ensures cl == LocalityEquals ==> c.localidadeId.Some?
  {
    var ts := Terms(c);
    var j :| 0 <= j < 4 && ts[j] == Term(cl, Some(v));
    assert j == 0 || j == 1 || j == 2 || j == 3;
  }

  /** With every argument given, the clauses and values follow the table order. */
  lemma EpiWhereAllGiven(c: EpiCriteria)
    requires c.sexo.Some? && c.idadeMin.Some? && c.idadeMax.Some? && c.localidadeId.Some?
    ensures EpiWhere(c) == Query([SexEquals, AgeAtLeast, AgeAtMost, LocalityEquals],
                                 [TextParam(c.sexo.value), IntParam(c.idadeMin.value),
                                  IntParam(c.idadeMax.value), IntParam(c.localidadeId.value)])
  {
    GivenAll(Terms(c));
  }

  /** No argument: no WHERE clause at all. */
  lemma EpiWhereNone()
    ensures EpiWhere(EpiCriteria(None, None, None, None)) == Query([], [])
  {
    GivenNone(Terms(EpiCriteria(None, None, None, None)));
  }

  /** The loop over the filter table, appending each given clause and its value. */
  method BuildEpiWhere(c: EpiCriteria) returns (clauses: seq<Clause>, params: seq<Param>)
    ensures Query(clauses, params) == EpiWhere(c)
  {
    var terms := Terms(c);
    clauses := [];
    params := [];
    var i := 0;
    while i < |terms|
      invariant 0 <= i <= |terms|
      invariant Query(clauses, params) == Given(terms[..i])
    {
      var t := terms[i];
      assert terms[..i + 1][..i] == terms[..i];
      if t.value.Some? {
        clauses := clauses + [t.clause];
        params := params + [t.value.value];
      }
      i := i + 1;
    }
    assert terms[..|terms|] == terms;
  }

  /** `consulta_epidemiologia`'s statement: the query name checked, then the filters and the clamped limit. */
  function EpidemiologyQuery(tipo: string, c: EpiCriteria, limite: int): Checked<Query> {
    if tipo != ComorbidadesPorFiltro then Err(UnsupportedEpidemiologyType)
    else Ok(Limited(EpiWhere(c), Clamp(limite, AnalyticsCap)))
  }

  /**
   * Any query name but `comorbidades_por_filtro` is refused; otherwise the
   * limit, clamped into [1, 500], is the last parameter, after the filter
   * values, and binds to `LIMIT`.
   */
  lemma EpidemiologyQueryShape(tipo: string, c: EpiCriteria, limite: int)
    ensures EpidemiologyQuery(tipo, c, limite).Err? <==> tipo != ComorbidadesPorFiltro
    ensures EpidemiologyQuery(tipo, c, limite).Err? ==> EpidemiologyQuery(tipo, c, limite).error == UnsupportedEpidemiologyType
    ensures EpidemiologyQuery(tipo, c, limite).Ok?
            ==> var q := EpidemiologyQuery(tipo, c, limite).value;
                && Aligned(q)
                && q.clauses == EpiWhere(c).clauses + [Limit]
                && q.params == EpiWhere(c).params + [IntParam(Clamp(limite, AnalyticsCap))]
                && 1 <= Clamp(limite, AnalyticsCap) <= AnalyticsCap
  {
    EpiWhereShape(c);
    LimitedShape(EpiWhere(c), Clamp(limite, AnalyticsCap));
  }

  /** Without any filter the statement has no WHERE and its only parameter is the limit. */
  lemma EpidemiologyUnfiltered(limite: int)
    ensures EpidemiologyQuery(ComorbidadesPorFiltro, EpiCriteria(None, None, None, None), limite)
            == Ok(Query([Limit], [IntParam(Clamp(limite, AnalyticsCap))]))
  {
    EpiWhereNone();
    var empty: seq<Clause> := [];
    var noParams: seq<Param> := [];
    assert empty + [Limit] == [Limit] && noParams + [IntParam(Clamp(limite, AnalyticsCap))] == [IntParam(Clamp(limite, AnalyticsCap))];
  }

  // ---------------------------------------------------------------- consulta_pessoal

  /** The five personal query names. */
  const SemAtendimentoAno: string := "sem_atendimento_ano"
  const GestanteSemAtendimentoMes: string := "gestante_sem_atendimento_mes"
  const HipertensoSemAtendimento6m: string := "hipertenso_sem_atendimento_6m"
  const Hba1cMaior8: string := "hba1c_maior_8"
  const PaMaior14090: string := "pa_maior_140_90"

  /** The CID-10 pattern of the hypertension query, as the dispatch passes it. */
  const HipertensaoCidFiltro: string := "I10%%"

  /** The statement a personal query name selects, with its clamped limit. */
  datatype PersonalQuery =
    | SemAtendimento(dias: int, apenasGestantes: bool, cidFiltro: Option<string>, limite: int)
    | Hba1cAbove8(limite: int)
    | PressureAbove140Over90(limite: int)

  /** `consulta_pessoal`'s dispatch. */
  function ConsultaPessoal(tipo: string, limite: int): Checked<PersonalQuery> {
    var safe := Clamp(limite, AnalyticsCap);
    if tipo == SemAtendimentoAno then Ok(SemAtendimento(365, false, None, safe))
    else if tipo == GestanteSemAtendimentoMes then Ok(SemAtendimento(30, true, None, safe))
    else if tipo == HipertensoSemAtendimento6m then Ok(SemAtendimento(180, false, Some(HipertensaoCidFiltro), safe))
    else if tipo == Hba1cMaior8 then Ok(Hba1cAbove8(safe))
    else if tipo == PaMaior14090 then Ok(PressureAbove140Over90(safe))
    else Err(UnsupportedPersonalType)
  }

  /** `_consulta_sem_atendimento`'s parameters: the interval, the CID-10 pattern when one is given, the limit. */
  function SemAtendimentoParams(dias: int, cidFiltro: Option<string>, limite: int): (r: seq<Param>)
    ensures |r| == (if Truthy(cidFiltro) then 3 else 2)
    ensures r[0] == TextParam(SemConsulta.DaysInterval(dias)) && r[|r| - 1] == IntParam(limite)
    ensures Truthy(cidFiltro) ==> r[1] == TextParam(cidFiltro.value)
  {
    [TextParam(SemConsulta.DaysInterval(dias))]
    + (if Truthy(cidFiltro) then [TextParam(cidFiltro.value)] else [])
    + [IntParam(limite)]
  }

  /** The parameter list built by appending, as the source does. */
  method BuildSemAtendimentoParams(dias: int, cidFiltro: Option<string>, limite: int) returns (params: seq<Param>)
    ensures params == SemAtendimentoParams(dias, cidFiltro, limite)
  {
    params := [TextParam(SemConsulta.DaysInterval(dias))];
    if cidFiltro.Some? && cidFiltro.value != "" {
      params := params + [TextParam(cidFiltro.value)];
    }
    params := params + [IntParam(limite)];
  }

  /** The placeholders of `_consulta_sem_atendimento`'s text, in order. */
  function SemAtendimentoClauses(apenasGestantes: bool, cidFiltro: Option<string>): seq<Clause> {
    [LastAttendanceBefore]
    + (if apenasGestantes then [PregnancyOngoing] else [])
    + (if Truthy(cidFiltro) then [CidCodeLike] else [])
    + [Limit]
  }

  /** The statement and parameters a dispatched query sends. */
  function PersonalStatement(pq: PersonalQuery): Query {
    match pq
    case SemAtendimento(d, g, cid, l) => Query(SemAtendimentoClauses(g, cid), SemAtendimentoParams(d, cid, l))
    case Hba1cAbove8(l) => Limited(Query([], []), l)
    case PressureAbove140Over90(l) => Limited(Query([], []), l)
  }

  /**
   * The parameters of `_consulta_sem_atendimento` match its placeholders:
   * the interval binds to the last-attendance test, the pattern (when given)
   * to the CID-10 test, the limit to `LIMIT`, and the pregnancy test binds
   * nothing.
   */
  lemma SemAtendimentoBinds(dias: int, g: bool, cid: Option<string>, limite: int)
    ensures var cs := SemAtendimentoClauses(g, cid);
      var ps := SemAtendimentoParams(dias, cid, limite);
      var noParams: seq<Param> := [];
      && Aligned(Query(cs, ps))
      && Bind(cs, ps) == Some([[TextParam(SemConsulta.DaysInterval(dias))]]
                              + (if g then [noParams] else [])
                              + (if Truthy(cid) then [[TextParam(cid.value)]] else [])
                              + [[IntParam(limite)]])
  {
    var noParams: seq<Param> := [];
    var gc: seq<Clause> := if g then [PregnancyOngoing] else [];
    var gv: seq<seq<Param>> := if g then [noParams] else [];
    var pc: seq<Clause> := if Truthy(cid) then [CidCodeLike] else [];
    var pp: seq<Param> := if Truthy(cid) then [TextParam(cid.value)] else [];
    var pv: seq<seq<Param>> := if Truthy(cid) then [[TextParam(cid.value)]] else [];
    SemAtendimentoSplit(dias, g, cid, limite);
    MiddleBinds(g, cid);
    BetweenIntervalAndLimit(SemAtendimentoClauses(g, cid), SemAtendimentoParams(dias, cid, limite),
                            gc + pc, pp, gv, pv, TextParam(SemConsulta.DaysInterval(dias)), IntParam(limite));
  }

  /** The statement's lists are the interval test, the optional clauses, then `LIMIT`. */
  lemma SemAtendimentoSplit(dias: int, g: bool, cid: Option<string>, limite: int)
    ensures SemAtendimentoClauses(g, cid)
         == [LastAttendanceBefore] + ((if g then [PregnancyOngoing] else []) + (if Truthy(cid) then [CidCodeLike] else [])) + [Limit]
    ensures SemAtendimentoParams(dias, cid, limite)
         == [TextParam(SemConsulta.DaysInterval(dias))] + (if Truthy(cid) then [TextParam(cid.value)] else []) + [IntParam(limite)]
  {
  }

  /** Clauses placed between the interval test and `LIMIT` keep their values. */
  lemma BetweenIntervalAndLimit(cs: seq<Clause>, ps: seq<Param>, mc: seq<Clause>, mp: seq<Param>,
                                 gv: seq<seq<Param>>, pv: seq<seq<Param>>, d: Param, l: Param)
    requires cs == [LastAttendanceBefore] + mc + [Limit] && ps == [d] + mp + [l]
    requires Bind(mc, mp) == Some(gv + pv)
    ensures Bind(cs, ps) == Some([[d]] + gv + pv + [[l]])
    ensures Aligned(Query(cs, ps))
  {
    BindOne(LastAttendanceBefore, [d]);
    BindOne(Limit, [l]);
    BindConcat([LastAttendanceBefore], [d], mc, mp, [[d]], gv + pv);
    BindConcat([LastAttendanceBefore] + mc, [d] + mp, [Limit], [l], [[d]] + (gv + pv), [[l]]);
    assert [[d]] + (gv + pv) + [[l]] == [[d]] + gv + pv + [[l]];
    BindIffAligned(Query(cs, ps));
  }

  /** The optional pregnancy and pattern clauses bind nothing and the pattern respectively. */
  lemma MiddleBinds(g: bool, cid: Option<string>)
    ensures var noParams: seq<Param> := [];
      Bind((if g then [PregnancyOngoing] else []) + (if Truthy(cid) then [CidCodeLike] else []),
           if Truthy(cid) then [TextParam(cid.value)] else [])
      == Some((if g then [noParams] else []) + (if Truthy(cid) then [[TextParam(cid.value)]] else []))
  {
    var noParams: seq<Param> := [];
    var none: seq<seq<Param>> := [];
    var gc: seq<Clause> := if g then [PregnancyOngoing] else [];
    var gv: seq<seq<Param>> := if g then [noParams] else [];
    var pc: seq<Clause> := if Truthy(cid) then [CidCodeLike] else [];
    var pp: seq<Param> := if Truthy(cid) then [TextParam(cid.value)] else [];
    var pv: seq<seq<Param>> := if Truthy(cid) then [pp] else [];
    if g {
      BindOne(PregnancyOngoing, noParams);
    } else {
      assert Bind(gc, noParams) == Some(none);
    }
    if Truthy(cid) {
      BindOne(CidCodeLike, pp);
    } else {
      assert Bind(pc, pp) == Some(none);
    }
    BindConcat(gc, noParams, pc, pp, gv, pv);
    assert noParams + pp == pp;
  }

  /**
   * Exactly the five query names are served, each with its own statement
   * and days; every statement is aligned, and its last parameter is the
   * page size clamped into [1, 500].
   */
  lemma ConsultaPessoalCases(tipo: string, limite: int)
    ensures ConsultaPessoal(tipo, limite).Err?
            <==> tipo !in {SemAtendimentoAno, GestanteSemAtendimentoMes, HipertensoSemAtendimento6m, Hba1cMaior8, PaMaior14090}
    ensures ConsultaPessoal(tipo, limite).Err? ==> ConsultaPessoal(tipo, limite).error == UnsupportedPersonalType
    ensures tipo == SemAtendimentoAno
            ==> ConsultaPessoal(tipo, limite) == Ok(SemAtendimento(365, false, None, Clamp(limite, AnalyticsCap)))
    ensures tipo == GestanteSemAtendimentoMes
            ==> ConsultaPessoal(tipo, limite) == Ok(SemAtendimento(30, true, None, Clamp(limite, AnalyticsCap)))
    ensures tipo == HipertensoSemAtendimento6m
            ==> ConsultaPessoal(tipo, limite)
                == Ok(SemAtendimento(180, false, Some(HipertensaoCidFiltro), Clamp(limite, AnalyticsCap)))
    ensures tipo == Hba1cMaior8 ==> ConsultaPessoal(tipo, limite) == Ok(Hba1cAbove8(Clamp(limite, AnalyticsCap)))
    ensures tipo == PaMaior14090 ==> ConsultaPessoal(tipo, limite) == Ok(PressureAbove140Over90(Clamp(limite, AnalyticsCap)))
    ensures ConsultaPessoal(tipo, limite).Ok?
            ==> var s := PersonalStatement(ConsultaPessoal(tipo, limite).value);
                && Aligned(s)
                && |s.clauses| >= 1 && s.clauses[|s.clauses| - 1] == Limit
                && |s.params| >= 1 && s.params[|s.params| - 1] == IntParam(Clamp(limite, AnalyticsCap))
                && 1 <= Clamp(limite, AnalyticsCap) <= AnalyticsCap
  {
    var safe := Clamp(limite, AnalyticsCap);
    if ConsultaPessoal(tipo, limite).Ok? {
      match ConsultaPessoal(tipo, limite).value
      case SemAtendimento(d, g, cid, l) =>
        SemAtendimentoBinds(d, g, cid, l);
      case Hba1cAbove8(l) =>
        LimitedShape(Query([], []), l);
      case PressureAbove140Over90(l) =>
        LimitedShape(Query([], []), l);
    }
  }

  /** Only the hypertension query filters on a CID-10 pattern, and only the pregnancy query on pregnancy. */
  lemma ConsultaPessoalFilters(tipo: string, limite: int)
    requires ConsultaPessoal(tipo, limite).Ok? && ConsultaPessoal(tipo, limite).value.SemAtendimento?
    ensures var s := PersonalStatement(ConsultaPessoal(tipo, limite).value);
      && (CidCodeLike in s.clauses <==> tipo == HipertensoSemAtendimento6m)
      && (PregnancyOngoing in s.clauses <==> tipo == GestanteSemAtendimentoMes)
      && |s.params| == (if tipo == HipertensoSemAtendimento6m then 3 else 2)
  {
  }
}
