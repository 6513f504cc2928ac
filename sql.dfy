/**
 * SQL predicate fragments as a small tagged tree, each carrying the number of
 * `%s` placeholders its text holds, and the ordered parameter lists bound to
 * them. The SQL text itself is not modelled: a clause is the identity of a
 * fixed template plus its placeholder count.
 *
 * The executor consumes parameters strictly left to right, one per
 * placeholder in text order. `Bind` is that consumption; the lemmas below show
 * that a list of well-formed fragments, flattened into parallel clause and
 * parameter lists, binds back to each fragment's own parameters, and that
 * concatenating two aligned pairs stays aligned.
 */
module Sql {
  import opened Wrappers

  /** A bound parameter: an integer, a text, or a text list (a PostgreSQL array). */
  datatype Param = IntParam(n: int) | TextParam(s: string) | TextListParam(items: seq<string>)

  /** The two code tables the condition resolver searches. */
  datatype CodeTable = Cid10Table | CiapTable

  datatype Clause =
    // patient predicates (filters.py)
    | PatientIdEquals        // co_seq_cidadao = %s
    | NameStartsWith         // no_cidadao ILIKE %s
    | SexEquals              // no_sexo = %s
    | AgeAtLeast             // age expression >= %s
    | AgeAtMost              // age expression <= %s
    | FacilityMembership     // EXISTS (encounter at %s) OR EXISTS (registry link to %s)
    // condition predicates (filters.py)
    | CidMatchesAny          // cid.nu_cid10 ILIKE ANY(%s)
    | CidExists              // EXISTS (problem whose CID-10 code ILIKE %s)
    | CiapMatchesAny         // ciap.co_ciap ILIKE ANY(%s)
    | TextMentions           // four ILIKE %s over descriptions and notes
    | AllOf(parts: seq<Clause>)              // parts joined with AND into one clause
    | EitherOf(left: Clause, right: Clause)  // (left OR right)
    // code-table search (condition resolver)
    | FilterColumnLike(table: CodeTable)     // normalised description ILIKE %s
    | NameColumnLike(table: CodeTable)       // description ILIKE %s
    | CodeColumnLike(table: CodeTable)       // code ILIKE %s
    // patients without a recent visit (sem_consulta.py)
    | ProblemCodesAny        // CID-10 ILIKE ANY(%s) OR CIAP ILIKE ANY(%s)
    | OpenPrenatal           // open prenatal record, no placeholder
    | LastVisitAtFacility    // a.co_unidade_saude = %s
    | LastVisitBefore        // last visit older than INTERVAL %s
    // analytics.py and atendimentos.py
    | LocalityEquals         // co_localidade_endereco = %s
    | PregnancyOngoing       // prenatal record without an outcome date, no placeholder
    | LastAttendanceBefore   // last attendance older than INTERVAL %s
    | CidCodeLike            // cid.nu_cid10 LIKE %s
    | RecordPatientEquals    // pr.co_cidadao = %s
    // template slots
    | Limit                  // LIMIT %s
    | Offset                 // OFFSET %s

  /** The number of `%s` placeholders in a clause's text. */
  function Holes(c: Clause): nat {
    match c
    case FacilityMembership => 2
    case TextMentions => 4
    case ProblemCodesAny => 2
    case OpenPrenatal => 0
    case PregnancyOngoing => 0
    case AllOf(parts) => HolesAll(parts)
    case EitherOf(l, r) => Holes(l) + Holes(r)
    case _ => 1
  }

  /** The placeholders of a list of clauses, in text order. */
  function HolesAll(cs: seq<Clause>): nat {
    if cs == [] then 0 else Holes(cs[0]) + HolesAll(cs[1..])
  }

  /** Clauses in text order and the parameters bound to their placeholders. */
  datatype Query = Query(clauses: seq<Clause>, params: seq<Param>)

  /** One placeholder per parameter: what the executor needs to bind every value. */
  predicate Aligned(q: Query) {
    HolesAll(q.clauses) == |q.params|
  }

  /** Two clause lists and their parameter lists, each concatenated in order. */
  function Join(a: Query, b: Query): Query {
    Query(a.clauses + b.clauses, a.params + b.params)
  }

  /** A clause together with the parameters for its own placeholders. */
  datatype Fragment = Fragment(clause: Clause, params: seq<Param>)

  predicate WellFormed(f: Fragment) {
    |f.params| == Holes(f.clause)
  }

  predicate AllWellFormed(fs: seq<Fragment>) {
    forall k | 0 <= k < |fs| :: WellFormed(fs[k])
  }

  /** The parallel lists a builder returns: every clause, then every parameter, in fragment order. */
  function Flatten(fs: seq<Fragment>): Query {
    if fs == [] then Query([], [])
    else Join(Query([fs[0].clause], fs[0].params), Flatten(fs[1..]))
  }

  function ParamLists(fs: seq<Fragment>): (r: seq<seq<Param>>)
    ensures |r| == |fs| && forall k | 0 <= k < |fs| :: r[k] == fs[k].params
  {
    seq(|fs|, k requires 0 <= k < |fs| => fs[k].params)
  }

  /**
   * How the executor pairs placeholders with parameters: each clause, left to
   * right, takes as many parameters as it has placeholders. `None` when the
   * counts do not match.
   */
  function Bind(cs: seq<Clause>, ps: seq<Param>): Option<seq<seq<Param>>> {
    if cs == [] then (if ps == [] then Some([]) else None)
    else if |ps| < Holes(cs[0]) then None
    else match Bind(cs[1..], ps[Holes(cs[0])..])
      case None => None
      case Some(rest) => Some([ps[..Holes(cs[0])]] + rest)
  }

  lemma {:induction false} HolesAllAppend(a: seq<Clause>, b: seq<Clause>)
    ensures HolesAll(a + b) == HolesAll(a) + HolesAll(b)
  {
    if a != [] {
      assert (a + b)[1..] == a[1..] + b;
      HolesAllAppend(a[1..], b);
    } else {
      assert a + b == b;
    }
  }

  /** Flattening distributes over concatenation of fragment lists. */
  lemma {:induction false} FlattenAppend(a: seq<Fragment>, b: seq<Fragment>)
    ensures Flatten(a + b) == Join(Flatten(a), Flatten(b))
  {
    if a != [] {
      assert (a + b)[1..] == a[1..] + b;
      FlattenAppend(a[1..], b);
    } else {
      assert a + b == b;
    }
  }

  /** Appending one fragment appends its clause and its parameters. */
  lemma FlattenSnoc(fs: seq<Fragment>, f: Fragment)
    ensures Flatten(fs + [f]) == Query(Flatten(fs).clauses + [f.clause], Flatten(fs).params + f.params)
  {
    FlattenAppend(fs, [f]);
    assert Flatten([f]) == Query([f.clause] + [], f.params + []);
    assert [f.clause] + [] == [f.clause] && f.params + [] == f.params;
  }

  /** The clause list of flattened fragments is their clauses, one each. */
  lemma {:induction false} FlattenClauses(fs: seq<Fragment>)
    ensures |Flatten(fs).clauses| == |fs|
    ensures forall k | 0 <= k < |fs| :: Flatten(fs).clauses[k] == fs[k].clause
  {
    if fs != [] {
      FlattenClauses(fs[1..]);
    }
  }

  /** The flattened lists of well-formed fragments have one placeholder per parameter. */
  lemma {:induction false} FlattenAligned(fs: seq<Fragment>)
    requires AllWellFormed(fs)
    ensures Aligned(Flatten(fs))
  {
    if fs != [] {
      FlattenAligned(fs[1..]);
    }
  }

  /**
   * Round trip: binding the flattened lists gives back each fragment's own
   * parameters, so concatenating clause and parameter lists in the same order
   * keeps every value at its placeholder.
   */
  lemma {:induction false} BindFlatten(fs: seq<Fragment>)
    requires AllWellFormed(fs)
    ensures Bind(Flatten(fs).clauses, Flatten(fs).params) == Some(ParamLists(fs))
  {
    if fs != [] {
      var q := Flatten(fs);
      var h := Holes(fs[0].clause);
      assert q.clauses[0] == fs[0].clause && q.clauses[1..] == Flatten(fs[1..]).clauses;
      assert q.params[..h] == fs[0].params && q.params[h..] == Flatten(fs[1..]).params;
      BindFlatten(fs[1..]);
      assert ParamLists(fs) == [fs[0].params] + ParamLists(fs[1..]);
    }
  }

  /** Binding succeeds exactly when the placeholder count equals the parameter count. */
  lemma {:induction false} BindIffAligned(q: Query)
    ensures Bind(q.clauses, q.params).Some? <==> Aligned(q)
    decreases |q.clauses|
  {
    if q.clauses != [] {
      var h := Holes(q.clauses[0]);
      if |q.params| >= h {
        BindIffAligned(Query(q.clauses[1..], q.params[h..]));
      }
    }
  }

  /** One step of `Bind`: the first clause takes its parameters, the rest bind the remainder. */
  lemma BindStep(cs: seq<Clause>, ps: seq<Param>, rest: seq<seq<Param>>)
    requires cs != [] && Holes(cs[0]) <= |ps|
    requires Bind(cs[1..], ps[Holes(cs[0])..]) == Some(rest)
    ensures Bind(cs, ps) == Some([ps[..Holes(cs[0])]] + rest)
  {
  }

  /** The inverse of one step of `Bind`: what the first clause took and what the rest bound. */
  lemma BindUncons(cs: seq<Clause>, ps: seq<Param>, v: seq<seq<Param>>) returns (rest: seq<seq<Param>>)
    requires cs != [] && Bind(cs, ps) == Some(v)
    ensures Holes(cs[0]) <= |ps| && Bind(cs[1..], ps[Holes(cs[0])..]) == Some(rest)
    ensures v == [ps[..Holes(cs[0])]] + rest
  {
    rest := Bind(cs[1..], ps[Holes(cs[0])..]).value;
  }

  /** Slicing a concatenation past its first clause and that clause's parameters. */
  lemma ConcatTails(ca: seq<Clause>, pa: seq<Param>, cb: seq<Clause>, pb: seq<Param>, h: nat)
    requires ca != [] && h <= |pa|
    ensures (ca + cb)[0] == ca[0] && (ca + cb)[1..] == ca[1..] + cb
    ensures (pa + pb)[..h] == pa[..h] && (pa + pb)[h..] == pa[h..] + pb
  {
  }

  /** Binding distributes over concatenation of clause lists and parameter lists. */
  lemma {:induction false} BindConcat(ca: seq<Clause>, pa: seq<Param>, cb: seq<Clause>, pb: seq<Param>,
                                      va: seq<seq<Param>>, vb: seq<seq<Param>>)
    requires Bind(ca, pa) == Some(va) && Bind(cb, pb) == Some(vb)
    ensures Bind(ca + cb, pa + pb) == Some(va + vb)
    decreases |ca|
  {
    if ca == [] {
      assert ca + cb == cb && pa + pb == pb && va + vb == vb;
    } else {
      var h := Holes(ca[0]);
      var rest := BindUncons(ca, pa, va);
      BindConcat(ca[1..], pa[h..], cb, pb, rest, vb);
      ConcatTails(ca, pa, cb, pb, h);
      BindStep(ca + cb, pa + pb, rest + vb);
      assert [pa[..h]] + (rest + vb) == va + vb;
    }
  }

  /**
   * Concatenating two aligned pairs stays aligned, and every clause of either
   * side keeps exactly the parameters it had.
   */
  lemma BindJoin(a: Query, b: Query)
    requires Aligned(a) && Aligned(b)
    ensures Aligned(Join(a, b))
    ensures Bind(a.clauses, a.params).Some? && Bind(b.clauses, b.params).Some?
    ensures Bind(Join(a, b).clauses, Join(a, b).params)
         == Some(Bind(a.clauses, a.params).value + Bind(b.clauses, b.params).value)
  {
    HolesAllAppend(a.clauses, b.clauses);
    BindIffAligned(a);
    BindIffAligned(b);
    BindConcat(a.clauses, a.params, b.clauses, b.params,
               Bind(a.clauses, a.params).value, Bind(b.clauses, b.params).value);
  }

  /** A single clause binds all of its parameters. */
  lemma BindOne(c: Clause, ps: seq<Param>)
    requires |ps| == Holes(c)
    ensures Bind([c], ps) == Some([ps])
  {
    var none: seq<seq<Param>> := [];
    assert [c][1..] == [] && ps[Holes(c)..] == [] && ps[..Holes(c)] == ps;
    assert Bind([c][1..], ps[Holes(c)..]) == Some(none);
    BindStep([c], ps, none);
    assert [ps] + none == [ps];
  }

  /** A statement followed by `LIMIT %s`. */
  function Limited(q: Query, limit: int): Query {
    Join(q, Query([Limit], [IntParam(limit)]))
  }

  /** The limit is the last parameter and binds to `LIMIT`'s own placeholder; alignment is kept. */
  lemma LimitedShape(q: Query, limit: int)
    requires Aligned(q)
    ensures Aligned(Limited(q, limit))
    ensures Limited(q, limit).clauses == q.clauses + [Limit]
    ensures Limited(q, limit).params == q.params + [IntParam(limit)]
    ensures Bind(q.clauses, q.params).Some?
    ensures Bind(Limited(q, limit).clauses, Limited(q, limit).params)
         == Some(Bind(q.clauses, q.params).value + [[IntParam(limit)]])
  {
    var tail := Query([Limit], [IntParam(limit)]);
    assert HolesAll(tail.clauses) == 1;
    BindOne(Limit, [IntParam(limit)]);
    BindJoin(q, tail);
  }
}
