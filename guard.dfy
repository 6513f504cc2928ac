/**
 * What the tools raise (`ValueError` with a fixed message, or the `TypeError`
 * of a call with a keyword the callee does not accept), and the two small
 * numeric guards every tool shares: the limit clamp and the count default.
 */
module Guard {
  import opened Wrappers

  datatype Error =
    // patient filters
    | AgeMinAboveMax
    | InvalidSex
    | NonPositiveFacility
    // condition filters
    | InvalidCidLogic
    | CidAndNotSupported
    | ConditionTextTooLong
    // the tools' empty-criteria guard
    | NoCriteria
    // condition-code resolver
    | ConditionRequired
    | ConditionTooLong
    | ConditionInvalid
    // patients without a recent visit
    | TipoRequired
    | TipoInvalid
    | NonPositiveDays
    // analytics
    | UnsupportedEpidemiologyType
    | UnsupportedPersonalType
    // SOAP attendances
    | PatientIdRequired
    | NonPositivePatientId
    // a call passing a keyword argument the callee does not declare
    | UnexpectedKeyword(name: string)

  type Checked<T> = Result<T, Error>

  function Min(a: int, b: int): int { if a <= b then a else b }
  function Max(a: int, b: int): int { if a >= b then a else b }

  /** `max(1, min(limit, cap))`: the limit every tool sends to the database. */
  function Clamp(limit: int, cap: int): (r: int)
    requires cap >= 1
    ensures 1 <= r <= cap
    ensures 1 <= limit <= cap ==> r == limit
    ensures limit > cap ==> r == cap
    ensures limit < 1 ==> r == 1
  {
    Max(1, Min(limit, cap))
  }

  /** Clamping twice is clamping once, and a larger request never yields a smaller limit. */
  lemma ClampStable(limit: int, other: int, cap: int)
    requires cap >= 1
    ensures Clamp(Clamp(limit, cap), cap) == Clamp(limit, cap)
    ensures limit <= other ==> Clamp(limit, cap) <= Clamp(other, cap)
  {
  }

  /**
   * `int(row["total"]) if row and row.get("total") is not None else 0`:
   * `None` is a missing row, `Some(None)` a row whose total is null.
   */
  function CountTotal(row: Option<Option<int>>): (n: int)
    ensures row.None? || row.value.None? ==> n == 0
    ensures row.Some? && row.value.Some? ==> n == row.value.value
  {
    match row
    case None => 0
    case Some(total) => if total.Some? then total.value else 0
  }
}
