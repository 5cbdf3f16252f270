/**
 * The petition record as it arrives from the spreadsheet, and the ways the
 * components read its four count fields as numbers.
 */
module Petitions {

  /** A raw count field: a numeric value, an empty or missing value, or text that is not a number. */
  datatype RawCount = Number(n: int) | Blank | NotANumber

  /**
   * One spreadsheet row. Latitude and longitude are reduced to whether both
   * parse to a truthy number; a missing string field is read as "".
   */
  datatype Row = Row(
    industryCode: string,
    employerName: string,
    petitionerCity: string,
    petitionerState: string,
    hasCoordinates: bool,
    initialApproval: RawCount,
    initialDenial: RawCount,
    continuingApproval: RawCount,
    continuingDenial: RawCount)

  /** The four summed fields of an aggregate. */
  datatype Counts = Counts(initialApproval: int, initialDenial: int, continuingApproval: int, continuingDenial: int)
  {
    /** All four fields: the "total petitions" of every view. */
    function Total(): int {
      initialApproval + initialDenial + continuingApproval + continuingDenial
    }

    /** Initial approvals plus initial denials: the ranking weight of the drill-down map. */
    function Initial(): int {
      initialApproval + initialDenial
    }

    function Plus(other: Counts): Counts {
      Counts(initialApproval + other.initialApproval, initialDenial + other.initialDenial,
             continuingApproval + other.continuingApproval, continuingDenial + other.continuingDenial)
    }
  }

  const NoCounts := Counts(0, 0, 0, 0)

  /**
   * `+x || 0`: a numeric value is kept, anything else (empty, missing, not a
   * number, which all coerce to 0 or NaN) becomes 0. `d3.sum`, which skips NaN,
   * and `parseInt(x || 0)` on a parsable field read a count the same way.
   */
  function Coerce(c: RawCount): (r: int)
    ensures !c.Number? ==> r == 0
  {
    if c.Number? then c.n else 0
  }

  /** `parseInt` yields a number for this field (it does not for text that is not a number). */
  predicate Parsable(c: RawCount) {
    !c.NotANumber?
  }

  /** Every field that `parseInt` reads in the city-level drill-down parses. */
  predicate InitialParsable(r: Row) {
    Parsable(r.initialApproval) && Parsable(r.initialDenial)
  }

  /** Every count field of the row parses. */
  predicate AllParsable(r: Row) {
    InitialParsable(r) && Parsable(r.continuingApproval) && Parsable(r.continuingDenial)
  }

  /** Every count field holds a number, so that JavaScript `+` adds rather than concatenates. */
  predicate AllNumbers(r: Row) {
    r.initialApproval.Number? && r.initialDenial.Number? &&
    r.continuingApproval.Number? && r.continuingDenial.Number?
  }

  function InitialApprovalOf(r: Row): int { Coerce(r.initialApproval) }
  function InitialDenialOf(r: Row): int { Coerce(r.initialDenial) }
  function ContinuingApprovalOf(r: Row): int { Coerce(r.continuingApproval) }
  function ContinuingDenialOf(r: Row): int { Coerce(r.continuingDenial) }

  /** The four coerced counts of one row. */
  function CountsOf(r: Row): Counts {
    Counts(InitialApprovalOf(r), InitialDenialOf(r), ContinuingApprovalOf(r), ContinuingDenialOf(r))
  }

  /** The row's weight in the city ranking: initial approvals plus initial denials. */
  function InitialOf(r: Row): int { CountsOf(r).Initial() }

  /** The row's total petitions: all four coerced counts. */
  function TotalOf(r: Row): int { CountsOf(r).Total() }

  /** No count field of the row is negative. */
  predicate NonNegative(r: Row) {
    InitialApprovalOf(r) >= 0 && InitialDenialOf(r) >= 0 &&
    ContinuingApprovalOf(r) >= 0 && ContinuingDenialOf(r) >= 0
  }
}
