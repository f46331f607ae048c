/** The compound-interest projection: an initial investment plus a fixed
    monthly contribution, compounded monthly at a twelfth of the annual
    percentage rate, over a horizon given in (possibly fractional) years. */
module CompoundProjection {
  import Compounding

  datatype Projection = Projection(total: real, totalContributed: real, interest: real)

  /** How many times the monthly loop runs for a horizon of `years`: the
      number of whole i with 1 <= i <= 12 * years, that is the whole part of
      12 * years, or none when the horizon is shorter than a month. */
  function MonthsIn(years: real): (n: nat)
    ensures n == 0 || (n as real) <= 12.0 * years
    ensures 12.0 * years < (n as real) + 1.0
  {
    if 12.0 * years < 1.0 then 0 else (12.0 * years).Floor as nat
  }

  /** The monthly rate that an annual percentage rate gives. */
  function MonthlyRate(annualRatePercent: real): (r: real)
    ensures r * 1200.0 == annualRatePercent
  {
    (annualRatePercent / 100.0) / 12.0
  }

  /** The loop of the projection, run forward: `remaining` more months, each
      growing the total and adding the contribution to both sums. It ends
      where the month-by-month balance of the start after that many months
      is, having counted every contribution. */
  function Run(total: real, contributed: real, monthlyRate: real, monthly: real, remaining: nat): (r: (real, real))
    ensures r.0 == Compounding.After(total, monthlyRate, monthly, remaining)
    ensures r.1 == contributed + (remaining as real) * monthly
    decreases remaining
  {
    if remaining == 0 then (total, contributed)
    else
      Compounding.AfterShift(total, monthlyRate, monthly, remaining - 1);
      Run(Compounding.Grow(total, monthlyRate, monthly), contributed + monthly, monthlyRate, monthly, remaining - 1)
  }

  /** The projection. The interest is what the total holds beyond the
      contributions; the contributions are the initial amount plus one
      monthly amount per month run; and a horizon shorter than a month leaves
      the initial amount untouched. */
  function Project(initial: real, monthly: real, annualRatePercent: real, years: real): (p: Projection)
    ensures p.total == p.totalContributed + p.interest
    ensures p.totalContributed == initial + (MonthsIn(years) as real) * monthly
    ensures p.total == Compounding.After(initial, MonthlyRate(annualRatePercent), monthly, MonthsIn(years))
    ensures 12.0 * years < 1.0 ==> p.total == initial && p.totalContributed == initial && p.interest == 0.0
  {
    var sums := Run(initial, initial, MonthlyRate(annualRatePercent), monthly, MonthsIn(years));
    Projection(sums.0, sums.1, sums.0 - sums.1)
  }

  /** For a horizon of whole months the contributions are exactly the
      initial amount plus 12 * years monthly amounts. */
  lemma ContributionsOverWholeMonths(initial: real, monthly: real, annualRatePercent: real, years: real)
    requires 12.0 * years >= 0.0
    requires (12.0 * years).Floor as real == 12.0 * years
    ensures Project(initial, monthly, annualRatePercent, years).totalContributed == initial + 12.0 * years * monthly
  {
  }

  /** The projected total in closed form: the initial amount compounded over
      the months run plus an annuity of the monthly contributions, with the
      monthly growth factor 1 + rate / 1200. */
  lemma ProjectionClosedForm(initial: real, monthly: real, annualRatePercent: real, years: real)
    ensures var g := 1.0 + MonthlyRate(annualRatePercent);
            var n := MonthsIn(years);
            Project(initial, monthly, annualRatePercent, years).total
              == initial * Compounding.Pow(g, n) + monthly * Compounding.Annuity(g, n)
  {
    Compounding.AfterClosedForm(initial, MonthlyRate(annualRatePercent), monthly, MonthsIn(years));
  }

  /** With nothing negative going in, the projection never shows negative
      interest. */
  lemma InterestNeverNegative(initial: real, monthly: real, annualRatePercent: real, years: real)
    requires initial >= 0.0 && monthly >= 0.0 && annualRatePercent >= 0.0
    ensures Project(initial, monthly, annualRatePercent, years).interest >= 0.0
  {
    Compounding.AfterAtLeastContributions(initial, MonthlyRate(annualRatePercent), monthly, MonthsIn(years));
  }

  /** At a zero rate the total is exactly what was contributed. */
  lemma ZeroRateEarnsNothing(initial: real, monthly: real, years: real)
    ensures Project(initial, monthly, 0.0, years).interest == 0.0
    ensures Project(initial, monthly, 0.0, years).total == Project(initial, monthly, 0.0, years).totalContributed
  {
    Compounding.AfterAtZeroRate(initial, monthly, MonthsIn(years));
  }

  /** A larger initial amount or a larger monthly contribution never gives a
      smaller total, for any rate above -100% a year. */
  lemma TotalMonotone(i1: real, i2: real, m1: real, m2: real, annualRatePercent: real, years: real)
    requires i1 <= i2 && m1 <= m2
    requires annualRatePercent >= -1200.0
    ensures Project(i1, m1, annualRatePercent, years).total <= Project(i2, m2, annualRatePercent, years).total
  {
    var rate := MonthlyRate(annualRatePercent);
    var n := MonthsIn(years);
    Compounding.AfterMonotoneInStart(i1, i2, rate, m1, n);
    Compounding.AfterMonotoneInDeposit(i2, rate, m1, m2, n);
  }
}
