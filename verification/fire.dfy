/** The financial-independence (FIRE) calculator: the capital whose yearly
    withdrawal at the chosen rate covers the yearly spending, and the number
    of months of saving, compounded at a real monthly return, until the
    savings first reach it. The search gives up after 100 years. */
module Fire {
  import Compounding

  /** `monthlyRate` is the real monthly return the annual return converts
      to; the conversion (a twelfth root) is not part of this model. */
  datatype FireInput = FireInput(
    annualSpend: real,
    currentSavings: real,
    monthlySavings: real,
    monthlyRate: real,
    withdrawalRate: real)

  /** `Never` is the source's 999-years answer: nothing is saved and the
      target is not met. `Within(m)` is an answer of m months, 0 included. */
  datatype FireYears = Never | Within(months: nat)

  datatype FireResult = FireResult(fireNumber: real, years: FireYears)

  /** The search stops after this many months. */
  const Cap: nat := 1200

  /** The capital whose withdrawal at `withdrawalRate` percent a year pays
      the annual spending. */
  function FireNumber(annualSpend: real, withdrawalRate: real): (f: real)
    requires withdrawalRate != 0.0
    ensures f * (withdrawalRate / 100.0) == annualSpend
  {
    annualSpend / (withdrawalRate / 100.0)
  }

  /** The search loop from month `months`, whose balance is `balance`: it
      stops at the first month whose balance reaches the target, or at the
      cap. */
  function Search(start: real, target: real, rate: real, savings: real, months: nat, balance: real): (m: nat)
    requires months <= Cap
    requires balance == Compounding.After(start, rate, savings, months)
    ensures months <= m <= Cap
    ensures forall k :: months <= k < m ==> Compounding.After(start, rate, savings, k) < target
    ensures m < Cap ==> Compounding.After(start, rate, savings, m) >= target
    decreases Cap - months
  {
    if balance >= target || months == Cap then months
    else Search(start, target, rate, savings, months + 1, Compounding.Grow(balance, rate, savings))
  }

  /** The calculator. Without savings and short of the target the answer is
      `Never`; at or above the target it is 0 months; otherwise it is the
      first month whose balance reaches the target, or the cap if none
      before it does. */
  function Solve(input: FireInput): (r: FireResult)
    requires input.withdrawalRate != 0.0
    ensures r.fireNumber == FireNumber(input.annualSpend, input.withdrawalRate)
    ensures r.years == Never <==> input.monthlySavings <= 0.0 && input.currentSavings < r.fireNumber
    ensures input.currentSavings >= r.fireNumber ==> r.years == Within(0)
    ensures r.years.Within? ==> r.years.months <= Cap
    ensures r.years.Within? ==>
      forall k :: 0 <= k < r.years.months ==>
        Compounding.After(input.currentSavings, input.monthlyRate, input.monthlySavings, k) < r.fireNumber
    ensures r.years.Within? && r.years.months < Cap ==>
      Compounding.After(input.currentSavings, input.monthlyRate, input.monthlySavings, r.years.months) >= r.fireNumber
  {
    var target := FireNumber(input.annualSpend, input.withdrawalRate);
    if input.monthlySavings <= 0.0 && input.currentSavings < target then FireResult(target, Never)
    else if input.currentSavings >= target then FireResult(target, Within(0))
    else
      var m := Search(input.currentSavings, target, input.monthlyRate, input.monthlySavings, 0, input.currentSavings);
      FireResult(target, Within(m))
  }

  /** With a non-negative return and non-negative savings, the target is met
      no later than the month by which the contributions alone would reach
      it. */
  lemma ReachedByContributions(input: FireInput, n: nat)
    requires input.withdrawalRate != 0.0
    requires input.currentSavings >= 0.0 && input.monthlySavings > 0.0 && input.monthlyRate >= 0.0
    requires n < Cap
    requires input.currentSavings + (n as real) * input.monthlySavings >= FireNumber(input.annualSpend, input.withdrawalRate)
    ensures Solve(input).years.Within? && Solve(input).years.months <= n
  {
    Compounding.AfterAtLeastContributions(input.currentSavings, input.monthlyRate, input.monthlySavings, n);
  }

  /** Saving more each month never delays the answer, as long as a month
      cannot lose more than the whole balance. */
  lemma MoreSavingsNeverDelays(input: FireInput, more: real)
    requires input.withdrawalRate != 0.0
    requires input.monthlyRate >= -1.0
    requires input.monthlySavings <= more
    requires Solve(input).years.Within?
    ensures Solve(input.(monthlySavings := more)).years.Within?
    ensures Solve(input.(monthlySavings := more)).years.months <= Solve(input).years.months
  {
    var m := Solve(input).years.months;
    Compounding.AfterMonotoneInDeposit(input.currentSavings, input.monthlyRate, input.monthlySavings, more, m);
  }

  /** A larger starting capital never delays the answer either. */
  lemma MoreCapitalNeverDelays(input: FireInput, more: real)
    requires input.withdrawalRate != 0.0
    requires input.monthlyRate >= -1.0
    requires input.currentSavings <= more
    requires Solve(input).years.Within?
    ensures Solve(input.(currentSavings := more)).years.Within?
    ensures Solve(input.(currentSavings := more)).years.months <= Solve(input).years.months
  {
    var m := Solve(input).years.months;
    Compounding.AfterMonotoneInStart(input.currentSavings, more, input.monthlyRate, input.monthlySavings, m);
  }
}
