/** The retirement simulator: savings that earn a real monthly return and
    pay, every month, the gap between the spending and the public pension,
    until they run out or 50 years have passed. */
module Pension {
  import Compounding

  /** `realMonthlyReturn` is the monthly return net of inflation that the
      annual figures convert to; the conversion (a twelfth root) is not part
      of this model. */
  datatype PensionInput = PensionInput(
    savings: real,
    monthlySpend: real,
    pension: real,
    realMonthlyReturn: real)

  /** How long the savings last, as the simulator reports it: forever when
      the pension covers the spending, more than 50 years, or a number of
      years rounded to tenths (`Lasts(t)` means t / 10 years). */
  datatype Longevity = Forever | OverFifty | Lasts(tenths: nat)

  datatype PensionResult = PensionResult(longevity: Longevity, sustainable: bool)

  /** The drawdown stops after this many months (50 years). */
  const Cap: nat := 600

  /** A plan is called sustainable when it lasts at least this many months
      (30 years). */
  const SustainableMonths: nat := 360

  /** The monthly amount the savings have to pay. */
  function Gap(input: PensionInput): real
  {
    input.monthlySpend - input.pension
  }

  /** m months as years rounded to one decimal, counted in tenths: the
      nearest tenth to m / 12, the larger one on a tie. */
  function YearsTenths(m: nat): (t: nat)
    ensures 6 * t - 3 <= 5 * m < 6 * t + 3
  {
    (5 * m + 3) / 6
  }

  /** The balance after k months of paying `gap` out of `start`. */
  function Remaining(start: real, rate: real, gap: real, k: nat): real
  {
    Compounding.After(start, rate, -gap, k)
  }

  /** Each month of the drawdown grows the balance and then withdraws the
      gap; after k months what is left is the start compounded for k months
      less the gaps compounded as an annuity. */
  lemma RemainingClosedForm(start: real, rate: real, gap: real, k: nat)
    ensures Remaining(start, rate, gap, k + 1) == Remaining(start, rate, gap, k) * (1.0 + rate) - gap
    ensures Remaining(start, rate, gap, k)
         == start * Compounding.Pow(1.0 + rate, k) - gap * Compounding.Annuity(1.0 + rate, k)
  {
    Compounding.AfterClosedForm(start, rate, -gap, k);
    var a := Compounding.Annuity(1.0 + rate, k);
    assert (-gap) * a == -(gap * a);
  }

  /** The drawdown loop from month `months`, whose balance is `balance`: it
      stops at the first month whose balance is no longer positive, or at
      the cap. */
  function Deplete(start: real, rate: real, gap: real, months: nat, balance: real): (m: nat)
    requires months <= Cap
    requires balance == Remaining(start, rate, gap, months)
    ensures months <= m <= Cap
    ensures forall k :: months <= k < m ==> Remaining(start, rate, gap, k) > 0.0
    ensures m < Cap ==> Remaining(start, rate, gap, m) <= 0.0
    decreases Cap - months
  {
    if balance <= 0.0 || months == Cap then months
    else Deplete(start, rate, gap, months + 1, Compounding.Grow(balance, rate, -gap))
  }

  /** The number of months the drawdown loop runs: the first month at which
      the savings are exhausted, or the cap. */
  function DepletionMonths(input: PensionInput): (m: nat)
    ensures m <= Cap
    ensures forall k :: 0 <= k < m ==>
      Remaining(input.savings, input.realMonthlyReturn, Gap(input), k) > 0.0
    ensures m < Cap ==> Remaining(input.savings, input.realMonthlyReturn, Gap(input), m) <= 0.0
    ensures m == 0 <==> input.savings <= 0.0
  {
    Deplete(input.savings, input.realMonthlyReturn, Gap(input), 0, input.savings)
  }

  /** Within the cap, the rounded years reach 50 only at the cap itself. */
  lemma FiftyYearsOnlyAtCap(m: nat)
    requires m <= Cap
    ensures YearsTenths(m) >= 500 <==> m == Cap
  {
  }

  /** The simulator. A pension that covers the spending lasts forever and is
      sustainable. Otherwise the savings last the months of the drawdown
      loop: reported as over 50 years exactly when the loop reaches its cap,
      as the rounded years before that, and sustainable exactly from 30
      years on. Savings that are already exhausted last no time at all. */
  function Solve(input: PensionInput): (r: PensionResult)
    ensures input.pension >= input.monthlySpend ==> r == PensionResult(Forever, true)
    ensures input.pension < input.monthlySpend ==>
      (r.sustainable <==> DepletionMonths(input) >= SustainableMonths)
    ensures input.pension < input.monthlySpend ==>
      (r.longevity == OverFifty <==> DepletionMonths(input) == Cap)
    ensures input.pension < input.monthlySpend && DepletionMonths(input) < Cap ==>
      r.longevity == Lasts(YearsTenths(DepletionMonths(input)))
    ensures input.pension < input.monthlySpend && input.savings <= 0.0 ==>
      r == PensionResult(Lasts(0), false)
  {
    if input.pension >= input.monthlySpend then PensionResult(Forever, true)
    else
      var months := DepletionMonths(input);
      FiftyYearsOnlyAtCap(months);
      var tenths := YearsTenths(months);
      PensionResult(if tenths >= 500 then OverFifty else Lasts(tenths), months >= SustainableMonths)
  }

  /** More savings never run out sooner, as long as a month cannot lose more
      than the whole balance. */
  lemma MoreSavingsLastLonger(input: PensionInput, more: real)
    requires input.realMonthlyReturn >= -1.0
    requires input.savings <= more
    ensures DepletionMonths(input) <= DepletionMonths(input.(savings := more))
  {
    var richer := input.(savings := more);
    var m := DepletionMonths(richer);
    Compounding.AfterMonotoneInStart(input.savings, more, input.realMonthlyReturn, -Gap(input), m);
    assert Remaining(input.savings, input.realMonthlyReturn, Gap(input), m)
        <= Remaining(more, input.realMonthlyReturn, Gap(richer), m);
  }

  /** A larger pension never makes the savings run out sooner. */
  lemma HigherPensionLastsLonger(input: PensionInput, higher: real)
    requires input.realMonthlyReturn >= -1.0
    requires input.pension <= higher
    ensures DepletionMonths(input) <= DepletionMonths(input.(pension := higher))
  {
    var better := input.(pension := higher);
    var m := DepletionMonths(better);
    Compounding.AfterMonotoneInDeposit(input.savings, input.realMonthlyReturn, -Gap(input), -Gap(better), m);
    assert Remaining(input.savings, input.realMonthlyReturn, Gap(input), m)
        <= Remaining(input.savings, input.realMonthlyReturn, Gap(better), m);
  }

  /** So a plan that is sustainable stays sustainable with more savings. */
  lemma MoreSavingsKeepSustainable(input: PensionInput, more: real)
    requires input.realMonthlyReturn >= -1.0
    requires input.savings <= more
    requires Solve(input).sustainable
    ensures Solve(input.(savings := more)).sustainable
  {
    MoreSavingsLastLonger(input, more);
  }

  /** With no real return, in every month before the savings run out the
      gaps paid so far are less than the savings. */
  lemma ZeroReturnGapsFallShortBeforeDepletion(input: PensionInput, k: nat)
    requires input.realMonthlyReturn == 0.0
    requires k < DepletionMonths(input)
    ensures (k as real) * Gap(input) < input.savings
  {
    PaidBeforeDepletion(input.savings, input.realMonthlyReturn, Gap(input), k);
  }

  /** With no real return, savings that run out within 50 years run out in
      a month by which the gaps paid cover them. */
  lemma ZeroReturnExhaustedOnceGapsCover(input: PensionInput)
    requires input.realMonthlyReturn == 0.0
    requires DepletionMonths(input) < Cap
    ensures (DepletionMonths(input) as real) * Gap(input) >= input.savings
  {
    PaidAtDepletion(input.savings, input.realMonthlyReturn, Gap(input), DepletionMonths(input));
  }

  /** At no return, a balance still positive after k months means the k
      gaps paid are less than the start. */
  lemma PaidBeforeDepletion(start: real, rate: real, gap: real, k: nat)
    requires rate == 0.0
    requires Remaining(start, rate, gap, k) > 0.0
    ensures (k as real) * gap < start
  {
    PaidAtZeroReturn(start, gap, k);
  }

  /** At no return, a balance exhausted after k months means the k gaps paid
      cover the start. */
  lemma PaidAtDepletion(start: real, rate: real, gap: real, k: nat)
    requires rate == 0.0
    requires Remaining(start, rate, gap, k) <= 0.0
    ensures (k as real) * gap >= start
  {
    PaidAtZeroReturn(start, gap, k);
  }

  /** At no return, k months of paying `gap` leave the start less k gaps. */
  lemma PaidAtZeroReturn(start: real, gap: real, k: nat)
    ensures Remaining(start, 0.0, gap, k) == start - (k as real) * gap
  {
    Compounding.AfterAtZeroRate(start, -gap, k);
    var n := k as real;
    assert n * (-gap) == -(n * gap);
  }
}
