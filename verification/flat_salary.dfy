/** The older net-salary calculator: one flat tax rate applied to the gross
    salary less the deductions the user enters. */
module FlatSalary {
  import NetSalary

  datatype FlatResult = FlatResult(netAnnual: real, netMonthly: real, taxAmount: real)

  /** What the flat rate applies to: the gross salary less the deductions,
      never below zero. */
  function Taxable(grossSalary: real, deductions: real): (t: real)
    ensures t >= 0.0
    ensures t >= grossSalary - deductions
    ensures t == 0.0 || t == grossSalary - deductions
  {
    if grossSalary - deductions >= 0.0 then grossSalary - deductions else 0.0
  }

  /** The part of `base` that a percentage `rate` takes: a hundredth of the
      base for every point of the rate, and between nothing and the whole
      base when the rate is a percentage. */
  function Share(base: real, rate: real): (s: real)
    ensures s * 100.0 == base * rate
    ensures 0.0 <= base && 0.0 <= rate <= 100.0 ==> 0.0 <= s <= base
  {
    var f := rate / 100.0;
    ShareOfFraction(base, f);
    base * f
  }

  /** The factored form behind the bounds on `Share`. */
  lemma ShareOfFraction(base: real, f: real)
    ensures base - base * f == base * (1.0 - f)
    ensures (base * f) * 100.0 == base * (f * 100.0)
    ensures 0.0 <= base && 0.0 <= f ==> 0.0 <= base * f
    ensures 0.0 <= base && f <= 1.0 ==> 0.0 <= base * (1.0 - f)
  {
  }

  /** A larger base never gives a smaller share at a non-negative rate. */
  lemma ShareMonotone(b1: real, b2: real, rate: real)
    requires b1 <= b2
    requires 0.0 <= rate
    ensures Share(b1, rate) <= Share(b2, rate)
  {
    var f := rate / 100.0;
    assert Share(b2, rate) - Share(b1, rate) == (b2 - b1) * f;
    ShareOfFraction(b2 - b1, f);
  }

  /** The flat-rate calculation. Deductions only shrink the tax base: the net
      salary is the gross less the tax, so deductions at or above the gross
      leave the whole gross untaxed, and a rate between 0 and 100 percent
      takes between nothing and the whole base. */
  function Calculate(grossSalary: real, taxRate: real, deductions: real, payments: real): (r: FlatResult)
    requires payments != 0.0
    ensures r.netAnnual == grossSalary - r.taxAmount
    ensures r.netMonthly * payments == r.netAnnual
    ensures deductions >= grossSalary ==> r.taxAmount == 0.0 && r.netAnnual == grossSalary
    ensures grossSalary > deductions ==> r.taxAmount * 100.0 == (grossSalary - deductions) * taxRate
    ensures 0.0 <= taxRate <= 100.0 ==> 0.0 <= r.taxAmount <= Taxable(grossSalary, deductions)
  {
    var taxAmount := Share(Taxable(grossSalary, deductions), taxRate);
    var netAnnual := grossSalary - taxAmount;
    FlatResult(netAnnual, NetSalary.PerPayment(netAnnual, payments), taxAmount)
  }

  /** With a non-negative rate, larger deductions never lower the net
      salary, and never raise it above the gross. */
  lemma DeductionsNeverLowerNet(grossSalary: real, taxRate: real, d1: real, d2: real, payments: real)
    requires payments != 0.0
    requires 0.0 <= taxRate
    requires d1 <= d2
    ensures Calculate(grossSalary, taxRate, d1, payments).netAnnual <= Calculate(grossSalary, taxRate, d2, payments).netAnnual
    ensures Calculate(grossSalary, taxRate, d2, payments).netAnnual <= grossSalary
  {
    ShareMonotone(Taxable(grossSalary, d2), Taxable(grossSalary, d1), taxRate);
    ShareOfFraction(Taxable(grossSalary, d2), taxRate / 100.0);
  }
}
