/** The net-salary engine (`calculateIRPF`): social security, a fixed
    reduction, and a progressive income tax from which the tax on the
    personal and family minimum is taken off. */
module NetSalary {
  import Quota
  import Allowances

  datatype SalaryInput = SalaryInput(
    grossSalary: real,
    payments: real,
    age: real,
    disability: real,
    dependents: seq<Allowances.Dependent>)

  datatype SalaryResult = SalaryResult(
    netAnnual: real,
    netMonthly: real,
    taxAmount: real,
    socialSecurity: real,
    retentionRate: real)

  function Max(a: real, b: real): real
  {
    if a >= b then a else b
  }

  /** The employee's social security: a flat 6.48% of the gross salary. */
  function SocialSecurity(gross: real): real
  {
    gross * 0.0648
  }

  /** The income the scale is applied to: gross salary less social security
      and the fixed 2000 reduction for deductible expenses. */
  function TaxableBase(gross: real): real
  {
    gross - SocialSecurity(gross) - 2000.0
  }

  /** What the scale is applied to is 93.52% of the gross less 2000: social
      security and the base together with the reduction account for the
      whole gross, and a higher gross never gives a lower base. */
  lemma TaxableBaseShare(gross: real, higher: real)
    ensures TaxableBase(gross) == 0.9352 * gross - 2000.0
    ensures SocialSecurity(gross) + TaxableBase(gross) + 2000.0 == gross
    ensures gross <= higher ==> TaxableBase(gross) <= TaxableBase(higher)
  {
  }

  /** The personal plus the family minimum; never below the base personal
      minimum of 5550. */
  function TotalMinimum(input: SalaryInput): (m: real)
    ensures m >= 5550.0
  {
    Allowances.FamilyMinimumNonNegative(input.dependents);
    Allowances.PersonalMinimum(input.age, input.disability) + Allowances.FamilyMinimum(input.dependents)
  }

  /** The part of the taxable base above the minimum, or 0. */
  function Excess(input: SalaryInput): real
  {
    Max(0.0, TaxableBase(input.grossSalary) - TotalMinimum(input))
  }

  /** The tax on the base less the tax on the minimum, floored at zero. It
      costs 19 to 47 cents per unit of base above the minimum, and is zero
      exactly when the base does not exceed the minimum. */
  function IncomeTax(base: real, minimum: real): (tax: real)
    requires 0.0 < minimum
    ensures 0.19 * Max(0.0, base - minimum) <= tax <= 0.47 * Max(0.0, base - minimum)
    ensures tax == 0.0 <==> base <= minimum
  {
    if base <= minimum then
      Quota.QuotaMonotone(base, minimum);
      Max(0.0, Quota.Quota(base) - Quota.Quota(minimum))
    else
      Quota.QuotaMarginal(minimum, base);
      Max(0.0, Quota.Quota(base) - Quota.Quota(minimum))
  }

  /** Above the minimum, the tax is what the printed table charges on the
      base less what it charges on the minimum. */
  lemma IncomeTaxFromTable(base: real, minimum: real)
    requires 0.0 < minimum < base
    ensures IncomeTax(base, minimum) == Quota.TableQuota(base) - Quota.TableQuota(minimum)
  {
    Quota.QuotaMatchesTable(base);
    Quota.QuotaMatchesTable(minimum);
  }

  /** The tax as a percentage of the gross salary: the rate times the
      gross salary is a hundred times the tax. A tax below 47% of a positive
      gross salary gives a rate below 47. */
  function RetentionRate(tax: real, gross: real): (rate: real)
    requires gross != 0.0
    ensures rate * gross == 100.0 * tax
    ensures 0.0 < gross && 0.0 <= tax < 0.47 * gross ==> 0.0 <= rate < 47.0
  {
    var q := tax / gross;
    assert q * gross == tax;
    assert 0.0 < gross ==> (0.47 - q) * gross == 0.47 * gross - tax;
    q * 100.0
  }

  /** One of `payments` equal payments of an annual amount; together they
      give the annual amount back in full. */
  function PerPayment(annual: real, payments: real): (m: real)
    requires payments != 0.0
    ensures m * payments == annual
  {
    annual / payments
  }

  /** Social security and a tax below 47% of a positive gross salary leave
      part of it: 6.48% + 47% is less than the whole. */
  lemma NetStaysPositive(gross: real, tax: real)
    requires 0.0 < gross
    requires tax < 0.47 * gross
    ensures gross - SocialSecurity(gross) - tax > 0.0
  {
  }

  /** `calculateIRPF`. Without taxable income nothing is owed; otherwise the
      tax is the quota of the income less the quota of the minimum, floored
      at zero. The result keeps the accounting identities of the salary
      breakdown, owes tax exactly when the base exceeds the minimum, and
      charges between the lowest and the highest marginal rate on that
      excess. */
  function CalculateIrpf(input: SalaryInput): (r: SalaryResult)
    requires input.payments != 0.0
    ensures r.socialSecurity == 0.0648 * input.grossSalary
    ensures r.netAnnual == input.grossSalary - r.socialSecurity - r.taxAmount
    ensures r.netMonthly == PerPayment(r.netAnnual, input.payments)
    ensures TaxableBase(input.grossSalary) <= 0.0 ==>
      r.taxAmount == 0.0 && r.retentionRate == 0.0 && r.netAnnual == input.grossSalary - r.socialSecurity
    ensures r.taxAmount == 0.0 <==> TaxableBase(input.grossSalary) <= TotalMinimum(input)
    ensures 0.19 * Excess(input) <= r.taxAmount <= 0.47 * Excess(input)
    ensures 0.0 <= r.retentionRate < 47.0
    ensures input.grossSalary > 0.0 ==> r.netAnnual > 0.0
    ensures TaxableBase(input.grossSalary) > 0.0 ==>
      r.taxAmount == IncomeTax(TaxableBase(input.grossSalary), TotalMinimum(input)) &&
      r.retentionRate == RetentionRate(r.taxAmount, input.grossSalary)
  {
    var gross := input.grossSalary;
    var socialSecurity := SocialSecurity(gross);
    var netIncome := gross - socialSecurity - 2000.0;
    if netIncome <= 0.0 then
      var netAnnual := gross - socialSecurity;
      SalaryResult(netAnnual, PerPayment(netAnnual, input.payments), 0.0, socialSecurity, 0.0)
    else
      var tax := IncomeTax(netIncome, TotalMinimum(input));
      var netAnnual := gross - socialSecurity - tax;
      NetStaysPositive(gross, tax);
      var rate := RetentionRate(tax, gross);
      SalaryResult(netAnnual, PerPayment(netAnnual, input.payments), tax, socialSecurity, rate)
  }

  /** When the base exceeds the minimum, the tax `calculateIRPF` reports is
      the printed table's charge on the base less its charge on the
      minimum. */
  lemma IrpfTaxFromTable(input: SalaryInput)
    requires input.payments != 0.0
    requires TaxableBase(input.grossSalary) > TotalMinimum(input)
    ensures CalculateIrpf(input).taxAmount
         == Quota.TableQuota(TaxableBase(input.grossSalary)) - Quota.TableQuota(TotalMinimum(input))
  {
    IncomeTaxFromTable(TaxableBase(input.grossSalary), TotalMinimum(input));
  }

  /** A higher gross salary never lowers the tax. */
  lemma TaxMonotoneInGross(input: SalaryInput, higher: real)
    requires input.payments != 0.0
    requires input.grossSalary <= higher
    ensures CalculateIrpf(input).taxAmount <= CalculateIrpf(input.(grossSalary := higher)).taxAmount
  {
    var raised := input.(grossSalary := higher);
    var b1 := TaxableBase(input.grossSalary);
    var b2 := TaxableBase(higher);
    if b1 > 0.0 {
      assert TotalMinimum(raised) == TotalMinimum(input);
      Quota.QuotaMonotone(b1, b2);
    }
  }

  /** Adding a dependent anywhere in the list never raises the tax: the
      family minimum only grows, and the quota is monotone. */
  lemma AddingDependentNeverRaisesTax(input: SalaryInput, xs: seq<Allowances.Dependent>, d: Allowances.Dependent, ys: seq<Allowances.Dependent>)
    requires input.payments != 0.0
    requires input.dependents == xs + ys
    ensures CalculateIrpf(input.(dependents := xs + [d] + ys)).taxAmount <= CalculateIrpf(input).taxAmount
  {
    var more := input.(dependents := xs + [d] + ys);
    Allowances.InsertRaisesFamilyMinimum(xs, d, ys);
    Quota.QuotaMonotone(TotalMinimum(input), TotalMinimum(more));
  }

  /** Listing the dependents in any other order changes nothing in the
      result. */
  lemma DependentOrderIrrelevant(input: SalaryInput, reordered: seq<Allowances.Dependent>)
    requires input.payments != 0.0
    requires multiset(reordered) == multiset(input.dependents)
    ensures CalculateIrpf(input.(dependents := reordered)) == CalculateIrpf(input)
  {
    Allowances.FamilyMinimumPermutationFree(reordered, input.dependents);
    assert TotalMinimum(input.(dependents := reordered)) == TotalMinimum(input);
  }

  /** An older or more disabled taxpayer never pays more. */
  lemma OlderOrMoreDisabledNeverPaysMore(input: SalaryInput, age: real, disability: real)
    requires input.payments != 0.0
    requires input.age <= age && input.disability <= disability
    ensures CalculateIrpf(input.(age := age, disability := disability)).taxAmount <= CalculateIrpf(input).taxAmount
  {
    var other := input.(age := age, disability := disability);
    Allowances.PersonalMinimumMonotone(input.age, input.disability, age, disability);
    Quota.QuotaMonotone(TotalMinimum(input), TotalMinimum(other));
  }

  /** The default form: 30000 gross in 12 payments, aged 30, no disability
      and no dependents. The base is 26056 and the minimum 5550. */
  lemma DefaultFormExample()
    ensures CalculateIrpf(SalaryInput(30000.0, 12.0, 30.0, 0.0, []))
         == SalaryResult(23128.2, 1927.35, 4927.8, 1944.0, 16.426)
  {
  }
}
