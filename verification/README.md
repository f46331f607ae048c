# financial-masters: the calculation kernels in Dafny

financial-masters is a set of personal-finance calculators. This project
models their arithmetic:

- the net-salary engine (`calculateIRPF`). It takes 6.48% social security
  and a fixed 2000 reduction off the gross salary. From that base it
  computes the personal minimum (age and disability) and the family minimum
  (descendants tiered by their order among descendants, ascendants, and
  dependents' disabilities). It applies the progressive six-bracket scale
  (`calculateQuota`) to both the base and the minimum. The tax is the
  difference, floored at zero;
- the older flat-rate salary calculator;
- the compound-interest projection (initial amount plus a monthly
  contribution, compounded monthly);
- the FIRE calculator (the capital whose withdrawal covers the spending,
  and the months of saving until it is reached, capped at 100 years);
- the retirement simulator (savings paying the monthly gap between the
  spending and the pension, capped at 50 years; sustainable from 30 years).

All amounts are Dafny `real`s. Each monthly loop is the same month step,
`Compounding.Grow`: grow by the monthly rate, then add a deposit. The
pension drawdown adds a negative deposit, the gap. `Compounding.After` is
the balance after n such months. The loops of the source become recursive
search functions whose contracts characterise the month they stop at.

| module | file | models |
|---|---|---|
| Quota | quota.dfy | the bracket scale and `calculateQuota` |
| Allowances | allowances.dfy | the personal and family minimum |
| NetSalary | net_salary.dfy | `calculateIRPF` |
| FlatSalary | flat_salary.dfy | the flat-rate salary calculator |
| Compounding | compounding.dfy | the shared month step and its closed form |
| CompoundProjection | compound_projection.dfy | the compound-interest projection |
| Fire | fire.dfy | the FIRE calculator |
| Pension | pension.dfy | the retirement simulator |

The React file `src/App.jsx` and the older `js/app.js` hold textually
identical compound, FIRE and retirement kernels. Each is modelled once, and
the rows below cite both copies where they apply.

## Model

| member | source | states |
|---|---|---|
| Quota.LoopMatchesTable | src/App.jsx:268-281 | the bracket loop `QuotaFrom` over the scale, stopping once nothing remains, charges exactly what the printed tax table charges (2365.5 up to 12450, 4225.5 up to 20200, and so on, 47% above 300000) |
| Quota.Quota | src/App.jsx:268-281 | the quota of a non-positive amount is 0; on a non-negative amount it lies between 19% and 47% of the amount |
| Quota.QuotaMatchesTable | src/App.jsx:268-281 | `calculateQuota` equals the printed table for every amount |
| Quota.QuotaMarginal | src/App.jsx:259-281 | between two non-negative amounts the quota rises by at least 19% and at most 47% of the difference |
| Quota.QuotaMonotone | src/App.jsx:268-281 | the quota never decreases as the amount grows, including over negative amounts |
| Allowances.PersonalMinimum | src/App.jsx:215-223 | the personal minimum lies between 5550 and 5550 + 1150 + 1400 + 12000 |
| Allowances.PersonalMinimumIncrements | src/App.jsx:218-223 | over 75 adds 1400 to the minimum at 75; over 65 up to 75 adds 1150 to the minimum at 65; a disability of 33 to 65 adds 3000 and one of 65 or more adds 12000 to the minimum without disability; up to 65 and under 33 the minimum is 5550 |
| Allowances.PersonalMinimumMonotone | src/App.jsx:215-223 | an older or more disabled taxpayer never has a smaller personal minimum |
| Allowances.DependentAllowanceIncrements | src/App.jsx:230-248 | each circumstance adds its fixed amount: 2800 for a descendant under 3, 1400 for an ascendant over 75, 3000 or 12000 for a disability; an ascendant's amount does not depend on its position; a later descendant never gets less |
| Allowances.FamilyFromClosedForm | src/App.jsx:229-249 | the loop `FamilyFrom` from any descendant count equals the tier amounts of the descendants it meets plus every dependent's position-free amount |
| Allowances.FamilyMinimumClosedForm | src/App.jsx:226-249 | the family minimum is the first n tier amounts, n the number of descendants, plus every dependent's position-free amount |
| Allowances.FamilyMinimumNonNegative | src/App.jsx:226-249 | the family minimum is never negative |
| Allowances.FamilyMinimumAppend | src/App.jsx:229-249 | appending a dependent adds its allowance at ordinal one past the descendants already listed |
| Allowances.AscendantShiftsNoTier | src/App.jsx:229-249 | inserting an ascendant anywhere adds only its own allowance and moves no descendant to another tier |
| Allowances.InsertRaisesFamilyMinimum | src/App.jsx:229-249 | inserting any dependent anywhere raises the family minimum by at least 1150 |
| Allowances.TotalsArePermutationFree | src/App.jsx:229-249 | two lists holding the same dependents, in any order, have the same number of descendants and the same sum of position-free amounts |
| Allowances.FamilyMinimumPermutationFree | src/App.jsx:229-249 | any reordering of the dependents gives the same family minimum |
| NetSalary.TaxableBaseShare | src/App.jsx:209-210 | the base is 93.52% of the gross less 2000; social security, the base and the 2000 reduction add up to the gross; a higher gross never gives a lower base |
| NetSalary.TotalMinimum | src/App.jsx:215-255 | the total minimum is at least the base personal minimum of 5550 |
| NetSalary.IncomeTax | src/App.jsx:283-287 | the tax on the base less the tax on the minimum is 0 exactly when the base does not exceed the minimum, and otherwise between 19% and 47% of the excess |
| NetSalary.IncomeTaxFromTable | src/App.jsx:283-287 | when the base exceeds a positive minimum, the tax is the printed table's value on the base less its value on the minimum |
| NetSalary.RetentionRate | src/App.jsx:290 | for a non-zero gross, the rate times the gross is 100 times the tax; a tax below 47% of a positive gross gives a rate in [0, 47) |
| NetSalary.PerPayment | src/App.jsx:289 | the payments multiplied back give the annual amount |
| NetSalary.NetStaysPositive | src/App.jsx:288 | social security and a tax below 47% of a positive gross leave a positive net |
| NetSalary.CalculateIrpf | src/App.jsx:206-294 | social security is 6.48% of the gross; net = gross - social security - tax; no tax and rate 0 when the base is not positive; otherwise the tax is `IncomeTax` of the base and the total minimum and the rate is `RetentionRate` of that tax, so rate·gross = 100·tax; tax is 0 exactly when the base is within the minimum; tax between 19% and 47% of the excess; retention rate in [0, 47); a positive gross keeps a positive net |
| NetSalary.IrpfTaxFromTable | src/App.jsx:206-294 | when the base exceeds the total minimum, the tax is the printed table's value on the base less its value on the total minimum |
| NetSalary.TaxMonotoneInGross | src/App.jsx:209-287 | a higher gross salary never lowers the tax |
| NetSalary.AddingDependentNeverRaisesTax | src/App.jsx:226-287 | adding a dependent anywhere in the list never raises the tax |
| NetSalary.DependentOrderIrrelevant | src/App.jsx:229-292 | any reordering of the dependents (the same multiset) leaves the whole result unchanged |
| NetSalary.OlderOrMoreDisabledNeverPaysMore | src/App.jsx:215-287 | an older or more disabled taxpayer never pays more tax |
| NetSalary.DefaultFormExample | src/App.jsx:206-294 | 30000 gross in 12 payments at age 30 gives net 23128.2, 1927.35 a payment, tax 4927.8, social security 1944, rate 16.426% |
| FlatSalary.Taxable | js/app.js:191 | the flat tax base is the gross less deductions, floored at zero |
| FlatSalary.Share | js/app.js:192 | a percentage share times 100 is the base times the rate; a rate in [0, 100] of a non-negative base takes between nothing and the whole base |
| FlatSalary.ShareMonotone | js/app.js:192 | at a non-negative rate a larger base never gives a smaller share |
| FlatSalary.Calculate | js/app.js:190-196 | net = gross - tax; the payments give the net back; deductions at or above the gross leave no tax; otherwise tax is the rate's share of gross less deductions; a rate in [0, 100] takes between nothing and the whole base |
| FlatSalary.DeductionsNeverLowerNet | js/app.js:190-196 | with a non-negative rate, larger deductions never lower the net, which never exceeds the gross |
| Compounding.GrowStep | src/App.jsx:146 | a month adds the interest the balance earns plus the deposit, and two balances grow apart by the factor 1 + rate (js/app.js:140 is the same line) |
| Compounding.AfterShift | src/App.jsx:145-148 | running the month loop forward from the grown balance equals running one month more from the start |
| Compounding.AfterClosedForm | src/App.jsx:145-148 | after n months the balance is start·(1+r)^n plus deposit·(1 + (1+r) + … + (1+r)^(n-1)) |
| Compounding.AfterAtZeroRate | src/App.jsx:145-148 | at zero rate the balance is the start plus n deposits |
| Compounding.AfterMonotoneInStart | src/App.jsx:145-148 | with rate ≥ -1, a larger start never gives a smaller balance |
| Compounding.AfterMonotoneInDeposit | src/App.jsx:145-148 | with rate ≥ -1, a larger deposit never gives a smaller balance |
| Compounding.AfterAtLeastContributions | src/App.jsx:145-148 | with non-negative start, rate and deposit, the balance is at least start + n·deposit |
| CompoundProjection.MonthsIn | src/App.jsx:143-145 | the loop runs the whole part of 12·years times, none below one month |
| CompoundProjection.MonthlyRate | src/App.jsx:142 | twelve hundred monthly rates make the annual percentage |
| CompoundProjection.Run | src/App.jsx:145-148 | the forward loop ends at `After` of its start and has added one contribution per month |
| CompoundProjection.Project | src/App.jsx:139-151 | total = contributed + interest; contributed = initial + months·monthly; total = the balance after the months run; under one month nothing changes |
| CompoundProjection.ContributionsOverWholeMonths | js/app.js:133-145 | for a whole number of months the contributions are initial + 12·years·monthly |
| CompoundProjection.ProjectionClosedForm | js/app.js:133-145 | the projected total is the compound-interest formula with factor 1 + rate/1200 |
| CompoundProjection.InterestNeverNegative | src/App.jsx:139-151 | with nothing negative going in, the interest is never negative |
| CompoundProjection.ZeroRateEarnsNothing | src/App.jsx:139-151 | at a zero rate the total is exactly the contributions |
| CompoundProjection.TotalMonotone | js/app.js:133-145 | more initial capital or a larger contribution never gives a smaller total |
| Fire.FireNumber | src/App.jsx:497 | the withdrawal rate applied to the FIRE number pays the annual spending |
| Fire.Search | src/App.jsx:505-508 | the loop stops at the first month whose balance reaches the target, or at 1200 months |
| Fire.Solve | src/App.jsx:496-510 | "never" exactly when nothing is saved and the target is not met; 0 months when already met; otherwise the first month reaching the target, within 1200 |
| Fire.ReachedByContributions | js/app.js:246-260 | with non-negative return, once contributions alone reach the target, the answer comes no later |
| Fire.MoreSavingsNeverDelays | js/app.js:246-260 | saving more each month never delays the answer |
| Fire.MoreCapitalNeverDelays | js/app.js:246-260 | a larger starting capital never delays the answer |
| Pension.YearsTenths | src/App.jsx:584 | the months, in years rounded to one decimal, counted in tenths (nearest tenth, ties up) |
| Pension.RemainingClosedForm | src/App.jsx:578-582 | each drawdown month grows the balance and withdraws the gap; after k months the balance is start·(1+r)^k less gap·(1 + (1+r) + … + (1+r)^(k-1)) |
| Pension.Deplete | src/App.jsx:578-582 | the loop stops at the first month whose balance is no longer positive, or at 600 months |
| Pension.DepletionMonths | js/app.js:327-331 | the months the savings stay positive; zero exactly when the savings are not positive |
| Pension.FiftyYearsOnlyAtCap | src/App.jsx:584-585 | within the cap the rounded years reach 50 only at 600 months |
| Pension.Solve | src/App.jsx:568-586 | a pension covering the spending lasts forever and is sustainable; otherwise "+50" exactly at the cap, the rounded years before it, sustainable exactly from 360 months |
| Pension.MoreSavingsLastLonger | js/app.js:317-335 | more savings never run out sooner |
| Pension.HigherPensionLastsLonger | js/app.js:317-335 | a larger pension never makes the savings run out sooner |
| Pension.MoreSavingsKeepSustainable | js/app.js:317-335 | a sustainable plan stays sustainable with more savings |
| Pension.ZeroReturnGapsFallShortBeforeDepletion | src/App.jsx:576-582 | with no real return, before depletion the gaps paid are less than the savings |
| Pension.ZeroReturnExhaustedOnceGapsCover | src/App.jsx:576-582 | with no real return, savings that run out within 50 years do so once the gaps paid cover them |
| Pension.PaidAtZeroReturn | src/App.jsx:578-582 | at no return, k months leave the start less k gaps |

## Left out

- The user interface, theming, translations, the advertising banner and the dependent-editing handlers. They compute nothing.
- Floating point. All arithmetic is exact over the reals, so IEEE rounding is not modelled.
- `Math.pow(…, 1/12)` for the FIRE and retirement monthly rates. The monthly rate is an input of the model, because a twelfth root has no exact real counterpart.
- `toLocaleString` and `toFixed` formatting. The one exception is the pension's `toFixed(1)`, which decides between "+50" and a number of years.
- Fire.Solve: returns the month count, not the `(months / 12).toFixed(1)` string. The display's `years >= 99` test (src/App.jsx:551, js/app.js:301) is not modelled either.
- Division by zero. The payment count and the withdrawal rate are required to be non-zero (`payments != 0`, `withdrawalRate != 0`), where JavaScript would return Infinity or NaN.
- `currentSpend` in the retirement simulator and the family situation in the salary form. Neither affects any result.
- The payment count is any non-zero real. The form only offers 12 and 14.
