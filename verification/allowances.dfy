/** The personal and family minimum allowances of the net-salary engine:
    amounts of income that are taxed at zero because the quota of the
    allowance is subtracted from the quota of the income. */
module Allowances {

  datatype Kind = Descendant | Ascendant

  /** A dependent as entered in the form; ages are in years and the
      disability level is a percentage (the form offers 0, 33 and 65). */
  datatype Dependent = Dependent(age: real, kind: Kind, disability: real)

  /** Extra allowance for a disability level, for the taxpayer and for a
      dependent alike: 3000 from 33%, 9000 + 3000 for assistance from 65%. */
  function DisabilityAllowance(level: real): real
  {
    if 33.0 <= level < 65.0 then 3000.0
    else if level >= 65.0 then 12000.0
    else 0.0
  }

  /** The taxpayer's own minimum: 5550, plus 1150 over 65 and another 1400
      over 75, plus the disability allowance. */
  function PersonalMinimum(age: real, disability: real): (r: real)
    ensures 5550.0 <= r <= 5550.0 + 1150.0 + 1400.0 + 12000.0
  {
    var byAge := 5550.0 + (if age > 65.0 then 1150.0 else 0.0) + (if age > 75.0 then 1400.0 else 0.0);
    byAge + DisabilityAllowance(disability)
  }

  /** How each circumstance of the taxpayer moves the personal minimum: 1150
      more over 65, another 1400 over 75, 3000 for a disability of 33% to
      65% and 12000 from 65%; without any of them it is 5550. */
  lemma PersonalMinimumIncrements(age: real, disability: real)
    ensures age > 75.0 ==>
      PersonalMinimum(age, disability) == PersonalMinimum(75.0, disability) + 1400.0
    ensures 65.0 < age <= 75.0 ==>
      PersonalMinimum(age, disability) == PersonalMinimum(65.0, disability) + 1150.0
    ensures 33.0 <= disability < 65.0 ==>
      PersonalMinimum(age, disability) == PersonalMinimum(age, 0.0) + 3000.0
    ensures disability >= 65.0 ==>
      PersonalMinimum(age, disability) == PersonalMinimum(age, 0.0) + 12000.0
    ensures age <= 65.0 && disability < 33.0 ==> PersonalMinimum(age, disability) == 5550.0
  {
  }

  /** An older or more disabled taxpayer never has a smaller minimum. */
  lemma PersonalMinimumMonotone(age1: real, disability1: real, age2: real, disability2: real)
    requires age1 <= age2 && disability1 <= disability2
    ensures PersonalMinimum(age1, disability1) <= PersonalMinimum(age2, disability2)
  {
  }

  /** The amount of the descendant in position `ordinal` (1-based) among the
      descendants: 2400, 2700, 4000, then 4500 for the fourth and later. */
  function TierAmount(ordinal: nat): real
  {
    if ordinal == 1 then 2400.0
    else if ordinal == 2 then 2700.0
    else if ordinal == 3 then 4000.0
    else 4500.0
  }

  /** The part of a dependent's allowance that does not depend on where it
      is in the list: 2800 for a descendant under 3; 1150 for an ascendant,
      plus 1400 over 75; and the disability allowance for both kinds. */
  function OwnAllowance(d: Dependent): real
  {
    var byKind :=
      match d.kind
      case Descendant => if d.age < 3.0 then 2800.0 else 0.0
      case Ascendant => 1150.0 + (if d.age > 75.0 then 1400.0 else 0.0);
    byKind + DisabilityAllowance(d.disability)
  }

  /** A dependent's whole allowance when it is a descendant in position
      `ordinal` among the descendants (the position is ignored for an
      ascendant). */
  function DependentAllowance(d: Dependent, ordinal: nat): real
  {
    (if d.kind == Descendant then TierAmount(ordinal) else 0.0) + OwnAllowance(d)
  }

  /** The loop over the dependents in list order; `seen` counts the
      descendants met so far, and only a descendant advances it. */
  function FamilyFrom(deps: seq<Dependent>, seen: nat): real
    decreases |deps|
  {
    if |deps| == 0 then 0.0
    else
      var count := if deps[0].kind == Descendant then seen + 1 else seen;
      DependentAllowance(deps[0], count) + FamilyFrom(deps[1..], count)
  }

  /** The family minimum of the whole list. */
  function FamilyMinimum(deps: seq<Dependent>): real
  {
    FamilyFrom(deps, 0)
  }

  function CountDescendants(deps: seq<Dependent>): nat
    decreases |deps|
  {
    if |deps| == 0 then 0
    else (if deps[0].kind == Descendant then 1 else 0) + CountDescendants(deps[1..])
  }

  /** The tier amounts of the first n descendants together. */
  function TierTotal(n: nat): real
  {
    if n == 0 then 0.0 else TierTotal(n - 1) + TierAmount(n)
  }

  /** The position-free allowances of the whole list. */
  function OwnTotal(deps: seq<Dependent>): real
    decreases |deps|
  {
    if |deps| == 0 then 0.0 else OwnAllowance(deps[0]) + OwnTotal(deps[1..])
  }

  /** How each circumstance of a dependent moves its allowance: a descendant
      under 3 adds 2800, an ascendant over 75 adds 1400, a disability of 33%
      to 65% adds 3000 and one of 65% or more adds 12000; an ascendant's
      allowance does not depend on the position, and a later descendant never
      receives less than an earlier one. */
  lemma DependentAllowanceIncrements(d: Dependent, ordinal: nat, later: nat)
    ensures d.kind == Descendant && d.age < 3.0 ==>
      DependentAllowance(d, ordinal) == DependentAllowance(d.(age := 3.0), ordinal) + 2800.0
    ensures d.kind == Ascendant && d.age > 75.0 ==>
      DependentAllowance(d, ordinal) == DependentAllowance(d.(age := 75.0), ordinal) + 1400.0
    ensures 33.0 <= d.disability < 65.0 ==>
      DependentAllowance(d, ordinal) == DependentAllowance(d.(disability := 0.0), ordinal) + 3000.0
    ensures d.disability >= 65.0 ==>
      DependentAllowance(d, ordinal) == DependentAllowance(d.(disability := 0.0), ordinal) + 12000.0
    ensures d.kind == Ascendant ==> DependentAllowance(d, ordinal) == DependentAllowance(d, later)
    ensures 1 <= ordinal <= later ==> DependentAllowance(d, ordinal) <= DependentAllowance(d, later)
  {
  }

  /** The loop's total is the tiers of the descendants it counts plus every
      dependent's position-free part. */
  lemma {:induction false} FamilyFromClosedForm(deps: seq<Dependent>, seen: nat)
    ensures FamilyFrom(deps, seen)
         == TierTotal(seen + CountDescendants(deps)) - TierTotal(seen) + OwnTotal(deps)
    decreases |deps|
  {
    if |deps| > 0 {
      var count := if deps[0].kind == Descendant then seen + 1 else seen;
      FamilyFromClosedForm(deps[1..], count);
    }
  }

  /** Whatever the order of the list, the family minimum is the sum of the
      first n tier amounts, n the number of descendants, plus every
      dependent's position-free allowance. */
  lemma FamilyMinimumClosedForm(deps: seq<Dependent>)
    ensures FamilyMinimum(deps) == TierTotal(CountDescendants(deps)) + OwnTotal(deps)
  {
    FamilyFromClosedForm(deps, 0);
  }

  lemma {:induction false} CountDescendantsConcat(xs: seq<Dependent>, ys: seq<Dependent>)
    ensures CountDescendants(xs + ys) == CountDescendants(xs) + CountDescendants(ys)
    decreases |xs|
  {
    if |xs| > 0 {
      assert (xs + ys)[1..] == xs[1..] + ys;
      CountDescendantsConcat(xs[1..], ys);
    } else {
      assert xs + ys == ys;
    }
  }

  lemma {:induction false} OwnTotalConcat(xs: seq<Dependent>, ys: seq<Dependent>)
    ensures OwnTotal(xs + ys) == OwnTotal(xs) + OwnTotal(ys)
    decreases |xs|
  {
    if |xs| > 0 {
      assert (xs + ys)[1..] == xs[1..] + ys;
      OwnTotalConcat(xs[1..], ys);
    } else {
      assert xs + ys == ys;
    }
  }

  lemma {:induction false} TierTotalMonotone(m: nat, n: nat)
    requires m <= n
    ensures TierTotal(m) <= TierTotal(n)
    decreases n
  {
    if m < n {
      TierTotalMonotone(m, n - 1);
    }
  }

  lemma {:induction false} OwnTotalNonNegative(deps: seq<Dependent>)
    ensures OwnTotal(deps) >= 0.0
    decreases |deps|
  {
    if |deps| > 0 {
      OwnTotalNonNegative(deps[1..]);
    }
  }

  /** The family minimum is never negative. */
  lemma FamilyMinimumNonNegative(deps: seq<Dependent>)
    ensures FamilyMinimum(deps) >= 0.0
  {
    FamilyMinimumClosedForm(deps);
    TierTotalMonotone(0, CountDescendants(deps));
    OwnTotalNonNegative(deps);
  }

  /** Appending a dependent adds exactly its allowance at the position one
      past the descendants already listed: descendants are tiered by their
      ordinal among descendants only. */
  lemma FamilyMinimumAppend(deps: seq<Dependent>, d: Dependent)
    ensures FamilyMinimum(deps + [d])
         == FamilyMinimum(deps) + DependentAllowance(d, CountDescendants(deps) + 1)
  {
    FamilyMinimumClosedForm(deps);
    FamilyMinimumClosedForm(deps + [d]);
    CountDescendantsConcat(deps, [d]);
    OwnTotalConcat(deps, [d]);
    assert [d][1..] == [];
  }

  /** An ascendant placed anywhere in the list adds only its own allowance:
      it does not move any descendant to another tier. */
  lemma AscendantShiftsNoTier(xs: seq<Dependent>, a: Dependent, ys: seq<Dependent>)
    requires a.kind == Ascendant
    ensures FamilyMinimum(xs + [a] + ys) == FamilyMinimum(xs + ys) + OwnAllowance(a)
  {
    FamilyMinimumClosedForm(xs + [a] + ys);
    FamilyMinimumClosedForm(xs + ys);
    CountDescendantsConcat(xs, [a]);
    CountDescendantsConcat(xs + [a], ys);
    CountDescendantsConcat(xs, ys);
    OwnTotalConcat(xs, [a]);
    OwnTotalConcat(xs + [a], ys);
    OwnTotalConcat(xs, ys);
    assert [a][1..] == [];
  }

  /** Inserting any dependent anywhere in the list raises the family minimum
      by at least 1150, the smallest allowance a dependent can bring. */
  lemma InsertRaisesFamilyMinimum(xs: seq<Dependent>, d: Dependent, ys: seq<Dependent>)
    ensures FamilyMinimum(xs + [d] + ys) >= FamilyMinimum(xs + ys) + 1150.0
  {
    FamilyMinimumClosedForm(xs + [d] + ys);
    FamilyMinimumClosedForm(xs + ys);
    CountDescendantsConcat(xs, [d]);
    CountDescendantsConcat(xs + [d], ys);
    CountDescendantsConcat(xs, ys);
    OwnTotalConcat(xs, [d]);
    OwnTotalConcat(xs + [d], ys);
    OwnTotalConcat(xs, ys);
    assert [d][1..] == [];
  }

  /** Taking the first element off one list and the same value off another,
      equal as multisets, leaves two lists that are still equal as multisets. */
  lemma RemoveMatching(p: seq<Dependent>, q: seq<Dependent>, i: nat)
    requires multiset(p) == multiset(q)
    requires |p| > 0 && i < |q| && q[i] == p[0]
    ensures multiset(p[1..]) == multiset(q[..i] + q[i + 1..])
  {
    assert p == [p[0]] + p[1..];
    assert q == q[..i] + [q[i]] + q[i + 1..];
    calc {
      multiset(p[1..]);
      multiset(p) - multiset{p[0]};
      multiset(q) - multiset{p[0]};
      multiset(q[..i] + q[i + 1..]);
    }
  }

  /** The two quantities the family minimum depends on, the number of
      descendants and the sum of own allowances, ignore the order of the list. */
  lemma {:induction false} TotalsArePermutationFree(p: seq<Dependent>, q: seq<Dependent>)
    requires multiset(p) == multiset(q)
    ensures CountDescendants(p) == CountDescendants(q)
    ensures OwnTotal(p) == OwnTotal(q)
    decreases |p|
  {
    if |p| == 0 {
      assert |q| == |multiset(q)| == 0;
    } else {
      var x := p[0];
      assert x in multiset(q);
      var i :| 0 <= i < |q| && q[i] == x;
      var before, after := q[..i], q[i + 1..];
      assert q == before + [x] + after;
      RemoveMatching(p, q, i);
      TotalsArePermutationFree(p[1..], before + after);
      CountDescendantsConcat(before, [x]);
      CountDescendantsConcat(before + [x], after);
      CountDescendantsConcat(before, after);
      OwnTotalConcat(before, [x]);
      OwnTotalConcat(before + [x], after);
      OwnTotalConcat(before, after);
      assert [x][1..] == [];
    }
  }

  /** The order in which dependents are listed changes which descendant gets
      which tier, but never the family minimum: any reordering of the list
      gives the same total. */
  lemma FamilyMinimumPermutationFree(p: seq<Dependent>, q: seq<Dependent>)
    requires multiset(p) == multiset(q)
    ensures FamilyMinimum(p) == FamilyMinimum(q)
  {
    FamilyMinimumClosedForm(p);
    FamilyMinimumClosedForm(q);
    TotalsArePermutationFree(p, q);
  }
}
