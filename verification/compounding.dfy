/** Month-by-month compounding shared by the compound projection, the FIRE
    search and the pension drawdown. Each month the balance first earns the
    monthly rate and then receives a fixed deposit; the pension drawdown uses
    a negative deposit (the monthly gap it withdraws). */
module Compounding {

  /** One month: grow by `rate`, then add `deposit`. */
  function Grow(balance: real, rate: real, deposit: real): real
  {
    balance * (1.0 + rate) + deposit
  }

  /** The balance after `n` months that start from `start`. */
  function After(start: real, rate: real, deposit: real, n: nat): real
  {
    if n == 0 then start else Grow(After(start, rate, deposit, n - 1), rate, deposit)
  }

  /** g to the power n. */
  function Pow(g: real, n: nat): real
  {
    if n == 0 then 1.0 else Pow(g, n - 1) * g
  }

  /** What one unit deposited at the end of each of `n` months is worth when
      every month multiplies by g: 1 + g + ... + g^(n-1). */
  function Annuity(g: real, n: nat): real
  {
    if n == 0 then 0.0 else Annuity(g, n - 1) * g + 1.0
  }

  /** A month adds the interest the balance earns and the deposit, and two
      balances grow apart by the same factor 1 + rate. */
  lemma GrowStep(b1: real, b2: real, rate: real, deposit: real)
    ensures Grow(b1, rate, deposit) == b1 + b1 * rate + deposit
    ensures Grow(b2, rate, deposit) - Grow(b1, rate, deposit) == (b2 - b1) * (1.0 + rate)
  {
  }

  /** Starting one month later from the grown balance is the same as running
      one month more: the forward loop of the source and `After` agree. */
  lemma {:induction false} AfterShift(start: real, rate: real, deposit: real, n: nat)
    ensures After(Grow(start, rate, deposit), rate, deposit, n) == After(start, rate, deposit, n + 1)
    decreases n
  {
    if n > 0 {
      AfterShift(start, rate, deposit, n - 1);
    }
  }

  /** `After` with the monthly growth factor g = 1 + rate written as such. */
  function AfterByFactor(start: real, g: real, deposit: real, n: nat): real
  {
    if n == 0 then start else AfterByFactor(start, g, deposit, n - 1) * g + deposit
  }

  /** Both ways of writing the month agree. */
  lemma {:induction false} AfterIsByFactor(start: real, rate: real, deposit: real, n: nat)
    ensures After(start, rate, deposit, n) == AfterByFactor(start, 1.0 + rate, deposit, n)
    decreases n
  {
    if n > 0 {
      AfterIsByFactor(start, rate, deposit, n - 1);
    }
  }

  /** The textbook closed form: the start compounds for n months and the
      deposits form an annuity. */
  lemma {:induction false} AfterClosedForm(start: real, rate: real, deposit: real, n: nat)
    ensures After(start, rate, deposit, n)
         == start * Pow(1.0 + rate, n) + deposit * Annuity(1.0 + rate, n)
  {
    var g := 1.0 + rate;
    AfterIsByFactor(start, rate, deposit, n);
    ByFactorIsLinear(start, g, deposit, n);
    StartCompounds(start, g, n);
    DepositsFormAnnuity(g, deposit, n);
  }

  /** The balance is what the start alone grows to plus what the deposits
      alone grow to. */
  lemma {:induction false} ByFactorIsLinear(start: real, g: real, deposit: real, n: nat)
    ensures AfterByFactor(start, g, deposit, n) == AfterByFactor(start, g, 0.0, n) + AfterByFactor(0.0, g, deposit, n)
    decreases n
  {
    if n > 0 {
      ByFactorIsLinear(start, g, deposit, n - 1);
      var x := AfterByFactor(start, g, 0.0, n - 1);
      var y := AfterByFactor(0.0, g, deposit, n - 1);
      assert (x + y) * g == x * g + y * g;
    }
  }

  /** Without deposits the start is multiplied by g every month. */
  lemma {:induction false} StartCompounds(start: real, g: real, n: nat)
    ensures AfterByFactor(start, g, 0.0, n) == start * Pow(g, n)
    decreases n
  {
    if n > 0 {
      StartCompounds(start, g, n - 1);
      var p := Pow(g, n - 1);
      assert (start * p) * g == start * (p * g);
    }
  }

  /** From nothing, the deposits grow to deposit times the annuity factor. */
  lemma {:induction false} DepositsFormAnnuity(g: real, deposit: real, n: nat)
    ensures AfterByFactor(0.0, g, deposit, n) == deposit * Annuity(g, n)
    decreases n
  {
    if n > 0 {
      DepositsFormAnnuity(g, deposit, n - 1);
      var a := Annuity(g, n - 1);
      assert (deposit * a) * g + deposit == deposit * (a * g + 1.0);
    }
  }

  /** At a zero rate the balance is the start plus the deposits. */
  lemma {:induction false} AfterAtZeroRate(start: real, deposit: real, n: nat)
    ensures After(start, 0.0, deposit, n) == start + (n as real) * deposit
    decreases n
  {
    if n > 0 {
      AfterAtZeroRate(start, deposit, n - 1);
    }
  }

  /** A larger start never gives a smaller balance, as long as a month never
      flips the sign of the balance (rate >= -1). */
  lemma {:induction false} AfterMonotoneInStart(s1: real, s2: real, rate: real, deposit: real, n: nat)
    requires rate >= -1.0
    requires s1 <= s2
    ensures After(s1, rate, deposit, n) <= After(s2, rate, deposit, n)
    decreases n
  {
    if n > 0 {
      var b1 := After(s1, rate, deposit, n - 1);
      var b2 := After(s2, rate, deposit, n - 1);
      AfterMonotoneInStart(s1, s2, rate, deposit, n - 1);
      assert (b2 - b1) * (1.0 + rate) >= 0.0;
    }
  }

  /** A larger monthly deposit never gives a smaller balance (rate >= -1). */
  lemma {:induction false} AfterMonotoneInDeposit(start: real, rate: real, c1: real, c2: real, n: nat)
    requires rate >= -1.0
    requires c1 <= c2
    ensures After(start, rate, c1, n) <= After(start, rate, c2, n)
    decreases n
  {
    if n > 0 {
      var b1 := After(start, rate, c1, n - 1);
      var b2 := After(start, rate, c2, n - 1);
      AfterMonotoneInDeposit(start, rate, c1, c2, n - 1);
      assert (b2 - b1) * (1.0 + rate) >= 0.0;
    }
  }

  /** With a non-negative start, deposit and rate, the balance is at least
      what was put in: growth never loses money. */
  lemma {:induction false} AfterAtLeastContributions(start: real, rate: real, deposit: real, n: nat)
    requires start >= 0.0 && rate >= 0.0 && deposit >= 0.0
    ensures After(start, rate, deposit, n) >= start + (n as real) * deposit
    decreases n
  {
    if n > 0 {
      var b := After(start, rate, deposit, n - 1);
      AfterAtLeastContributions(start, rate, deposit, n - 1);
      assert b >= 0.0;
      assert b * rate >= 0.0;
      assert Grow(b, rate, deposit) == b + b * rate + deposit;
    }
  }
}
