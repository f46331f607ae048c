/** The progressive bracket schedule of the net-salary engine
    (`calculateQuota`): an amount is cut into consecutive slices, one per
    bracket, and each slice is taxed at its bracket's marginal rate. */
module Quota {

  /** The cumulative upper bound of a bracket; the last one has none. */
  datatype Limit = UpTo(bound: real) | Unbounded

  datatype Bracket = Bracket(limit: Limit, rate: real)

  /** The general scale used for both the income and the minimum allowance. */
  const Schedule: seq<Bracket> := [
    Bracket(UpTo(12450.0), 0.19),
    Bracket(UpTo(20200.0), 0.24),
    Bracket(UpTo(35200.0), 0.30),
    Bracket(UpTo(60000.0), 0.37),
    Bracket(UpTo(300000.0), 0.45),
    Bracket(Unbounded, 0.47)
  ]

  function Min(a: real, b: real): real
  {
    if a <= b then a else b
  }

  /** The part of `remaining` that falls in bracket `b`, whose lower edge is
      `prev`: at most the bracket's width, all of it for the open bracket. */
  function Slice(remaining: real, b: Bracket, prev: real): real
  {
    match b.limit
    case UpTo(bound) => Min(remaining, bound - prev)
    case Unbounded => remaining
  }

  /** The lower edge of the bracket after `b`. Nothing follows the open
      bracket in a schedule, so its value there is immaterial. */
  function NextEdge(b: Bracket, prev: real): real
  {
    match b.limit
    case UpTo(bound) => bound
    case Unbounded => prev
  }

  /** The loop of `calculateQuota` over the brackets `bs`, with `remaining`
      still to be taxed and `prev` the lower edge of `bs[0]`; it stops as soon
      as nothing positive remains. */
  function QuotaFrom(bs: seq<Bracket>, remaining: real, prev: real): real
    decreases |bs|
  {
    if |bs| == 0 || remaining <= 0.0 then 0.0
    else
      var slice := Slice(remaining, bs[0], prev);
      slice * bs[0].rate + QuotaFrom(bs[1..], remaining - slice, NextEdge(bs[0], prev))
  }

  /** The same scale written the way tax tables print it: the tax on all the
      brackets below, plus the marginal rate on the excess. */
  function TableQuota(amount: real): real
  {
    if amount <= 0.0 then 0.0
    else if amount <= 12450.0 then 0.19 * amount
    else if amount <= 20200.0 then 2365.5 + 0.24 * (amount - 12450.0)
    else if amount <= 35200.0 then 4225.5 + 0.30 * (amount - 20200.0)
    else if amount <= 60000.0 then 8725.5 + 0.37 * (amount - 35200.0)
    else if amount <= 300000.0 then 17901.5 + 0.45 * (amount - 60000.0)
    else 125901.5 + 0.47 * (amount - 300000.0)
  }

  /** The open bracket: the loop charges 47% on all that is left above
      300000, as the table does. */
  lemma FromBracket5(r: real)
    requires 0.0 <= r
    ensures QuotaFrom(Schedule[5..], r, 300000.0) == TableQuota(300000.0 + r) - TableQuota(300000.0)
  {
  }

  /** From the bracket that starts at 60000 on, the loop charges what the
      table charges above 60000. */
  lemma FromBracket4(r: real)
    requires 0.0 <= r
    ensures QuotaFrom(Schedule[4..], r, 60000.0) == TableQuota(60000.0 + r) - TableQuota(60000.0)
  {
    assert Schedule[4..][1..] == Schedule[5..];
    if r > 0.0 {
      FromBracket5(r - Min(r, 300000.0 - 60000.0));
    }
  }

  /** Likewise above 35200. */
  lemma FromBracket3(r: real)
    requires 0.0 <= r
    ensures QuotaFrom(Schedule[3..], r, 35200.0) == TableQuota(35200.0 + r) - TableQuota(35200.0)
  {
    assert Schedule[3..][1..] == Schedule[4..];
    if r > 0.0 {
      FromBracket4(r - Min(r, 60000.0 - 35200.0));
    }
  }

  /** Likewise above 20200. */
  lemma FromBracket2(r: real)
    requires 0.0 <= r
    ensures QuotaFrom(Schedule[2..], r, 20200.0) == TableQuota(20200.0 + r) - TableQuota(20200.0)
  {
    assert Schedule[2..][1..] == Schedule[3..];
    if r > 0.0 {
      FromBracket3(r - Min(r, 35200.0 - 20200.0));
    }
  }

  /** Likewise above 12450. */
  lemma FromBracket1(r: real)
    requires 0.0 <= r
    ensures QuotaFrom(Schedule[1..], r, 12450.0) == TableQuota(12450.0 + r) - TableQuota(12450.0)
  {
    assert Schedule[1..][1..] == Schedule[2..];
    if r > 0.0 {
      FromBracket2(r - Min(r, 20200.0 - 12450.0));
    }
  }

  /** The whole loop charges what the table charges. The schedule comes in
      as a parameter equal to it, which keeps the verifier from unrolling
      the loop over the literal list. */
  lemma LoopMatchesTable(bs: seq<Bracket>, amount: real)
    requires bs == Schedule
    ensures QuotaFrom(bs, amount, 0.0) == TableQuota(amount)
  {
    assert bs[1..] == Schedule[1..];
    if amount > 0.0 {
      FromBracket1(amount - Min(amount, 12450.0));
    }
  }

  /** Between two non-negative amounts the table rises by at least 19 and
      at most 47 cents per unit: every marginal rate lies in that range. */
  lemma TableMarginal(a: real, b: real)
    requires 0.0 <= a <= b
    ensures 0.19 * (b - a) <= TableQuota(b) - TableQuota(a) <= 0.47 * (b - a)
  {
  }

  /** `calculateQuota(amount)`: the bracket loop over the schedule. Nothing
      is owed on a non-positive amount, and a positive amount is taxed at an
      average rate between the lowest and the highest marginal rate. */
  function Quota(amount: real): (q: real)
    ensures amount <= 0.0 ==> q == 0.0
    ensures 0.0 <= amount ==> 0.19 * amount <= q <= 0.47 * amount
  {
    if amount <= 0.0 then 0.0
    else
      var bs := Schedule;
      LoopMatchesTable(bs, amount);
      TableMarginal(0.0, amount);
      QuotaFrom(bs, amount, 0.0)
  }

  /** The bracket loop agrees with the printed table for every amount. */
  lemma QuotaMatchesTable(amount: real)
    ensures Quota(amount) == TableQuota(amount)
  {
  }

  /** The quota is monotone, and strictly so: every extra unit of a
      non-negative amount costs between 19 and 47 cents. */
  lemma QuotaMarginal(a: real, b: real)
    requires 0.0 <= a <= b
    ensures 0.19 * (b - a) <= Quota(b) - Quota(a) <= 0.47 * (b - a)
  {
    QuotaMatchesTable(a);
    QuotaMatchesTable(b);
    TableMarginal(a, b);
  }

  /** Monotonicity over every amount, non-positive ones included. */
  lemma QuotaMonotone(a: real, b: real)
    requires a <= b
    ensures Quota(a) <= Quota(b)
  {
  }
}
