/** The 5% commission, rounded to whole kobo with ties to even. */
module Commissions {
  import opened Domain

  /** `(amount * 0.05).quantize(0.01)` in kobo: amount / 20 rounded half to even. */
  function CommissionOf(amount: nat): (c: nat)
    ensures -10 <= 20 * c - amount <= 10
    ensures (20 * c - amount == 10 || 20 * c - amount == -10) ==> c % 2 == 0
  {
    var whole, rest := amount / 20, amount % 20;
    if rest < 10 || (rest == 10 && whole % 2 == 0) then whole else whole + 1
  }

  function PayoutOf(amount: nat): int {
    amount - CommissionOf(amount)
  }

  /** The rounding error bound and the tie rule leave one possible commission. */
  lemma CommissionUnique(amount: nat, c: nat)
    requires -10 <= 20 * c - amount <= 10
    requires (20 * c - amount == 10 || 20 * c - amount == -10) ==> c % 2 == 0
    ensures c == CommissionOf(amount)
  {
  }

  lemma CommissionStep(a: nat)
    ensures CommissionOf(a) <= CommissionOf(a + 1) <= CommissionOf(a) + 1
  {
    assert (a + 1) / 20 == a / 20 || ((a + 1) / 20 == a / 20 + 1 && (a + 1) % 20 == 0 && a % 20 == 19);
  }

  /** Neither party loses when the price rises, and what they get adds up to the price. */
  lemma {:induction false} CommissionMonotone(a: nat, b: nat)
    requires a <= b
    ensures CommissionOf(a) <= CommissionOf(b)
    ensures PayoutOf(a) <= PayoutOf(b)
    ensures CommissionOf(a) + PayoutOf(a) == a
    ensures a > 0 ==> PayoutOf(a) > 0
    decreases b - a
  {
    if a == b {
    } else {
      CommissionMonotone(a, b - 1);
      CommissionStep(b - 1);
    }
  }

  /** Sales of ten kobo or less earn no commission; every other sale earns some. */
  lemma CommissionPositive(a: nat)
    ensures CommissionOf(a) > 0 <==> a >= 11
  {
  }

  function TotalCommission(amounts: seq<nat>): nat {
    if amounts == [] then 0 else TotalCommission(amounts[..|amounts| - 1]) + CommissionOf(amounts[|amounts| - 1])
  }

  function TotalAmount(amounts: seq<nat>): nat {
    if amounts == [] then 0 else TotalAmount(amounts[..|amounts| - 1]) + amounts[|amounts| - 1]
  }

  /** Over any list of sales the rounding drifts by at most half a kobo a sale. */
  lemma {:induction false} CommissionDrift(amounts: seq<nat>)
    ensures -10 * |amounts| <= 20 * TotalCommission(amounts) - TotalAmount(amounts) <= 10 * |amounts|
  {
    if amounts == [] {
    } else {
      CommissionDrift(amounts[..|amounts| - 1]);
    }
  }
}
