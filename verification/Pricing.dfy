/** Quotes, tax, the cancellation penalty and the refund (internal/pricing/pricing.go).

    Every amount is a whole number of cents and every rate a whole number of
    hundred-thousandths. Division is Go's, which truncates toward zero. */
module Pricing {
  import opened Common

  const RATE_SCALE := 100_000
  const BALANCE_LEAD_DAYS := 7
  const SHORT_NOTICE_DAYS := 8

  /** The resolved amounts of one stay. */
  datatype Quote = Quote(subtotal: int, taxable: int, tax: int, total: int, deposit: int, balance: int)
  {
    function ChargeAtBooking(shortNotice: bool): int {
      if shortNotice then total else deposit
    }

    function Penalty(late: bool): int {
      if late then deposit else 0
    }

    function Retained(paid: int, late: bool, processing: int): int {
      var fee := ProcessingFee(paid, processing);
      if fee > Penalty(late) then fee else Penalty(late)
    }

    function Refund(paid: int, late: bool, processing: int): int {
      var refund := paid - Retained(paid, late, processing);
      if refund < 0 then 0 else refund
    }
  }

  function Tax(base: int, rate: int): int {
    TruncDiv(base * rate + RATE_SCALE / 2, RATE_SCALE)
  }

  function CeilScaled(base: int, rate: int): int {
    TruncDiv(base * rate + RATE_SCALE - 1, RATE_SCALE)
  }

  function HalfRoundedUp(n: int): int {
    TruncDiv(n + 1, 2)
  }

  function ProcessingFee(paid: int, rate: int): int {
    if paid <= 0 || rate <= 0 then 0 else CeilScaled(paid, rate)
  }

  /** Civil dates are day numbers. */
  predicate IsShortNotice(today: int, checkin: int) {
    checkin < today + SHORT_NOTICE_DAYS
  }

  predicate IsLateCancellation(on: int, checkin: int) {
    checkin < on + BALANCE_LEAD_DAYS
  }

  function BalanceChargeDate(checkin: int): int {
    checkin - BALANCE_LEAD_DAYS
  }

  /** Resolves the nightly prices into a quote, one pass over the nights. */
  method Compute(nightly: seq<int>, rate: int) returns (q: Quote)
    requires rate >= 0 && forall i :: 0 <= i < |nightly| ==> nightly[i] >= 0
    ensures q.subtotal == q.taxable == Sum(nightly)
    // the tax is the exact product, rounded to the nearest cent and up on a tie
    ensures -RATE_SCALE <= 2 * (q.taxable * rate - RATE_SCALE * q.tax) < RATE_SCALE
    ensures q.total == q.subtotal + q.tax
    // deposit and balance lose no cent, and the odd one goes to the deposit
    ensures q.deposit + q.balance == q.total
    ensures 0 <= q.deposit - q.balance <= 1
  {
    var subtotal := 0;
    for i := 0 to |nightly|
      invariant subtotal == Sum(nightly[..i])
      invariant subtotal >= 0
    {
      assert nightly[..i + 1] == nightly[..i] + [nightly[i]];
      SumAppend(nightly[..i], nightly[i]);
      subtotal := subtotal + nightly[i];
    }
    assert nightly[..|nightly|] == nightly;
    var tax := Tax(subtotal, rate);
    TaxIsNearestCent(subtotal, rate);
    var total := subtotal + tax;
    var deposit := HalfRoundedUp(total);
    q := Quote(subtotal, subtotal, tax, total, deposit, total - deposit);
  }

  /** Half up: the error of one rounding is more than minus and at most half a cent. */
  lemma {:induction false} TaxIsNearestCent(base: int, rate: int)
    requires base >= 0 && rate >= 0
    ensures Tax(base, rate) >= 0
    ensures -RATE_SCALE <= 2 * (base * rate - RATE_SCALE * Tax(base, rate)) < RATE_SCALE
  {
    var product := base * rate;
    assert product >= 0;
    var shifted := product + RATE_SCALE / 2;
    assert Tax(base, rate) == shifted / RATE_SCALE;
  }

  /** What rounding every night on its own would have come to. */
  function NightlyTaxes(nightly: seq<int>, rate: int): int {
    if |nightly| == 0 then 0
    else NightlyTaxes(nightly[..|nightly| - 1], rate) + Tax(nightly[|nightly| - 1], rate)
  }

  lemma {:induction false} NightlyTaxesDrift(nightly: seq<int>, rate: int)
    requires rate >= 0 && forall i :: 0 <= i < |nightly| ==> nightly[i] >= 0
    ensures Sum(nightly) >= 0
    ensures -RATE_SCALE * |nightly|
         <= 2 * (Sum(nightly) * rate - RATE_SCALE * NightlyTaxes(nightly, rate))
         <= RATE_SCALE * |nightly|
  {
    if |nightly| > 0 {
      var init, last := nightly[..|nightly| - 1], nightly[|nightly| - 1];
      NightlyTaxesDrift(init, rate);
      TaxIsNearestCent(last, rate);
      assert Sum(nightly) * rate == Sum(init) * rate + last * rate;
    }
  }

  /** Taxing the whole base once stays within (n + 1) / 2 cents of the sum of
      n separately rounded nights, whatever the nights cost. */
  lemma {:induction false} TaxOnceAgainstTaxPerNight(nightly: seq<int>, rate: int)
    requires rate >= 0 && forall i :: 0 <= i < |nightly| ==> nightly[i] >= 0
    ensures -(|nightly| + 1) <= 2 * (Tax(Sum(nightly), rate) - NightlyTaxes(nightly, rate)) <= |nightly| + 1
  {
    NightlyTaxesDrift(nightly, rate);
    TaxIsNearestCent(Sum(nightly), rate);
    var once, apart, exact := Tax(Sum(nightly), rate), NightlyTaxes(nightly, rate), Sum(nightly) * rate;
    assert 2 * RATE_SCALE * (once - apart)
        == 2 * (exact - RATE_SCALE * apart) - 2 * (exact - RATE_SCALE * once);
  }

  lemma {:induction false} ProductBelow(paid: int, rate: int, scale: int)
    requires paid >= 0 && 0 <= rate < scale
    ensures 0 <= paid * rate <= paid * scale - paid
  {
    var slack := scale - 1 - rate;
    assert paid * slack >= 0;
    assert paid * scale == paid * rate + paid * slack + paid by {
      assert scale == rate + slack + 1;
    }
  }

  lemma {:induction false} CeilingOf(product: int)
    requires product >= 0
    ensures product <= RATE_SCALE * TruncDiv(product + RATE_SCALE - 1, RATE_SCALE) < product + RATE_SCALE
  {
  }

  /** The fee is the least whole number of cents covering the exact cut, and
      never more than what was paid. */
  lemma {:induction false} FeeIsCeiling(paid: int, rate: int)
    requires paid >= 0 && 0 <= rate < RATE_SCALE
    ensures 0 <= ProcessingFee(paid, rate) <= paid
    ensures paid * rate <= RATE_SCALE * ProcessingFee(paid, rate) < paid * rate + RATE_SCALE
  {
    ProductBelow(paid, rate, RATE_SCALE);
    if paid > 0 && rate > 0 {
      CeilingOf(paid * rate);
    } else {
      assert paid * rate == 0;
    }
  }

  lemma {:induction false} FeeGrowsSlowly(paid: int, rate: int)
    requires paid >= 0 && 0 <= rate < RATE_SCALE
    ensures 0 <= ProcessingFee(paid + 1, rate) - ProcessingFee(paid, rate) <= 1
  {
    FeeIsCeiling(paid, rate);
    FeeIsCeiling(paid + 1, rate);
    assert (paid + 1) * rate == paid * rate + rate;
  }

  /** Everything the refund arithmetic promises, for all non-negative amounts
      and all rates under 100 percent. */
  lemma {:induction false} RefundArithmetic(q: Quote, paid: int, late: bool, rate: int)
    requires paid >= 0 && q.deposit >= 0 && 0 <= rate < RATE_SCALE
    ensures 0 <= q.Refund(paid, late, rate) <= paid
    ensures q.Refund(paid, true, rate) <= q.Refund(paid, false, rate)
    // nothing is kept beyond the larger of penalty and fee, and nothing less
    ensures q.Retained(paid, late, rate) <= paid
       <==> q.Refund(paid, late, rate) + q.Retained(paid, late, rate) == paid
    // a cent more collected returns a cent more or the same, never less
    ensures 0 <= q.Refund(paid + 1, late, rate) - q.Refund(paid, late, rate) <= 1
    // only the deposit collected: a late cancellation returns nothing
    ensures q.Refund(q.deposit, true, rate) == 0
    // decision #9's ordinary late case: the balance goes back, the deposit stays
    ensures late && ProcessingFee(paid, rate) <= q.deposit <= paid ==> q.Refund(paid, late, rate) == paid - q.deposit
  {
    FeeIsCeiling(paid, rate);
    FeeIsCeiling(q.deposit, rate);
    FeeGrowsSlowly(paid, rate);
  }
}
