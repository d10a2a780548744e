/** Basis-point fees, rounded down per fill but reserved on a total. */
module Fees {

  const BPS_SCALE: nat := 10_000

  datatype FeeSchedule = FeeSchedule(makerBps: nat, takerBps: nat) {
    function MakerFee(amount: nat): nat {
      Fee(makerBps, amount)
    }

    function TakerFee(amount: nat): nat {
      Fee(takerBps, amount)
    }

    /** What a limit bid reserves its fee at, whichever role it ends up in. */
    function ReserveBps(): nat {
      if takerBps > makerBps then takerBps else makerBps
    }

    /** Maker fees of parts can fall short of the fee of the whole. */
    predicate MakerFeesRound() {
      makerBps % BPS_SCALE != 0
    }

    predicate Bounded() {
      makerBps <= BPS_SCALE && takerBps <= BPS_SCALE
    }
  }

  function Fee(bps: nat, amount: nat): nat {
    amount * bps / BPS_SCALE
  }

  /** Rust's `saturating_sub` on unsigned integers. */
  function SaturatingSub(x: nat, y: nat): nat {
    if y <= x then x - y else 0
  }

  lemma FloorSplit(x: nat, y: nat)
    ensures x / BPS_SCALE + y / BPS_SCALE <= (x + y) / BPS_SCALE <= x / BPS_SCALE + y / BPS_SCALE + 1
  {
  }

  /** Fees of the parts never exceed the fee of the whole, and fall short of it by at most one unit. */
  lemma FeeOfParts(bps: nat, x: nat, y: nat)
    ensures Fee(bps, x) + Fee(bps, y) <= Fee(bps, x + y) <= Fee(bps, x) + Fee(bps, y) + 1
  {
    assert (x + y) * bps == x * bps + y * bps;
    FloorSplit(x * bps, y * bps);
  }

  lemma WholeQuotient(n: nat)
    ensures n * BPS_SCALE / BPS_SCALE == n
  {
  }

  /** At a whole multiple of 100% nothing is rounded. */
  lemma WholeRateIsLinear(bps: nat, amount: nat)
    requires bps % BPS_SCALE == 0
    ensures Fee(bps, amount) == amount * (bps / BPS_SCALE)
  {
    var rate := bps / BPS_SCALE;
    assert bps == rate * BPS_SCALE;
    assert amount * bps == amount * rate * BPS_SCALE;
    WholeQuotient(amount * rate);
  }

  lemma WholeRateHasNoRemainder(bps: nat, x: nat, y: nat)
    requires bps % BPS_SCALE == 0
    ensures Fee(bps, x) + Fee(bps, y) == Fee(bps, x + y)
  {
    WholeRateIsLinear(bps, x);
    WholeRateIsLinear(bps, y);
    WholeRateIsLinear(bps, x + y);
    assert x * (bps / BPS_SCALE) + y * (bps / BPS_SCALE) == (x + y) * (bps / BPS_SCALE);
  }

  lemma FloorMonotone(x: nat, y: nat)
    requires x <= y
    ensures x / BPS_SCALE <= y / BPS_SCALE
  {
  }

  lemma ProductMonotone(a: nat, b: nat, x: nat, y: nat)
    requires a <= b && x <= y
    ensures a * x <= b * y
  {
    assert a * x <= b * x;
    assert b * x <= b * y;
  }

  lemma FeeMonotone(low: nat, high: nat, x: nat, y: nat)
    requires low <= high && x <= y
    ensures Fee(low, x) <= Fee(high, y)
  {
    ProductMonotone(x, y, low, high);
    FloorMonotone(x * low, y * high);
  }

  lemma FeeBelowAmount(bps: nat, amount: nat)
    requires bps <= BPS_SCALE
    ensures Fee(bps, amount) <= amount
  {
    ProductMonotone(amount, amount, bps, BPS_SCALE);
    FloorMonotone(amount * bps, amount * BPS_SCALE);
  }

  /** A fee can exceed the value it is taken from exactly when its rate is above 100%. */
  lemma {:induction false} FeeNeverExceedsAmountExactlyWhen(bps: nat)
    ensures (forall amount: nat :: Fee(bps, amount) <= amount) <==> bps <= BPS_SCALE
  {
    if bps <= BPS_SCALE {
      forall amount: nat ensures Fee(bps, amount) <= amount {
        FeeBelowAmount(bps, amount);
      }
    } else {
      assert Fee(bps, BPS_SCALE) == bps;
    }
  }
}
