/** Arithmetic of the final pro-rata refund (ignite-pay-program/src/lib.rs:840-863). */
module ProRata {
  import opened Arithmetic
  import opened Bytes
  import opened Channel

  /** floor(n / d) in product form. */
  lemma DivFacts(n: nat, d: nat)
    requires d > 0
    ensures (n / d) * d <= n < (n / d) * d + d
  {
  }

  lemma RatioBounds(a: nat, total: nat)
    requires 0 < total && a <= total
    ensures RatioA(a, total) <= RATIO_SCALE
    ensures RatioA(a, total) * total <= a * RATIO_SCALE < RatioA(a, total) * total + total
    ensures a == total ==> RatioA(a, total) == RATIO_SCALE
  {
    var r := RatioA(a, total);
    DivFacts(a * RATIO_SCALE, total);
    if r > RATIO_SCALE { MulMono(total, RATIO_SCALE + 1, r); }
    if a == total && r < RATIO_SCALE { MulMono(total, r + 1, RATIO_SCALE); }
  }

  lemma RefundBounds(unclaimed: nat, ratio: nat)
    requires ratio <= RATIO_SCALE
    ensures unclaimed * ratio / RATIO_SCALE <= unclaimed
    ensures unclaimed * ratio / RATIO_SCALE * RATIO_SCALE <= unclaimed * ratio
    ensures unclaimed * ratio < unclaimed * ratio / RATIO_SCALE * RATIO_SCALE + RATIO_SCALE
    ensures ratio == RATIO_SCALE ==> unclaimed * ratio / RATIO_SCALE == unclaimed
  {
    MulMono(unclaimed, ratio, RATIO_SCALE);
  }

  /** The user's refund never exceeds the exact share unclaimed * a / total, and falls short of it by
      less than unclaimed / 10^6 + 1; a sole funder gets everything. */
  lemma RefundNearExactShare(unclaimed: nat, a: nat, total: nat)
    requires 0 < total && a <= total
    ensures RefundA(unclaimed, a, total) <= unclaimed
    ensures RefundA(unclaimed, a, total) * total <= unclaimed * a
    ensures (unclaimed * a - RefundA(unclaimed, a, total) * total) * RATIO_SCALE < total * (unclaimed + RATIO_SCALE)
    ensures a == total ==> RefundA(unclaimed, a, total) == unclaimed
  {
    var r := RatioA(a, total);
    var f := RefundA(unclaimed, a, total);
    RatioBounds(a, total);
    RefundBounds(unclaimed, r);
    assert f * RATIO_SCALE <= unclaimed * r < f * RATIO_SCALE + RATIO_SCALE;
    UpperBound(unclaimed, a, total, r, f);
    LowerBound(unclaimed, a, total, r, f);
  }

  lemma UpperBound(u: nat, a: nat, total: nat, r: nat, f: nat)
    requires f * RATIO_SCALE <= u * r && r * total <= a * RATIO_SCALE
    ensures f * total <= u * a
  {
    MulMono(total, f * RATIO_SCALE, u * r);
    MulMono(u, r * total, a * RATIO_SCALE);
    assert (f * total) * RATIO_SCALE == total * (f * RATIO_SCALE);
    assert total * (u * r) == u * (r * total);
    assert u * (a * RATIO_SCALE) == (u * a) * RATIO_SCALE;
  }

  lemma LowerBound(u: nat, a: nat, total: nat, r: nat, f: nat)
    requires total > 0
    requires u * r < f * RATIO_SCALE + RATIO_SCALE && a * RATIO_SCALE < r * total + total
    ensures (u * a - f * total) * RATIO_SCALE < total * (u + RATIO_SCALE)
  {
    MulMono(u, a * RATIO_SCALE, r * total + total);
    MulMono(total, u * r + 1, f * RATIO_SCALE + RATIO_SCALE);
    assert u * (a * RATIO_SCALE) == (u * a) * RATIO_SCALE;
    assert u * (r * total + total) == total * (u * r) + total * u by {
      assert u * (r * total + total) == u * (r * total) + u * total;
      assert u * (r * total) == total * (u * r);
    }
    assert total * (f * RATIO_SCALE + RATIO_SCALE) == (f * total) * RATIO_SCALE + total * RATIO_SCALE by {
      assert total * (f * RATIO_SCALE + RATIO_SCALE) == total * (f * RATIO_SCALE) + total * RATIO_SCALE;
      assert total * (f * RATIO_SCALE) == (f * total) * RATIO_SCALE;
    }
    assert total * (u * r + 1) == total * (u * r) + total;
    assert total * (u + RATIO_SCALE) == total * u + total * RATIO_SCALE;
    assert (u * a - f * total) * RATIO_SCALE == (u * a) * RATIO_SCALE - (f * total) * RATIO_SCALE;
  }

  /** With deposits that fit u64 no checked operation of the refund fails and the cast to u64 loses
      nothing: the refunds are the exact formula and add up to the unclaimed amount. */
  lemma RefundArithmeticNeverFails(unclaimed: u64, depositA: u64, depositB: u64)
    requires 0 < depositA + depositB <= U64_MAX
    ensures CheckedRefunds(unclaimed, depositA, depositB).Ok?
    ensures CheckedRefunds(unclaimed, depositA, depositB).value.0 == RefundA(unclaimed, depositA, depositA + depositB)
    ensures CheckedRefunds(unclaimed, depositA, depositB).value.0 + CheckedRefunds(unclaimed, depositA, depositB).value.1 == unclaimed
  {
    var total := depositA + depositB;
    RatioBounds(depositA, total);
    MulMono(unclaimed, RatioA(depositA, total), RATIO_SCALE);
    RefundNearExactShare(unclaimed, depositA, total);
  }

  /** `a` and `b` share `unclaimed` so that `a` is the exact share of `depositA` in the total, rounded
      down by less than unclaimed / 10^6 + 1, and a sole funder gets everything. */
  ghost predicate FairSplit(a: nat, b: nat, unclaimed: nat, depositA: nat, depositB: nat)
  {
    var total := depositA + depositB;
    && a + b == unclaimed
    && a * total <= unclaimed * depositA
    && (unclaimed * depositA - a * total) * RATIO_SCALE < total * (unclaimed + RATIO_SCALE)
    && (depositB == 0 ==> a == unclaimed)
  }

  lemma RefundsAreFair(unclaimed: u64, depositA: u64, depositB: u64) returns (a: u64, b: u64)
    requires 0 < depositA + depositB <= U64_MAX
    ensures CheckedRefunds(unclaimed, depositA, depositB) == Ok((a, b))
    ensures FairSplit(a, b, unclaimed, depositA, depositB)
  {
    RefundArithmeticNeverFails(unclaimed, depositA, depositB);
    RefundNearExactShare(unclaimed, depositA, depositA + depositB);
    var refunds := CheckedRefunds(unclaimed, depositA, depositB).value;
    a, b := refunds.0, refunds.1;
  }
}
