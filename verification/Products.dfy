/** Products and quotients of sizes, for row-major indices and ratios. */
module Products {

  lemma MulMonotone(k: nat, a: nat, b: nat)
    requires a <= b
    ensures k * a <= k * b && a * k <= b * k
  {
  }

  /** Cancelling a factor. */
  lemma MulCancel(k: nat, a: nat, b: nat)
    ensures k * a < k * b ==> a < b
  {
    if b <= a {
      MulMonotone(k, b, a);
    }
  }

  lemma QuotientBounds(a: nat, b: nat)
    requires b > 0
    ensures b * (a / b) <= a < b * (a / b) + b
  {
    assert a == b * (a / b) + a % b;
  }

  lemma QuotientAtLeastIff(a: nat, b: nat, q: nat)
    requires b > 0
    ensures q <= a / b <==> q * b <= a
  {
    QuotientBounds(a, b);
    if q <= a / b {
      MulMonotone(b, q, a / b);
    } else {
      MulMonotone(b, a / b + 1, q);
      assert b * (a / b + 1) == b * (a / b) + b;
    }
  }

  lemma QuotientZeroIff(a: nat, b: nat)
    requires b > 0
    ensures a / b == 0 <==> a < b
  {
    QuotientBounds(a, b);
    if a / b > 0 {
      MulMonotone(b, 1, a / b);
    }
  }

  /** Row and column of a row-major index. */
  lemma DivModOf(w: nat, r: nat, c: nat)
    requires c < w
    ensures (w * r + c) / w == r && (w * r + c) % w == c
  {
    var q := (w * r + c) / w;
    QuotientBounds(w * r + c, w);
    assert w * (q + 1) == w * q + w && w * (r + 1) == w * r + w;
    MulCancel(w, q, r + 1);
    MulCancel(w, r, q + 1);
  }

  /** The row of an index into n whole rows. */
  lemma DivBelow(w: nat, n: nat, k: nat)
    requires k < w * n
    ensures w > 0 && 0 <= k / w < n && 0 <= k % w < w
  {
    QuotientBounds(k, w);
    MulCancel(w, k / w, n);
  }
}
