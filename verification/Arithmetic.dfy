/** Facts about products and quotients. */
module Arithmetic {

  lemma MulSign(q: int, v: nat)
    ensures q >= 1 ==> q * v >= v
    ensures q <= -1 ==> q * v <= -(v as int)
    ensures v > 0 && q >= 0 ==> q * v >= q
  {
  }

  lemma MulMonotone(a: int, b: int, c: nat)
    requires a <= b
    ensures a * c <= b * c
  {
  }

  lemma MulStrict(a: nat, b: nat, v: int)
    requires a < b && v > 0
    ensures a * v < b * v
  {
  }

  lemma DivMod(x: nat, w: nat, q: int, r: nat)
    requires r < w && x == q * w + r
    ensures x % w == r && x / w == q
  {
    var d := x / w - q;
    assert d * w == (x / w) * w - q * w == r - x % w;
    MulSign(d, w);
  }

  lemma ModStep(k: nat, w: nat)
    requires w > 0
    ensures (k + w) % w == k % w
  {
    var q := k / w + 1;
    assert q * w == (k / w) * w + w;
    DivMod(k + w, w, q, k % w);
  }

  lemma ModUnique(n: nat, k: nat, w: nat)
    requires w > 0 && n <= k < n + w && k % w == n % w
    ensures k == n
  {
    var d := k / w - n / w;
    assert d * w == (k / w) * w - (n / w) * w == k - n;
    MulSign(d, w);
  }

  lemma QuotientNonNegative(n: nat, w: nat)
    requires w > 0
    ensures n / w >= 0
  {
  }
}
