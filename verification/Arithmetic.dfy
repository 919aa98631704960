/** Dividing and rounding up. */
module Arithmetic {

  /** Rounds up: how many groups of up to `k` it takes for `b`. */
  function CeilDiv(b: nat, k: nat): nat
    requires k > 0
  {
    (b + k - 1) / k
  }

  lemma TimesMonotone(a: int, b: int, k: nat)
    requires a <= b
    ensures a * k <= b * k
  {
    assert (b - a) * k >= 0;
  }

  lemma CeilDivUnique(b: nat, k: nat, s: nat)
    requires k > 0 && b <= s * k && (s == 0 || (s - 1) * k < b)
    ensures s == CeilDiv(b, k)
  {
    var t := CeilDiv(b, k);
    assert t * k <= b + k - 1 < t * k + k;
    assert (s - 1) * k == s * k - k && (t - 1) * k == t * k - k;
    if s < t {
      TimesMonotone(s, t - 1, k);
    } else if t < s {
      TimesMonotone(t, s - 1, k);
    }
  }

  lemma CeilDivBounds(b: nat, k: nat)
    requires k > 0 && b > 0
    ensures CeilDiv(b, k) >= 1
    ensures (CeilDiv(b, k) - 1) * k < b <= CeilDiv(b, k) * k
  {
    var t := CeilDiv(b, k);
    assert t * k <= b + k - 1 < t * k + k;
    assert (t - 1) * k == t * k - k;
    TimesZero(k);
  }

  lemma TimesZero(k: nat)
    ensures 0 * k == 0
  {
  }

  lemma DivBounds(i: nat, k: nat)
    requires k > 0
    ensures i / k * k <= i < (i / k + 1) * k
    ensures i == i / k * k + i % k
  {
    OneMoreTimes(i / k, k);
  }

  lemma OneMoreTimes(a: int, k: nat)
    ensures (a + 1) * k == a * k + k
  {
  }

  lemma DivUnique(a: nat, q: nat, k: nat, r: nat)
    requires a == q * k + r && r < k
    ensures a / k == q && a % k == r
  {
    DivBounds(a, k);
    if a / k < q {
      TimesMonotone(a / k + 1, q, k);
    } else if q < a / k {
      OneMoreTimes(q, k);
      TimesMonotone(q + 1, a / k, k);
    }
  }

  lemma NextQuotient(a: nat, q: nat, r: nat, k: nat)
    requires a == q * k + r && r < k
    ensures if r + 1 == k then (a + 1) / k == q + 1 && (a + 1) % k == 0 && (q + 1) * k == a + 1
            else (a + 1) / k == q && (a + 1) % k == r + 1
  {
    OneMoreTimes(q, k);
    if r + 1 == k {
      DivUnique(a + 1, q + 1, k, 0);
    } else {
      DivUnique(a + 1, q, k, r + 1);
    }
  }
}
