/** Division facts and witnesses that the solver needs spelled out. */
module Arithmetic {

  lemma Pick<T>(s: set<T>) returns (x: T)
    requires s != {}
    ensures x in s
  {
    x :| x in s;
  }

  lemma KeyOf<K, V>(m: map<K, V>, v: V) returns (k: K)
    requires v in m.Values
    ensures k in m && m[k] == v
  {
    k :| k in m && m[k] == v;
  }

  lemma MulLower(d: int, k: int)
    requires d >= 1 && k > 0
    ensures d * k >= k
  {
    assert (d - 1) * k >= 0;
  }

  lemma QuotientUnique(k: int, q1: int, r1: int, q2: int, r2: int)
    requires 0 <= r1 < k && 0 <= r2 < k && q1 * k + r1 == q2 * k + r2
    ensures q1 == q2 && r1 == r2
  {
    assert (q2 - q1) * k == r1 - r2;
    if q2 > q1 { MulLower(q2 - q1, k); }
    if q1 > q2 { MulLower(q1 - q2, k); }
  }

  lemma DivModUnique(a: int, k: int, q: int, r: int)
    requires 0 <= r < k && a == q * k + r
    ensures a / k == q && a % k == r
  {
    QuotientUnique(k, q, r, a / k, a % k);
  }

  lemma DivModStep(n: nat, k: nat)
    requires k > 0
    ensures n % k + 1 == k ==> (n + 1) / k == n / k + 1 && (n + 1) % k == 0
    ensures n % k + 1 < k ==> (n + 1) / k == n / k && (n + 1) % k == n % k + 1
  {
    var q, r := n / k, n % k;
    assert n == q * k + r;
    if r + 1 == k {
      assert n + 1 == (q + 1) * k + 0;
      DivModUnique(n + 1, k, q + 1, 0);
    } else {
      assert n + 1 == q * k + (r + 1);
      DivModUnique(n + 1, k, q, r + 1);
    }
  }

  /** i modulo k, by counting down. */
  function Slot(i: nat, k: nat): (r: nat)
    requires k > 0
    ensures r < k && r <= i
    decreases i
  {
    if i < k then i else Slot(i - k, k)
  }

  lemma {:induction false} SlotIsMod(i: nat, k: nat)
    requires k > 0
    ensures Slot(i, k) == i % k
    decreases i
  {
    if i < k {
      DivModUnique(i, k, 0, i);
    } else {
      SlotIsMod(i - k, k);
      var q, r := (i - k) / k, (i - k) % k;
      assert i - k == q * k + r;
      assert i == (q + 1) * k + r;
      DivModUnique(i, k, q + 1, r);
    }
  }
}
