/** Strings as the store sees them: character counts, Go's string order, and the
    ascending enumeration of a finite set of keys. */
module Text {
  import opened Results

  function Count(s: string, c: char): nat {
    if s == [] then 0 else (if s[0] == c then 1 else 0) + Count(s[1..], c)
  }

  lemma {:induction false} CountConcat(a: string, b: string, c: char)
    ensures Count(a + b, c) == Count(a, c) + Count(b, c)
  {
    if a == [] {
      assert a + b == b;
    } else {
      assert (a + b)[1..] == a[1..] + b;
      CountConcat(a[1..], b, c);
    }
  }

  lemma {:induction false} CountZero(s: string, c: char)
    ensures Count(s, c) == 0 <==> c !in s
  {
    if s != [] {
      assert s == [s[0]] + s[1..];
      CountZero(s[1..], c);
    }
  }

  /** Strict order of Go strings. */
  predicate Less(a: string, b: string) {
    b != [] && (a == [] || a[0] < b[0] || (a[0] == b[0] && Less(a[1..], b[1..])))
  }

  lemma {:induction false} LessTotal(a: string, b: string)
    ensures Less(a, b) || a == b || Less(b, a)
  {
    if a != [] && b != [] && a[0] == b[0] {
      LessTotal(a[1..], b[1..]);
      assert a == [a[0]] + a[1..] && b == [b[0]] + b[1..];
    }
  }

  lemma {:induction false} LessAsymmetric(a: string, b: string)
    requires Less(a, b)
    ensures a != b && !Less(b, a)
  {
    if a != [] && a[0] == b[0] {
      LessAsymmetric(a[1..], b[1..]);
    }
  }

  lemma {:induction false} LessTransitive(a: string, b: string, c: string)
    requires Less(a, b) && Less(b, c)
    ensures Less(a, c)
  {
    if a != [] && a[0] == b[0] == c[0] {
      LessTransitive(a[1..], b[1..], c[1..]);
    }
  }

  lemma {:induction false} LessPrefix(p: string, a: string, b: string)
    ensures Less(p + a, p + b) <==> Less(a, b)
  {
    if p == [] {
      assert p + a == a && p + b == b;
    } else {
      assert (p + a)[1..] == p[1..] + a && (p + b)[1..] == p[1..] + b;
      LessPrefix(p[1..], a, b);
    }
  }

  ghost predicate Ascending(s: seq<string>) {
    forall i, j | 0 <= i < j < |s| :: Less(s[i], s[j])
  }

  predicate IsLeast(m: string, s: set<string>) {
    m in s && forall x | x in s && x != m :: Less(m, x)
  }

  lemma {:induction false} LeastExists(s: set<string>)
    requires s != {}
    ensures exists m :: IsLeast(m, s)
  {
    var x :| x in s;
    if s == {x} {
      assert IsLeast(x, s);
    } else {
      LeastExists(s - {x});
      var m :| IsLeast(m, s - {x});
      LessTotal(m, x);
      if Less(m, x) {
        assert IsLeast(m, s);
      } else {
        forall y | y in s && y != x ensures Less(x, y) {
          if y != m { LessTransitive(x, m, y); }
        }
        assert IsLeast(x, s);
      }
    }
  }

  lemma LeastUnique(s: set<string>)
    ensures forall m, n | IsLeast(m, s) && IsLeast(n, s) :: m == n
  {
    forall m, n | IsLeast(m, s) && IsLeast(n, s) ensures m == n {
      if m != n { LessAsymmetric(m, n); }
    }
  }

  function Least(s: set<string>): (m: string)
    requires s != {}
    ensures IsLeast(m, s)
  {
    LeastExists(s);
    LeastUnique(s);
    var m :| m in s && IsLeast(m, s);
    m
  }

  /** The elements of a set in ascending order: what an iterator over the ordered
      key space yields. */
  function Enumerate(s: set<string>): (r: seq<string>)
    ensures Ascending(r)
    ensures forall x :: x in r <==> x in s
    ensures |r| == |s|
  {
    if s == {} then
      []
    else
      var m := Least(s);
      var rest := Enumerate(s - {m});
      assert forall x :: x in [m] + rest <==> x in s;
      assert forall j | 0 <= j < |rest| :: rest[j] in s - {m};
      [m] + rest
  }

  lemma AscendingDistinct(r: seq<string>)
    requires Ascending(r)
    ensures forall i, j | 0 <= i < j < |r| :: r[i] != r[j]
  {
    forall i, j | 0 <= i < j < |r| ensures r[i] != r[j] {
      LessAsymmetric(r[i], r[j]);
    }
  }

  lemma InTail(r: seq<string>, x: string)
    requires r != [] && Ascending(r)
    ensures x in r[1..] <==> x in r && x != r[0]
  {
    AscendingDistinct(r);
    assert r == [r[0]] + r[1..];
    if x in r[1..] {
      var k :| 0 <= k < |r[1..]| && r[1..][k] == x;
      assert r[k + 1] == x;
    }
  }

  lemma {:induction false} AscendingUnique(r: seq<string>, t: seq<string>)
    requires Ascending(r) && Ascending(t)
    requires forall x :: x in r <==> x in t
    ensures r == t
  {
    if r == [] {
      assert forall i | 0 <= i < |t| :: t[i] in t;
    } else {
      assert r[0] in t;
      assert t[0] in r;
      var i :| 0 <= i < |t| && t[i] == r[0];
      var j :| 0 <= j < |r| && r[j] == t[0];
      if r[0] != t[0] {
        LessAsymmetric(r[0], t[0]);
      }
      AscendingDistinct(r);
      AscendingDistinct(t);
      forall x ensures x in r[1..] <==> x in t[1..] {
        InTail(r, x);
        InTail(t, x);
      }
      AscendingUnique(r[1..], t[1..]);
    }
  }

  /** The members of r that lie in keep, in r's order. */
  ghost function Restrict(r: seq<string>, keep: set<string>): (t: seq<string>)
    ensures forall x :: x in t <==> x in r && x in keep
    ensures Ascending(r) ==> Ascending(t)
  {
    if r == [] then
      []
    else
      var rest := Restrict(r[1..], keep);
      assert r == [r[0]] + r[1..];
      assert Ascending(r) ==> forall j | 0 <= j < |rest| :: rest[j] in r[1..] && Less(r[0], rest[j]);
      if r[0] in keep then [r[0]] + rest else rest
  }

  // ---------- decimal numerals ----------

  function Digit(d: nat): char
    requires d < 10
  {
    '0' + d as char
  }

  function DigitValue(c: char): nat
    requires '0' <= c <= '9'
  {
    (c - '0') as nat
  }

  predicate AllDigits(s: string) {
    forall i | 0 <= i < |s| :: '0' <= s[i] <= '9'
  }

  /** Decimal rendering of a non-negative integer. */
  function Decimal(n: nat): string {
    if n < 10 then [Digit(n)] else Decimal(n / 10) + [Digit(n % 10)]
  }

  /** The number a digit string denotes. */
  function FromDecimal(s: string): nat
    requires AllDigits(s)
  {
    if s == [] then 0 else FromDecimal(s[..|s| - 1]) * 10 + DigitValue(s[|s| - 1])
  }

  lemma {:induction false} DecimalDigits(n: nat)
    ensures Decimal(n) != [] && AllDigits(Decimal(n))
    ensures ':' !in Decimal(n)
  {
    if n >= 10 { DecimalDigits(n / 10); }
  }

  lemma {:induction false} DecimalInverse(n: nat)
    ensures AllDigits(Decimal(n)) && FromDecimal(Decimal(n)) == n
  {
    DecimalDigits(n);
    if n >= 10 {
      DecimalInverse(n / 10);
      assert Decimal(n)[..|Decimal(n)| - 1] == Decimal(n / 10);
    } else {
      assert Decimal(n)[..0] == [];
    }
  }

  // ---------- signed numerals ----------

  function SignedDecimal(n: int): string {
    if n < 0 then "-" + Decimal(-n) else Decimal(n)
  }

  const MIN_INT64: int := -0x8000_0000_0000_0000
  const MAX_INT64: int := 0x7FFF_FFFF_FFFF_FFFF

  /** Base-ten parsing into 64 bits: an optional sign and digits, failing on anything
      else and outside the range. */
  function ParseInt64(s: string): Option<int> {
    var body := if s != "" && (s[0] == '+' || s[0] == '-') then s[1..] else s;
    if body == "" || !AllDigits(body) then
      None
    else
      var n: int := if s[0] == '-' then 0 - FromDecimal(body) else FromDecimal(body);
      if MIN_INT64 <= n <= MAX_INT64 then Some(n) else None
  }

  lemma SignedDigits(n: int)
    ensures SignedDecimal(n) != "" && ':' !in SignedDecimal(n)
  {
    hide Decimal;
    if n < 0 {
      DecimalDigits(-n);
    } else {
      DecimalDigits(n);
    }
  }

  lemma ParseSigned(n: int)
    requires MIN_INT64 <= n <= MAX_INT64
    ensures ParseInt64(SignedDecimal(n)) == Some(n)
  {
    hide Decimal, FromDecimal;
    var a: nat := if n < 0 then -n else n;
    DecimalDigits(a);
    DecimalInverse(a);
    assert Decimal(a)[0] != '-' && Decimal(a)[0] != '+';
    if n < 0 { assert SignedDecimal(n)[1..] == Decimal(a); }
  }

  /** Different integers have different numerals. */
  lemma SignedInjective(n: int, k: int)
    requires SignedDecimal(n) == SignedDecimal(k)
    ensures n == k
  {
    hide Decimal, FromDecimal;
    var a: nat := if n < 0 then -n else n;
    var b: nat := if k < 0 then -k else k;
    DecimalDigits(a);
    DecimalDigits(b);
    DecimalInverse(a);
    DecimalInverse(b);
    assert Decimal(a)[0] != '-' && Decimal(b)[0] != '-';
    if n < 0 { assert SignedDecimal(n)[1..] == Decimal(a); }
    if k < 0 { assert SignedDecimal(k)[1..] == Decimal(b); }
  }
}
