/** Decimal numerals, string order and generated recovery ids. */
module Text {
  import Sorting

  // ---- Decimal numerals ----

  function Digit(d: nat): char
    requires d < 10
  {
    '0' + d as char
  }

  predicate IsDigit(c: char) {
    '0' <= c <= '9'
  }

  /** The usual decimal numeral. */
  function Decimal(n: nat): string {
    if n < 10 then [Digit(n)] else Decimal(n / 10) + [Digit(n % 10)]
  }

  function DecimalValue(s: string): int
    requires forall c :: c in s ==> IsDigit(c)
  {
    if s == [] then 0 else 10 * DecimalValue(s[..|s| - 1]) + (s[|s| - 1] as int - '0' as int)
  }

  lemma {:induction false} DecimalRoundTrip(n: nat)
    ensures Decimal(n) != []
    ensures forall c :: c in Decimal(n) ==> IsDigit(c)
    ensures DecimalValue(Decimal(n)) == n
  {
    var s := Decimal(n);
    if n >= 10 {
      DecimalRoundTrip(n / 10);
      assert s[..|s| - 1] == Decimal(n / 10);
      assert s[|s| - 1] == Digit(n % 10);
    } else {
      assert s[..|s| - 1] == [];
    }
  }

  /** The digits, the most significant first. */
  lemma DecimalDigits(n: nat)
    ensures n < 10 ==> Decimal(n) == ["0123456789"[n]]
    ensures n >= 10 ==> Decimal(n) == Decimal(n / 10) + ["0123456789"[n % 10]]
  {
  }

  lemma DecimalInjective(m: nat, n: nat)
    requires Decimal(m) == Decimal(n)
    ensures m == n
  {
    DecimalRoundTrip(m);
    DecimalRoundTrip(n);
  }

  // ---- Generated recovery ids ----

  /** The id of the recovery task generated for an attempt at a failed task. */
  function RecoveryId(failed: string, attempt: nat): string {
    "recovery_" + failed + "_" + Decimal(attempt)
  }

  /** What follows the last underscore. */
  function AfterUnderscore(s: string): string {
    if s == [] || s[|s| - 1] == '_' then [] else AfterUnderscore(s[..|s| - 1]) + [s[|s| - 1]]
  }

  lemma {:induction false} AfterUnderscoreOf(x: string, d: string)
    requires '_' !in d
    ensures AfterUnderscore(x + "_" + d) == d
  {
    var s := x + "_" + d;
    if d != [] {
      assert s[..|s| - 1] == x + "_" + d[..|d| - 1];
      AfterUnderscoreOf(x, d[..|d| - 1]);
    }
  }

  lemma CancelAffixes(p: string, x: string, y: string, q: string, r: string)
    requires p + x + q + r == p + y + q + r
    ensures x == y
  {
    var s := p + x + q + r;
    assert |x| == |y|;
    assert x == s[|p|..|p| + |x|];
    assert y == s[|p|..|p| + |y|];
  }

  /** The last underscore separates the failed id from the attempt. */
  lemma RecoveryIdInjective(x: string, m: nat, y: string, n: nat)
    requires RecoveryId(x, m) == RecoveryId(y, n)
    ensures x == y && m == n
  {
    DecimalRoundTrip(m);
    DecimalRoundTrip(n);
    AfterUnderscoreOf("recovery_" + x, Decimal(m));
    AfterUnderscoreOf("recovery_" + y, Decimal(n));
    DecimalInjective(m, n);
    CancelAffixes("recovery_", x, y, "_", Decimal(m));
  }

  // ---- String order ----

  /** Lexicographic order by code point, as Rust compares strings. */
  predicate LexLeq(a: string, b: string) {
    a == [] || (b != [] && (a[0] < b[0] || (a[0] == b[0] && LexLeq(a[1..], b[1..]))))
  }

  lemma {:induction false} LexTotal(a: string, b: string)
    ensures LexLeq(a, b) || LexLeq(b, a)
  {
    if a != [] && b != [] && a[0] == b[0] {
      LexTotal(a[1..], b[1..]);
    }
  }

  lemma {:induction false} LexAntisymmetric(a: string, b: string)
    requires LexLeq(a, b) && LexLeq(b, a)
    ensures a == b
  {
    if a != [] {
      LexAntisymmetric(a[1..], b[1..]);
      assert a == [a[0]] + a[1..] && b == [b[0]] + b[1..];
    }
  }

  lemma {:induction false} LexTransitive(a: string, b: string, c: string)
    requires LexLeq(a, b) && LexLeq(b, c)
    ensures LexLeq(a, c)
  {
    if a != [] && a[0] == b[0] && b[0] == c[0] {
      LexTransitive(a[1..], b[1..], c[1..]);
    }
  }

  lemma LexIsOrder()
    ensures Sorting.TotalPreorder(LexLeq)
  {
    forall a, b ensures LexLeq(a, b) || LexLeq(b, a) {
      LexTotal(a, b);
    }
    forall a, b, c | LexLeq(a, b) && LexLeq(b, c) ensures LexLeq(a, c) {
      LexTransitive(a, b, c);
    }
  }

  /** A string comes before another when it begins it, or is smaller where the two first differ. */
  lemma {:induction false} LexIff(a: string, b: string)
    ensures LexLeq(a, b) <==> a <= b || exists k :: FirstDifference(a, b, k) && a[k] < b[k]
    decreases |a|
  {
    if a != [] && b != [] && a[0] == b[0] {
      LexIff(a[1..], b[1..]);
      assert a == [a[0]] + a[1..] && b == [b[0]] + b[1..];
      if k :| FirstDifference(a[1..], b[1..], k) && a[1..][k] < b[1..][k] {
        assert FirstDifference(a, b, k + 1);
      }
      if k :| FirstDifference(a, b, k) && a[k] < b[k] {
        assert FirstDifference(a[1..], b[1..], k - 1);
      }
    } else if a != [] && b != [] {
      assert FirstDifference(a, b, 0);
    }
  }

  ghost predicate FirstDifference(a: string, b: string, k: int) {
    && 0 <= k < |a| && k < |b| && a[k] != b[k]
    && forall i :: 0 <= i < k ==> a[i] == b[i]
  }
}
