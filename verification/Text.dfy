/** Strings as the Go code compares and prints them. */
module Text {
  import opened Sequences

  /** Strict lexicographic order. */
  predicate StringLess(a: string, b: string) {
    if b == [] then false
    else if a == [] then true
    else a[0] < b[0] || (a[0] == b[0] && StringLess(a[1..], b[1..]))
  }

  predicate StringLe(a: string, b: string) {
    !StringLess(b, a)
  }

  lemma {:induction false} StringLessTotal(a: string, b: string)
    ensures StringLess(a, b) || StringLess(b, a) || a == b
    ensures !(StringLess(a, b) && StringLess(b, a))
  {
    if a != [] && b != [] {
      StringLessTotal(a[1..], b[1..]);
      assert a == [a[0]] + a[1..] && b == [b[0]] + b[1..];
    }
  }

  lemma {:induction false} StringLessTransitive(a: string, b: string, c: string)
    requires StringLess(a, b) && StringLess(b, c)
    ensures StringLess(a, c)
  {
    if a != [] && a[0] == b[0] == c[0] {
      StringLessTransitive(a[1..], b[1..], c[1..]);
    }
  }

  lemma StringLeTotalOrder()
    ensures TotalOrder(StringLe)
    ensures forall a, b :: StringLe(a, b) && StringLe(b, a) ==> a == b
  {
    forall a, b ensures StringLe(a, b) || StringLe(b, a) { StringLessTotal(a, b); }
    forall a, b | StringLe(a, b) && StringLe(b, a) ensures a == b { StringLessTotal(a, b); }
    forall a, b, c | StringLe(a, b) && StringLe(b, c) ensures StringLe(a, c) {
      StringLessTotal(a, b);
      StringLessTotal(b, c);
      StringLessTotal(a, c);
      if StringLess(a, b) && StringLess(b, c) { StringLessTransitive(a, b, c); }
    }
  }

  /** By characters: a prefix comes first, otherwise the first difference decides. */
  ghost predicate CharacterOrder(a: string, b: string) {
    a <= b || exists k :: 0 <= k < |a| && k < |b| && a[..k] == b[..k] && a[k] < b[k]
  }

  lemma {:induction false} StringLeMeans(a: string, b: string)
    ensures StringLe(a, b) <==> CharacterOrder(a, b)
  {
    if a != [] && b != [] && a[0] == b[0] {
      StringLeMeans(a[1..], b[1..]);
      assert a == [a[0]] + a[1..] && b == [b[0]] + b[1..];
      if k :| 0 <= k < |a| && k < |b| && a[..k] == b[..k] && a[k] < b[k] {
        assert a[1..][..k - 1] == a[..k][1..] && b[1..][..k - 1] == b[..k][1..];
        assert a[1..][k - 1] < b[1..][k - 1];
      }
      if k :| 0 <= k < |a[1..]| && k < |b[1..]| && a[1..][..k] == b[1..][..k] && a[1..][k] < b[1..][k] {
        assert a[..k + 1] == [a[0]] + a[1..][..k] && b[..k + 1] == [b[0]] + b[1..][..k];
        assert a[k + 1] < b[k + 1];
      }
    } else if a != [] && b != [] {
      assert a[..0] == b[..0];
    }
  }

  lemma {:induction false} StringLessAt(a: string, b: string, k: nat)
    requires k < |a| && k < |b| && a[..k] == b[..k] && a[k] < b[k]
    ensures StringLess(a, b)
  {
    if k > 0 {
      assert a[..k][0] == b[..k][0];
      assert a[1..][..k - 1] == a[..k][1..] && b[1..][..k - 1] == b[..k][1..];
      StringLessAt(a[1..], b[1..], k - 1);
    }
  }

  // ----- Decimal rendering (fmt.Sprintf("%d", n)) -----

  const DIGITS := "0123456789"

  function FormatNat(n: nat): (s: string)
    ensures s != [] && forall i :: 0 <= i < |s| ==> s[i] in DIGITS
  {
    if n < 10 then [DIGITS[n]] else FormatNat(n / 10) + [DIGITS[n % 10]]
  }

  function FormatInt(n: int): string {
    if n < 0 then "-" + FormatNat(-n) else FormatNat(n)
  }

  /** The value of a decimal numeral. */
  function DecimalValue(s: string): int {
    if s == "" then 0 else 10 * DecimalValue(s[..|s| - 1]) + (s[|s| - 1] as int - '0' as int)
  }

  /** A numeral of the ten digits without leading zeros. */
  predicate Numeral(s: string) {
    s != "" && (s[0] == '0' ==> s == "0") && forall i :: 0 <= i < |s| ==> '0' <= s[i] <= '9'
  }

  lemma {:induction false} FormatNatMeans(n: nat)
    ensures Numeral(FormatNat(n)) && DecimalValue(FormatNat(n)) == n
    ensures n > 0 ==> FormatNat(n)[0] != '0'
  {
    DigitValue(n % 10);
    if n >= 10 {
      FormatNatMeans(n / 10);
      var s := FormatNat(n);
      assert s[..|s| - 1] == FormatNat(n / 10) && s[|s| - 1] == DIGITS[n % 10];
    } else {
      assert [DIGITS[n]][..0] == "";
    }
  }

  lemma DigitValue(d: nat)
    requires d < 10
    ensures '0' <= DIGITS[d] <= '9' && DIGITS[d] as int - '0' as int == d
  {}

  /** The rendering is the decimal numeral of the number, after a minus sign for a
      negative one. */
  lemma FormatIntMeans(n: int)
    ensures n >= 0 ==> Numeral(FormatInt(n)) && DecimalValue(FormatInt(n)) == n
    ensures n < 0 ==> FormatInt(n)[0] == '-' && Numeral(FormatInt(n)[1..]) && DecimalValue(FormatInt(n)[1..]) == -n
  {
    FormatNatMeans(if n < 0 then -n else n);
  }

  /** Different status codes never share a rendering, so a map keyed by the
      rendering overwrites no entry. */
  lemma FormatIntInjective(m: int, n: int)
    requires FormatInt(m) == FormatInt(n)
    ensures m == n
  {
    hide FormatInt, DecimalValue;
    FormatIntMeans(m);
    FormatIntMeans(n);
  }
}
