/**
 The string building blocks the runtime keys its caches with: decimal rendering
 (std::to_string), length-prefixed parts, and the lexicographic string order of the
 request queue.
 */
module Text {

  datatype Option<+T> = None | Some(value: T)

  function Digit(d: nat): (c: char)
    requires d < 10
    ensures IsDigit(c)
  {
    (d + '0' as int) as char
  }

  predicate IsDigit(c: char) {
    '0' <= c <= '9'
  }

  function DigitValue(c: char): nat
    requires IsDigit(c)
  {
    c as int - '0' as int
  }

  function Decimal(n: nat): (s: string) {
    if n < 10 then [Digit(n)] else Decimal(n / 10) + [Digit(n % 10)]
  }

  function ParseDecimal(s: string): nat
    requires forall c | c in s :: IsDigit(c)
  {
    if s == "" then 0 else 10 * ParseDecimal(s[..|s| - 1]) + DigitValue(s[|s| - 1])
  }

  /** Decimal renders digits only, and reading them back gives the number. */
  lemma {:induction false} DecimalRoundTrip(n: nat)
    ensures Decimal(n) != ""
    ensures forall c | c in Decimal(n) :: IsDigit(c)
    ensures ParseDecimal(Decimal(n)) == n
  {
    if n < 10 {
      assert Decimal(n)[..0] == "";
    } else {
      DecimalRoundTrip(n / 10);
      assert Decimal(n)[..|Decimal(n)| - 1] == Decimal(n / 10);
    }
  }

  lemma DecimalInjective(m: nat, n: nat)
    requires Decimal(m) == Decimal(n)
    ensures m == n
  {
    DecimalRoundTrip(m);
    DecimalRoundTrip(n);
  }

  /** std::to_string of a signed number. */
  function Signed(n: int): string {
    if n < 0 then ['-'] + Decimal(-n) else Decimal(n)
  }

  lemma SignedHasNoColon(n: int)
    ensures ':' !in Signed(n)
  {
    DecimalRoundTrip(if n < 0 then -n else n);
    assert !IsDigit(':');
  }

  lemma SignedInjective(m: int, n: int)
    requires Signed(m) == Signed(n)
    ensures m == n
  {
    var a, b := if m < 0 then -m else m, if n < 0 then -n else n;
    DecimalRoundTrip(a);
    DecimalRoundTrip(b);
    assert Decimal(a)[0] in Decimal(a) && Decimal(b)[0] in Decimal(b);
    assert m < 0 ==> Signed(m)[1..] == Decimal(a);
    assert n < 0 ==> Signed(n)[1..] == Decimal(b);
  }

  /** A delimiter that occurs in neither head splits two equal strings at the same place. */
  lemma SplitAtDelimiter(s: string, t: string, c: char, x: string, y: string)
    requires c !in s && c !in t
    requires s + [c] + x == t + [c] + y
    ensures s == t && x == y
  {
    var u, v := s + [c] + x, t + [c] + y;
    assert u[|s|] == c && v[|t|] == c;
    assert forall i | 0 <= i < |s| :: u[i] == s[i] && s[i] in s;
    assert forall i | 0 <= i < |t| :: v[i] == t[i] && t[i] in t;
    assert s == u[..|s|] == v[..|t|] == t;
    assert x == u[|s| + 1..] == v[|t| + 1..] == y;
  }

  /** A decimal number followed by a non-digit can be read back from the front of a string. */
  lemma DecimalThenDelimiter(m: nat, n: nat, c: char, x: string, y: string)
    requires !IsDigit(c)
    requires Decimal(m) + [c] + x == Decimal(n) + [c] + y
    ensures m == n && x == y
  {
    DecimalRoundTrip(m);
    DecimalRoundTrip(n);
    SplitAtDelimiter(Decimal(m), Decimal(n), c, x, y);
  }

  /** A length-prefixed, delimiter-terminated part: "<size>:<bytes>|". */
  function Part(value: string): string {
    Decimal(|value|) + [':'] + value + ['|']
  }

  /** Length-prefixed parts are prefix-free, whatever characters the values contain. */
  lemma PartSplits(a: string, b: string, x: string, y: string)
    requires Part(a) + x == Part(b) + y
    ensures a == b && x == y
  {
    var ra, rb := a + ['|'] + x, b + ['|'] + y;
    assert Part(a) + x == Decimal(|a|) + [':'] + ra;
    assert Part(b) + y == Decimal(|b|) + [':'] + rb;
    DecimalThenDelimiter(|a|, |b|, ':', ra, rb);
    assert a == ra[..|a|] == rb[..|b|] == b;
    assert x == ra[|a| + 1..] == rb[|b| + 1..] == y;
  }

  /** std::string's operator<. */
  predicate Less(a: string, b: string) {
    b != "" && (a == "" || a[0] < b[0] || (a[0] == b[0] && Less(a[1..], b[1..])))
  }

  /** The first differing character decides. */
  lemma {:induction false} LessAtFirstDifference(a: string, b: string, k: nat)
    requires k < |a| && k < |b| && a[..k] == b[..k] && a[k] < b[k]
    ensures Less(a, b) && !Less(b, a)
  {
    if k > 0 {
      assert a[0] == a[..k][0] == b[..k][0] == b[0];
      assert a[1..][..k - 1] == a[..k][1..] == b[..k][1..] == b[1..][..k - 1];
      LessAtFirstDifference(a[1..], b[1..], k - 1);
    }
  }

  /** A proper prefix comes first. */
  lemma {:induction false} LessForPrefix(a: string, b: string)
    requires b != ""
    ensures Less(a, a + b) && !Less(a + b, a)
  {
    if a != "" {
      LessForPrefix(a[1..], b);
      assert (a + b)[1..] == a[1..] + b;
    }
  }

  /** Less is a strict total order: exactly one of a < b, a == b, b < a. */
  lemma {:induction false} LessTrichotomy(a: string, b: string)
    ensures !(Less(a, b) && Less(b, a))
    ensures a != b <==> Less(a, b) || Less(b, a)
  {
    if a != "" && b != "" {
      LessTrichotomy(a[1..], b[1..]);
      assert a == [a[0]] + a[1..] && b == [b[0]] + b[1..];
    }
  }

  lemma {:induction false} LessTransitive(a: string, b: string, c: string)
    requires Less(a, b) && Less(b, c)
    ensures Less(a, c)
  {
    if a != "" && a[0] == b[0] == c[0] {
      LessTransitive(a[1..], b[1..], c[1..]);
    }
  }
}
