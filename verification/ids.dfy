/** `store.NextID`: identifiers are a prefix and a counter printed with `%05d`. */
module Ids {
  import opened Names

  const DIGITS := "0123456789"

  // The prefixes of attempts and runs.
  const ATTEMPT := "attempt"
  const RUN := "run"

  function Decimal(n: nat): string {
    if n < 10 then [DIGITS[n]] else Decimal(n / 10) + [DIGITS[n % 10]]
  }

  function Zeros(k: nat): string {
    seq(k, _ => '0')
  }

  /** `%05d`. */
  function Pad5(n: nat): string {
    var d := Decimal(n);
    if |d| < 5 then Zeros(5 - |d|) + d else d
  }

  function FormatID(prefix: string, n: nat): string {
    prefix + "-" + Pad5(n)
  }

  // ---- No identifier is ever handed out twice ----

  function Value(s: string): int {
    if |s| == 0 then 0 else 10 * Value(s[..|s| - 1]) + (s[|s| - 1] as int - '0' as int)
  }

  lemma {:induction false} DecimalValue(n: nat)
    ensures Value(Decimal(n)) == n
  {
    if n >= 10 { DecimalValue(n / 10); }
  }

  lemma {:induction false} LeadingZeros(k: nat, s: string)
    ensures Value(Zeros(k) + s) == Value(s)
  {
    var z := Zeros(k) + s;
    if |s| > 0 {
      assert z[..|z| - 1] == Zeros(k) + s[..|s| - 1];
      LeadingZeros(k, s[..|s| - 1]);
    } else if k > 0 {
      assert z[..|z| - 1] == Zeros(k - 1) + s;
      LeadingZeros(k - 1, s);
    }
  }

  lemma IdsAreInjective(prefix: string, m: nat, n: nat)
    requires FormatID(prefix, m) == FormatID(prefix, n)
    ensures m == n
  {
    assert FormatID(prefix, m)[|prefix| + 1..] == Pad5(m);
    assert FormatID(prefix, n)[|prefix| + 1..] == Pad5(n);
    PadValue(m);
    PadValue(n);
  }

  lemma PadValue(n: nat)
    ensures Value(Pad5(n)) == n
  {
    DecimalValue(n);
    if |Decimal(n)| < 5 { LeadingZeros(5 - |Decimal(n)|, Decimal(n)); }
  }

  lemma {:induction false} DecimalDigits(n: nat)
    ensures Decimal(n) != "" && forall c :: c in Decimal(n) ==> '0' <= c <= '9'
    ensures n > 0 ==> Decimal(n)[0] != '0'
  {
    if n >= 10 {
      DecimalDigits(n / 10);
      assert Decimal(n)[0] == Decimal(n / 10)[0];
    }
  }

  /** An identifier is its prefix, a dash and the decimal digits of its number, with leading zeros up to five places and no further. */
  lemma IdIsPrefixAndNumber(prefix: string, n: nat)
    ensures prefix + "-" <= FormatID(prefix, n)
    ensures var digits := FormatID(prefix, n)[|prefix| + 1..];
      && Value(digits) == n && |digits| >= 5 && (|digits| > 5 ==> digits[0] != '0')
      && forall c :: c in digits ==> '0' <= c <= '9'
  {
    assert FormatID(prefix, n)[|prefix| + 1..] == Pad5(n);
    PadValue(n);
    DecimalDigits(n);
    if n == 0 { assert Decimal(n) == ['0']; }
  }

  // ---- Sorting identifiers as strings sorts them as numbers, up to 99999 ----

  /** The last `w` digits of `n`. */
  function Fixed(w: nat, n: nat): (s: string)
    ensures |s| == w
  {
    if w == 0 then [] else Fixed(w - 1, n / 10) + [DIGITS[n % 10]]
  }

  function Power10(w: nat): nat {
    if w == 0 then 1 else 10 * Power10(w - 1)
  }

  lemma {:induction false} FixedZero(w: nat)
    ensures Fixed(w, 0) == Zeros(w)
  {
    if w > 0 { FixedZero(w - 1); }
  }

  lemma {:induction false} FixedIsPadded(w: nat, n: nat)
    requires w > 0 && n < Power10(w)
    ensures |Decimal(n)| <= w && Fixed(w, n) == Zeros(w - |Decimal(n)|) + Decimal(n)
  {
    if n < 10 {
      FixedZero(w - 1);
    } else {
      assert w > 1;
      FixedIsPadded(w - 1, n / 10);
    }
  }

  lemma {:induction false} LessAppend(a: string, b: string, x: string, y: string)
    requires |a| == |b|
    ensures Less(a, b) ==> Less(a + x, b + y)
    ensures a == b && Less(x, y) ==> Less(a + x, b + y)
  {
    if |a| > 0 {
      assert (a + x)[1..] == a[1..] + x && (b + y)[1..] == b[1..] + y;
      LessAppend(a[1..], b[1..], x, y);
    } else {
      assert a + x == x && b + y == y;
    }
  }

  lemma {:induction false} FixedOrder(w: nat, m: nat, n: nat)
    requires m < n < Power10(w)
    ensures Less(Fixed(w, m), Fixed(w, n))
  {
    var x, y := [DIGITS[m % 10]], [DIGITS[n % 10]];
    if m / 10 < n / 10 {
      FixedOrder(w - 1, m / 10, n / 10);
    } else {
      assert Less(x, y);
    }
    LessAppend(Fixed(w - 1, m / 10), Fixed(w - 1, n / 10), x, y);
  }

  lemma FiveDigits()
    ensures Power10(5) == 100000
  {
    assert Power10(1) == 10 && Power10(2) == 100 && Power10(3) == 1000 && Power10(4) == 10000;
  }

  lemma PadIsFixed(n: nat)
    requires n <= 99999
    ensures Pad5(n) == Fixed(5, n)
  {
    FiveDigits();
    FixedIsPadded(5, n);
    if |Decimal(n)| == 5 { assert Zeros(0) + Decimal(n) == Decimal(n); }
  }

  lemma PadOrder(m: nat, n: nat)
    requires m < n <= 99999
    ensures Less(Pad5(m), Pad5(n))
  {
    FiveDigits();
    PadIsFixed(m);
    PadIsFixed(n);
    FixedOrder(5, m, n);
  }

  lemma FiveDigitsBreak()
    ensures !Less(Pad5(99999), Pad5(100000))
  {
    assert Decimal(99999)[0] == '9' && |Decimal(99999)| == 5 by {
      assert Decimal(9) == "9" && Decimal(99) == "99" && Decimal(999) == "999" && Decimal(9999) == "9999";
    }
    assert Decimal(100000)[0] == '1' && |Decimal(100000)| == 6 by {
      assert Decimal(1) == "1" && Decimal(10) == "10" && Decimal(100) == "100" && Decimal(1000) == "1000" && Decimal(10000) == "10000";
    }
  }

  lemma {:induction false} LessSamePrefix(p: string, x: string, y: string)
    ensures Less(p + x, p + y) <==> Less(x, y)
  {
    if |p| > 0 {
      assert (p + x)[1..] == p[1..] + x && (p + y)[1..] == p[1..] + y;
      LessSamePrefix(p[1..], x, y);
    } else {
      assert p + x == x && p + y == y;
    }
  }

  /** Identifiers sort as their numbers exactly while the counter has at most five digits. */
  lemma IdsSortAsNumbers(prefix: string, counter: nat)
    ensures (forall m: nat, n: nat :: 1 <= m < n <= counter ==> Less(FormatID(prefix, m), FormatID(prefix, n)))
       <==> counter <= 99999
  {
    if counter <= 99999 {
      forall m: nat, n: nat | 1 <= m < n <= counter
        ensures Less(FormatID(prefix, m), FormatID(prefix, n))
      {
        PadOrder(m, n);
        LessSamePrefix(prefix + "-", Pad5(m), Pad5(n));
      }
    } else {
      FiveDigitsBreak();
      LessSamePrefix(prefix + "-", Pad5(99999), Pad5(100000));
      assert !Less(FormatID(prefix, 99999), FormatID(prefix, 100000));
    }
  }
}
