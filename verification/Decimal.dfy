/** Decimal numerals: printing, reading, padding, and how they fit together. */
module Decimal {
  import opened Options

  predicate IsDigit(c: char) {
    '0' <= c <= '9'
  }

  predicate AllDigits(s: string) {
    forall i | 0 <= i < |s| :: IsDigit(s[i])
  }

  function Value(s: string): nat
    requires AllDigits(s)
  {
    if s == [] then 0 else 10 * Value(s[..|s| - 1]) + (s[|s| - 1] - '0') as nat
  }

  /** The decimal numeral of n, without leading zeros. */
  function Print(n: nat): (s: string)
    ensures |s| > 0 && AllDigits(s)
  {
    var digit := '0' + (n % 10) as char;
    if n < 10 then [digit] else Print(n / 10) + [digit]
  }

  lemma {:induction false} PrintValue(n: nat)
    ensures Value(Print(n)) == n
  {
    if n >= 10 {
      PrintValue(n / 10);
      assert Print(n)[..|Print(n)| - 1] == Print(n / 10);
    }
  }

  lemma {:induction false} NoLeadingZero(n: nat)
    ensures Print(n)[0] == '0' <==> n == 0
    ensures n == 0 ==> Print(n) == "0"
  {
    if n >= 10 {
      NoLeadingZero(n / 10);
      assert Print(n)[0] == Print(n / 10)[0];
    }
  }

  function Zeros(n: nat): (s: string)
    ensures |s| == n && AllDigits(s)
  {
    seq(n, _ => '0')
  }

  /** Zeros in front up to the width; a longer numeral is left whole. */
  function PadStart(s: string, width: nat): string {
    if |s| >= width then s else Zeros(width - |s|) + s
  }

  function PadEnd(s: string, width: nat): string {
    if |s| >= width then s else s + Zeros(width - |s|)
  }

  function Pow10(n: nat): (p: nat)
    ensures p > 0
  {
    if n == 0 then 1 else 10 * Pow10(n - 1)
  }

  lemma MulTen(x: nat, p: nat)
    ensures x * (10 * p) == 10 * (x * p)
  {}

  lemma {:induction false} ValueConcat(a: string, b: string)
    requires AllDigits(a) && AllDigits(b)
    ensures AllDigits(a + b) && Value(a + b) == Value(a) * Pow10(|b|) + Value(b)
  {
    if b == [] {
      assert a + b == a;
    } else {
      var front := b[..|b| - 1];
      ValueConcat(a, front);
      assert (a + b)[..|a + b| - 1] == a + front;
      MulTen(Value(a), Pow10(|front|));
    }
  }

  lemma {:induction false} ZerosValue(n: nat)
    ensures Value(Zeros(n)) == 0
  {
    if n > 0 {
      ZerosValue(n - 1);
      assert Zeros(n)[..n - 1] == Zeros(n - 1);
    }
  }

  lemma PadStartValue(s: string, width: nat)
    requires AllDigits(s)
    ensures AllDigits(PadStart(s, width)) && Value(PadStart(s, width)) == Value(s)
  {
    if |s| < width {
      ZerosValue(width - |s|);
      ValueConcat(Zeros(width - |s|), s);
    }
  }

  lemma PadEndValue(s: string, width: nat)
    requires AllDigits(s) && |s| <= width
    ensures AllDigits(PadEnd(s, width)) && Value(PadEnd(s, width)) == Value(s) * Pow10(width - |s|)
  {
    if |s| < width {
      ZerosValue(width - |s|);
      ValueConcat(s, Zeros(width - |s|));
    }
  }

  lemma {:induction false} PowSum(a: nat, b: nat)
    ensures Pow10(a + b) == Pow10(a) * Pow10(b)
  {
    if a > 0 {
      PowSum(a - 1, b);
    }
  }

  /** A numeral below 10^w has at most w digits. */
  lemma {:induction false} PrintLength(n: nat, w: nat)
    requires n < Pow10(w) && w > 0
    ensures |Print(n)| <= w
  {
    if n >= 10 {
      PrintLength(n / 10, w - 1);
    }
  }

  /** How many characters at the front of s are digits. */
  function Span(s: string): (n: nat)
    ensures n <= |s| && AllDigits(s[..n])
    ensures n < |s| ==> !IsDigit(s[n])
  {
    if s == [] || !IsDigit(s[0]) then 0
    else
      var n := Span(s[1..]);
      assert forall i | 1 <= i < n + 1 :: s[i] == s[1..][i - 1];
      1 + n
  }

  /** Digits up to a character that is none are exactly what Span finds. */
  lemma {:induction false} SpanPrefix(a: string, b: string)
    requires AllDigits(a) && (b == [] || !IsDigit(b[0]))
    ensures Span(a + b) == |a|
  {
    if a == [] {
      assert a + b == b;
    } else {
      assert (a + b)[1..] == a[1..] + b;
      SpanPrefix(a[1..], b);
    }
  }

  /** Division and remainder by a power of ten, with the law that joins them. */
  function Whole(n: nat, scale: nat): nat
    requires scale > 0
  {
    n / scale
  }

  function Rest(n: nat, scale: nat): (r: nat)
    requires scale > 0
    ensures r < scale
  {
    n % scale
  }

  lemma WholeAndRest(n: nat, scale: nat)
    requires scale > 0
    ensures n == Whole(n, scale) * scale + Rest(n, scale)
  {}

  const TWO63 := 0x8000_0000_0000_0000

  /** Base-ten parsing into 64 bits: an optional sign, then digits only. */
  function ParseInt64(s: string): Option<int> {
    var signed := s != [] && (s[0] == '+' || s[0] == '-');
    var digits := if signed then s[1..] else s;
    if digits == [] || !AllDigits(digits) then None
    else
      var n: int := if signed && s[0] == '-' then -(Value(digits) as int) else Value(digits) as int;
      if -TWO63 <= n < TWO63 then Some(n) else None
  }

  function FormatInt(n: int): string {
    if n < 0 then "-" + Print(-n) else Print(n)
  }

  /** Every 64-bit integer is parsed back from its decimal form, which is how order
      ids travel inside envelopes. */
  lemma IntRoundTrip(n: int)
    requires -TWO63 <= n < TWO63
    ensures ParseInt64(FormatInt(n)) == Some(n)
  {
    if n < 0 {
      PrintValue(-n);
      Signed(Print(-n));
    } else {
      PrintValue(n);
      Unsigned(Print(n));
    }
  }

  lemma Signed(digits: string)
    requires digits != "" && AllDigits(digits) && Value(digits) <= TWO63
    ensures ParseInt64("-" + digits) == Some(-(Value(digits) as int))
  {
    assert ("-" + digits)[1..] == digits;
  }

  lemma Unsigned(digits: string)
    requires digits != "" && AllDigits(digits) && Value(digits) < TWO63
    ensures ParseInt64(digits) == Some(Value(digits) as int)
  {
    assert IsDigit(digits[0]);
  }

  /** S writes n in base ten: digits behind a sign or none. */
  ghost predicate Writes(s: string, sign: string, digits: string, n: int) {
    && s == sign + digits && sign in {"", "+", "-"} && digits != "" && AllDigits(digits)
    && n == if sign == "-" then -(Value(digits) as int) else Value(digits) as int
  }

  lemma WritesIsParsed(s: string, sign: string, digits: string, n: int)
    requires Writes(s, sign, digits, n)
    ensures ParseInt64(s) == if -TWO63 <= n < TWO63 then Some(n) else None
  {
    assert sign != "" ==> s[0] == sign[0] && s[1..] == digits;
    assert sign == "" ==> s == digits && IsDigit(s[0]);
  }

  lemma ParsedIsWritten(s: string, n: int) returns (sign: string, digits: string)
    requires ParseInt64(s) == Some(n)
    ensures -TWO63 <= n < TWO63 && Writes(s, sign, digits, n)
  {
    if s[0] == '+' || s[0] == '-' {
      sign, digits := [s[0]], s[1..];
      assert s == sign + digits;
    } else {
      sign, digits := "", s;
    }
  }

  /** What the parser accepts, and as what: base-ten numerals of 64-bit integers, zeros
      in front and a plus sign allowed, and nothing else. */
  lemma ParseIntReads(s: string, n: int)
    ensures ParseInt64(s) == Some(n) <==> -TWO63 <= n < TWO63 && exists sign, digits :: Writes(s, sign, digits, n)
  {
    if sign, digits :| Writes(s, sign, digits, n) {
      WritesIsParsed(s, sign, digits, n);
    }
    if ParseInt64(s) == Some(n) {
      var sign, digits := ParsedIsWritten(s, n);
    }
  }
}
