/** The price field of the product form: text to minor units and back. */
module Money {
  import opened Options
  import opened Decimal
  import opened Doubles

  predicate IsSpace(c: char) {
    c in {' ', '\t', '\n', '\r', '\U{000B}', '\U{000C}', '\U{00A0}', '\U{1680}', '\U{2028}', '\U{2029}', '\U{202F}',
          '\U{205F}', '\U{3000}', '\U{FEFF}'} || '\U{2000}' <= c <= '\U{200A}'
  }

  function TrimStart(s: string): string {
    if s != [] && IsSpace(s[0]) then TrimStart(s[1..]) else s
  }

  function TrimEnd(s: string): string {
    if s != [] && IsSpace(s[|s| - 1]) then TrimEnd(s[..|s| - 1]) else s
  }

  function Trim(s: string): string {
    TrimEnd(TrimStart(s))
  }

  /** The pattern: digits, then at most as many decimals as the currency has. */
  function Match(input: string, digits: nat): (m: Option<(string, string)>)
    ensures m.Some? ==> AllDigits(m.value.0) && AllDigits(m.value.1) && |m.value.1| <= digits
  {
    var text := Trim(input);
    var n := Span(text);
    if n == 0 then None
    else if n == |text| then Some((text, ""))
    else
      var fraction := text[n + 1..];
      if digits > 0 && text[n] == '.' && 1 <= |fraction| <= digits && AllDigits(fraction)
        then Some((text[..n], fraction)) else None
  }

  /** The decimals written, filled up with zeros, counted in minor units. */
  function Minor(fraction: string, digits: nat): nat
    requires AllDigits(fraction) && |fraction| <= digits
  {
    PadEndValue(fraction, digits);
    Value(PadEnd(fraction, digits))
  }

  /** The amount in minor units, in exact arithmetic. */
  function Amount(whole: string, fraction: string, digits: nat): nat
    requires AllDigits(whole) && AllDigits(fraction) && |fraction| <= digits
  {
    Times(Value(whole), Pow10(digits)) + Minor(fraction, digits)
  }

  function ParseMoney(input: string, digits: nat): Option<nat> {
    match Match(input, digits)
    case None => None
    case Some((whole, fraction)) => Some(Amount(whole, fraction, digits))
  }

  /** The result as the program computes it, every number rounded to a double. */
  ghost function ParseMoneyRounded(round: nat -> nat, input: string, digits: nat): Option<nat> {
    match Match(input, digits)
    case None => None
    case Some((whole, fraction)) =>
      Some(round(round(Times(round(Value(whole)), round(Pow10(digits)))) + round(Minor(fraction, digits))))
  }

  /** What is computed is the exact value whenever that is a safe integer, and otherwise
      is itself no safe integer: rounding never yields a plausible wrong price. */
  lemma ParseMoneyIsSafe(round: nat -> nat, input: string, digits: nat)
    requires IsRounding(round)
    ensures ParseMoneyRounded(round, input, digits).Some? <==> ParseMoney(input, digits).Some?
    ensures ParseMoney(input, digits).Some? ==>
              var computed, exact := ParseMoneyRounded(round, input, digits).value, ParseMoney(input, digits).value;
              if exact <= MAX_SAFE_INTEGER then computed == exact else computed > MAX_SAFE_INTEGER
  {
    if m :| Match(input, digits) == Some(m) {
      RoundedProductSum(round, Value(m.0), Pow10(digits), Minor(m.1, digits));
    }
  }

  function MoneyInputValue(minor: nat, digits: nat): string {
    if digits == 0 then Print(minor)
    else Print(Whole(minor, Pow10(digits))) + "." + PadStart(Print(Rest(minor, Pow10(digits))), digits)
  }

  /** Text is the decimal numeral whole.fraction, or just whole. */
  ghost predicate IsAmount(text: string, whole: string, fraction: string) {
    && whole != "" && AllDigits(whole) && AllDigits(fraction)
    && text == if fraction == "" then whole else whole + "." + fraction
  }

  lemma SplitAtPoint(text: string, whole: string, fraction: string)
    requires IsAmount(text, whole, fraction) && fraction != ""
    ensures Span(text) == |whole| < |text|
    ensures text[..|whole|] == whole && text[|whole|] == '.' && text[|whole| + 1..] == fraction
  {
    assert text == whole + ("." + fraction);
    SpanPrefix(whole, "." + fraction);
  }

  /** A numeral matches, as itself, exactly when the currency has its decimals. */
  lemma MatchesNumeral(input: string, digits: nat, whole: string, fraction: string)
    requires IsAmount(Trim(input), whole, fraction)
    ensures Match(input, digits) == if |fraction| <= digits then Some((whole, fraction)) else None
  {
    if fraction == "" {
      SpanPrefix(whole, "");
      assert whole + "" == whole;
    } else {
      SplitAtPoint(Trim(input), whole, fraction);
    }
  }

  /** Accepted are exactly the decimal numerals with no more decimals than the
      currency has, and the result is their value times 10^digits: scaled by the
      decimals written, it equals the digits read as one numeral. */
  lemma ParseMoneyIsExact(input: string, digits: nat, whole: string, fraction: string)
    requires IsAmount(Trim(input), whole, fraction)
    ensures ParseMoney(input, digits).Some? <==> |fraction| <= digits
    ensures AllDigits(whole + fraction)
    ensures |fraction| <= digits ==>
              Times(ParseMoney(input, digits).value, Pow10(|fraction|)) == Times(Value(whole + fraction), Pow10(digits))
  {
    MatchesNumeral(input, digits, whole, fraction);
    if |fraction| <= digits {
      AmountScales(whole, fraction, digits);
    }
  }

  lemma AmountScales(whole: string, fraction: string, digits: nat)
    requires AllDigits(whole) && AllDigits(fraction) && |fraction| <= digits
    ensures AllDigits(whole + fraction)
    ensures Times(Amount(whole, fraction, digits), Pow10(|fraction|)) == Times(Value(whole + fraction), Pow10(digits))
  {
    ValueConcat(whole, fraction);
    PadEndValue(fraction, digits);
    PowSum(digits - |fraction|, |fraction|);
    ScaleUp(Value(whole), Value(fraction), Pow10(|fraction|), Pow10(digits - |fraction|));
  }

  lemma ScaleUp(w: nat, f: nat, p: nat, q: nat)
    ensures (w * (q * p) + f * q) * p == (w * p + f) * (q * p)
  {}

  lemma ParseMoneyAccepts(input: string, digits: nat)
    ensures ParseMoney(input, digits).Some? ==> exists whole, fraction :: IsAmount(Trim(input), whole, fraction)
  {
    var text := Trim(input);
    var n := Span(text);
    if Match(input, digits).Some? {
      if n == |text| {
        assert text[..n] == text;
        assert IsAmount(text, text, "");
      } else {
        assert text == text[..n] + "." + text[n + 1..];
        assert IsAmount(text, text[..n], text[n + 1..]);
      }
    }
  }

  /** White space of the language: its spaces, its line ends and the byte order mark. */
  predicate IsBlank(c: char) {
    var n := c as int;
    || n in {0x9, 0xA, 0xB, 0xC, 0xD, 0x20, 0xA0, 0x1680, 0x2028, 0x2029, 0x202F, 0x205F, 0x3000, 0xFEFF}
    || 0x2000 <= n <= 0x200A
  }

  predicate Blank(s: string) {
    forall i | 0 <= i < |s| :: IsBlank(s[i])
  }

  /** Text stripped of the blanks around it. */
  ghost predicate Stripped(s: string, a: string, m: string, b: string) {
    && s == a + m + b && Blank(a) && Blank(b)
    && (m != "" ==> !IsBlank(m[0]) && !IsBlank(m[|m| - 1]))
  }

  lemma SpaceIsBlank(c: char)
    ensures IsSpace(c) <==> IsBlank(c)
  {}

  lemma {:induction false} TrimStartStrips(s: string) returns (a: string)
    ensures s == a + TrimStart(s) && Blank(a)
    ensures TrimStart(s) != "" ==> !IsBlank(TrimStart(s)[0])
  {
    if s != "" {
      SpaceIsBlank(s[0]);
    }
    if s != "" && IsSpace(s[0]) {
      var rest := TrimStartStrips(s[1..]);
      a := [s[0]] + rest;
      assert s == [s[0]] + s[1..];
    } else {
      a := "";
    }
  }

  lemma {:induction false} TrimEndStrips(s: string) returns (b: string)
    ensures s == TrimEnd(s) + b && Blank(b)
  {
    b := "";
    if s != "" {
      var front, last := s[..|s| - 1], s[|s| - 1];
      SpaceIsBlank(last);
      if IsSpace(last) {
        var rest := TrimEndStrips(front);
        b := rest + [last];
        assert s == front + [last];
      }
    }
  }

  lemma {:induction false} TrimEndEnds(s: string)
    ensures TrimEnd(s) != "" ==> !IsBlank(TrimEnd(s)[|TrimEnd(s)| - 1])
  {
    if s != "" {
      SpaceIsBlank(s[|s| - 1]);
      TrimEndEnds(s[..|s| - 1]);
    }
  }

  /** Trimming strips exactly the blanks at both ends. */
  lemma TrimStrips(s: string) returns (a: string, b: string)
    ensures Stripped(s, a, Trim(s), b)
  {
    a := TrimStartStrips(s);
    b := TrimEndStrips(TrimStart(s));
    TrimEndEnds(TrimStart(s));
    if Trim(s) != "" {
      assert Trim(s)[0] == TrimStart(s)[0];
    }
  }

  lemma {:induction false} TrimStartSkips(a: string, rest: string)
    requires Blank(a)
    ensures TrimStart(a + rest) == TrimStart(rest)
  {
    if a == "" {
      assert a + rest == rest;
    } else {
      SpaceIsBlank(a[0]);
      assert (a + rest)[1..] == a[1..] + rest;
      TrimStartSkips(a[1..], rest);
    }
  }

  lemma {:induction false} TrimEndSkips(rest: string, b: string)
    requires Blank(b)
    ensures TrimEnd(rest + b) == TrimEnd(rest)
  {
    if b == "" {
      assert rest + b == rest;
    } else {
      var n := |b| - 1;
      SpaceIsBlank(b[n]);
      assert (rest + b)[..|rest| + n] == rest + b[..n];
      TrimEndSkips(rest, b[..n]);
    }
  }

  /** Blanks around a text without blanks at its ends do not matter. */
  lemma BlanksAreTrimmed(s: string, a: string, m: string, b: string)
    requires Stripped(s, a, m, b) && m != ""
    ensures Trim(s) == m
  {
    assert s == a + (m + b);
    TrimStartSkips(a, m + b);
    SpaceIsBlank(m[0]);
    SpaceIsBlank(m[|m| - 1]);
    assert (m + b)[0] == m[0];
    TrimEndSkips(m, b);
  }

  lemma DigitsAreNoSpace(s: string)
    requires s != "" && IsDigit(s[0]) && IsDigit(s[|s| - 1])
    ensures Stripped(s, "", s, "") && Trim(s) == s
  {
    SpaceIsBlank(s[0]);
    SpaceIsBlank(s[|s| - 1]);
  }

  lemma AmountsAreTrimmed(text: string, whole: string, fraction: string)
    requires IsAmount(text, whole, fraction)
    ensures Trim(text) == text
  {
    var last := text[|text| - 1];
    assert text[0] == whole[0] && last == if fraction == "" then whole[|whole| - 1] else fraction[|fraction| - 1];
    DigitsAreNoSpace(text);
  }

  /** The numeral whole.fraction with no more decimals than the currency has, read in
      minor units: scaled by the decimals written, the amount is the digits read as one
      numeral times 10^digits. */
  ghost predicate Denotes(text: string, whole: string, fraction: string, digits: nat, amount: nat) {
    && IsAmount(text, whole, fraction) && |fraction| <= digits
    && AllDigits(whole + fraction)
    && Times(amount, Pow10(|fraction|)) == Times(Value(whole + fraction), Pow10(digits))
  }

  /** The input is such a numeral with blanks around it. */
  ghost predicate Reads(input: string, digits: nat, amount: nat) {
    exists a, text, b, whole, fraction ::
      Stripped(input, a, text, b) && Denotes(text, whole, fraction, digits, amount)
  }

  lemma TimesGrows(x: nat, y: nat, p: nat)
    requires p > 0 && x < y
    ensures Times(x, p) < Times(y, p)
  {}

  lemma TimesTells(x: nat, y: nat, p: nat)
    requires p > 0
    ensures Times(x, p) == Times(y, p) <==> x == y
  {
    if x < y {
      TimesGrows(x, y, p);
    }
    if y < x {
      TimesGrows(y, x, p);
    }
  }

  lemma ReadingIsParsed(input: string, a: string, text: string, b: string, whole: string, fraction: string,
                        digits: nat, amount: nat)
    requires Stripped(input, a, text, b) && Denotes(text, whole, fraction, digits, amount)
    ensures ParseMoney(input, digits) == Some(amount)
  {
    BlanksAreTrimmed(input, a, text, b);
    ParseMoneyIsExact(input, digits, whole, fraction);
    TimesTells(ParseMoney(input, digits).value, amount, Pow10(|fraction|));
  }

  /** What the form accepts, and as what: exactly the decimal numerals of the currency,
      with any blanks around them, for their exact amount. */
  lemma ParseMoneyReads(input: string, digits: nat, amount: nat)
    ensures ParseMoney(input, digits) == Some(amount) <==> Reads(input, digits, amount)
  {
    if Reads(input, digits, amount) {
      var a, text, b, whole, fraction :|
        Stripped(input, a, text, b) && Denotes(text, whole, fraction, digits, amount);
      ReadingIsParsed(input, a, text, b, whole, fraction, digits, amount);
    }
    if ParseMoney(input, digits) == Some(amount) {
      var a, b := TrimStrips(input);
      ParseMoneyAccepts(input, digits);
      var whole, fraction :| IsAmount(Trim(input), whole, fraction);
      ParseMoneyIsExact(input, digits, whole, fraction);
      assert Denotes(Trim(input), whole, fraction, digits, amount);
    }
  }

  /** What the printer writes is a numeral with all the currency's decimals. */
  lemma Printed(minor: nat, digits: nat) returns (whole: string, fraction: string)
    ensures IsAmount(MoneyInputValue(minor, digits), whole, fraction) && |fraction| == digits
    ensures Times(Value(whole), Pow10(digits)) + Value(fraction) == minor
    ensures whole[0] == '0' ==> whole == "0"
  {
    if digits == 0 {
      whole, fraction := Print(minor), "";
      PrintValue(minor);
      NoLeadingZero(minor);
    } else {
      whole, fraction := PrintedParts(minor, digits);
    }
  }

  lemma PrintedParts(minor: nat, digits: nat) returns (whole: string, fraction: string)
    requires digits > 0
    ensures IsAmount(MoneyInputValue(minor, digits), whole, fraction) && |fraction| == digits
    ensures Times(Value(whole), Pow10(digits)) + Value(fraction) == minor
    ensures whole[0] == '0' ==> whole == "0"
  {
    var scale := Pow10(digits);
    NoLeadingZero(Whole(minor, Pow10(digits)));
    whole, fraction := Print(Whole(minor, scale)), PadStart(Print(Rest(minor, scale)), digits);
    PrintLength(Rest(minor, scale), digits);
    PadStartValue(Print(Rest(minor, scale)), digits);
    PrintValue(Whole(minor, scale));
    PrintValue(Rest(minor, scale));
    WholeAndRest(minor, scale);
  }

  lemma MatchesPrinted(text: string, whole: string, fraction: string)
    requires IsAmount(text, whole, fraction)
    ensures Match(text, |fraction|) == Some((whole, fraction))
  {
    AmountsAreTrimmed(text, whole, fraction);
    MatchesNumeral(text, |fraction|, whole, fraction);
  }

  /** All the decimals there are need no filling up. */
  lemma FullAmount(whole: string, fraction: string)
    requires AllDigits(whole) && AllDigits(fraction)
    ensures Amount(whole, fraction, |fraction|) == Times(Value(whole), Pow10(|fraction|)) + Value(fraction)
  {}

  lemma ReadBack(text: string, digits: nat, minor: nat, whole: string, fraction: string)
    requires IsAmount(text, whole, fraction) && |fraction| == digits
    requires Times(Value(whole), Pow10(digits)) + Value(fraction) == minor
    ensures ParseMoney(text, digits) == Some(minor)
  {
    MatchesPrinted(text, whole, fraction);
    FullAmount(whole, fraction);
  }

  /** What the form shows for an amount is read back as that amount; it has all the
      decimals of the currency and no zero too many in front. */
  lemma MoneyRoundTrip(minor: nat, digits: nat) returns (whole: string, fraction: string)
    ensures ParseMoney(MoneyInputValue(minor, digits), digits) == Some(minor)
    ensures IsAmount(MoneyInputValue(minor, digits), whole, fraction) && |fraction| == digits
    ensures whole[0] == '0' ==> whole == "0"
  {
    whole, fraction := Printed(minor, digits);
    ReadBack(MoneyInputValue(minor, digits), digits, minor, whole, fraction);
  }

  /** The printer may divide in floating point: for every safe integer the floor of the
      double nearest to the quotient is the true quotient. */
  lemma DivisionIsHarmless(minor: nat, digits: nat, quotient: real)
    requires minor <= MAX_SAFE_INTEGER && IsQuotient(minor, Pow10(digits), quotient)
    ensures quotient.Floor == Whole(minor, Pow10(digits))
  {
    FlooredQuotient(minor, Pow10(digits), quotient);
  }
}
