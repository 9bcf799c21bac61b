/** Order numbers: ORD-year-sequence, at least six digits wide. */
module OrderNumbers {
  import opened Options
  import opened Decimal

  function FormatOrderNumber(year: nat, number: nat): string {
    "ORD-" + Print(year) + "-" + PadStart(Print(number), 6)
  }

  function ParseOrderNumber(text: string): Option<(nat, nat)> {
    if |text| < 4 || text[..4] != "ORD-" then None
    else
      var rest := text[4..];
      var n := Span(rest);
      if n == 0 || n + 1 >= |rest| || rest[n] != '-' || !AllDigits(rest[n + 1..]) then None
      else Some((Value(rest[..n]), Value(rest[n + 1..])))
  }

  /** A printed number reads back as its year and sequence value, past six digits too. */
  lemma OrderNumberRoundTrip(year: nat, number: nat)
    ensures ParseOrderNumber(FormatOrderNumber(year, number)) == Some((year, number))
    ensures FormatOrderNumber(year, number)[..4] == "ORD-"
  {
    var y, s := Print(year), PadStart(Print(number), 6);
    var rest := FormatOrderNumber(year, number)[4..];
    PadStartValue(Print(number), 6);
    assert rest == y + ("-" + s);
    SpanPrefix(y, "-" + s);
    assert rest[..|y|] == y && rest[|y| + 1..] == s;
    PrintValue(year);
    PrintValue(number);
  }

  /** Distinct sequence values, in whatever years, never print the same number; and
      the field is six wide until a millionth order widens it. */
  lemma OrderNumbersDistinct(year: nat, number: nat, year': nat, number': nat)
    ensures FormatOrderNumber(year, number) == FormatOrderNumber(year', number') <==> year == year' && number == number'
    ensures number < 1_000_000 ==> |FormatOrderNumber(year, number)| == 5 + |Print(year)| + 6
  {
    OrderNumberRoundTrip(year, number);
    OrderNumberRoundTrip(year', number');
    if number < 1_000_000 {
      assert Pow10(6) == 1_000_000;
      PrintLength(number, 6);
    }
  }
}
