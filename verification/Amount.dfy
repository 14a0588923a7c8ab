/** internal/model/amount.go and internal/api/util.go: minimum units to decimal text
    and back. */
module Amount {
  import opened Wrappers
  import opened Text
  import opened Digits

  // ----------------------------------------------------------- decimal integers

  predicate IsDigit(c: char)
  {
    '0' <= c <= '9'
  }

  predicate AllDigits(s: string)
  {
    forall i :: 0 <= i < |s| ==> IsDigit(s[i])
  }

  function DigitVals(s: string): (ds: seq<nat>)
    requires AllDigits(s)
    ensures |ds| == |s| && InBase(ds, 10)
    ensures forall i :: 0 <= i < |s| ==> ds[i] == s[i] as nat - 48
  {
    if s == "" then [] else assert IsDigit(s[0]); [s[0] as nat - 48] + DigitVals(s[1..])
  }

  function DigitChars(ds: seq<nat>): (s: string)
    requires InBase(ds, 10)
    ensures |s| == |ds| && AllDigits(s)
    ensures forall i :: 0 <= i < |ds| ==> s[i] == (ds[i] + 48) as char
  {
    if ds == [] then "" else [(ds[0] + 48) as char] + DigitChars(ds[1..])
  }

  function Nat10(s: string): (r: nat)
    requires AllDigits(s)
  {
    Value(DigitVals(s), 10)
  }

  /** big.Int.String of a non-negative number. */
  function NatString(n: nat): (r: string)
  {
    NumeralValue(n, 10);
    if n == 0 then "0" else DigitChars(Numeral(n, 10))
  }

  function IntString(n: int): (r: string)
  {
    if n < 0 then "-" + NatString(-n) else NatString(n)
  }

  function ParseNat(s: string): (r: Option<nat>)
  {
    if s == "" || !AllDigits(s) then None else Some(Nat10(s))
  }

  /** big.Int.SetString in base 10: an optional sign, then digits only. */
  function ParseInt(s: string): (r: Option<int>)
  {
    if s != "" && (s[0] == '-' || s[0] == '+') then
      match ParseNat(s[1..])
      case None => None
      case Some(magnitude) =>
        var signed: int := if s[0] == '-' then 0 - magnitude else magnitude;
        Some(signed)
    else
      ParseNat(s)
  }

  lemma ZeroText()
    ensures AllDigits("0") && Nat10("0") == 0
  {
    assert DigitVals("0") == [0];
    ValueSnoc([], 0, 10);
    assert [] + [0] == [0];
  }

  lemma {:induction false} DigitsRoundTrip(ds: seq<nat>)
    requires InBase(ds, 10)
    ensures DigitVals(DigitChars(ds)) == ds
  {
  }

  lemma {:induction false} NatStringValue(n: nat)
    ensures NatString(n) != "" && AllDigits(NatString(n)) && Nat10(NatString(n)) == n
    ensures n > 0 ==> NatString(n)[0] != '0'
  {
    if n == 0 {
      ZeroText();
    } else {
      NumeralValue(n, 10);
      DigitsRoundTrip(Numeral(n, 10));
    }
  }

  /** A digit text without superfluous zeros is the text of its value. */
  lemma {:induction false} NatStringUnique(s: string)
    requires s != "" && AllDigits(s) && (s[0] == '0' ==> |s| == 1)
    ensures NatString(Nat10(s)) == s
  {
    var ds := DigitVals(s);
    if s[0] == '0' {
      assert ds == [] + [0];
      ValueSnoc([], 0, 10);
    } else {
      ValueNumeral(ds, 10);
      assert DigitChars(ds) == s;
      assert ds != [] && Nat10(s) != 0;
    }
  }

  lemma {:induction false} ParseNatString(n: nat)
    ensures NatString(n) != "" && IsDigit(NatString(n)[0]) && ParseNat(NatString(n)) == Some(n)
  {
    NatStringValue(n);
  }

  lemma {:induction false} ParseIntString(n: int)
    ensures ParseInt(IntString(n)) == Some(n)
  {
    var size := if n < 0 then -n else n;
    ParseNatString(size);
    assert ("-" + NatString(size))[1..] == NatString(size);
  }

  lemma {:induction false} Nat10Concat(a: string, b: string)
    requires AllDigits(a) && AllDigits(b)
    ensures AllDigits(a + b) && Nat10(a + b) == Nat10(a) * Pow(10, |b|) + Nat10(b)
  {
    assert DigitVals(a + b) == DigitVals(a) + DigitVals(b);
    ValueConcat(DigitVals(a), DigitVals(b), 10);
  }

  lemma {:induction false} Nat10Zeros(n: nat)
    ensures AllDigits(Repeat('0', n)) && Nat10(Repeat('0', n)) == 0
  {
    assert DigitVals(Repeat('0', n)) == Zeros(n);
    ValueZeros(n, 10);
  }

  // ---------------------------------------------------------------- FormatUnits

  function PadLeft(s: string, width: nat): (r: string)
  {
    if |s| >= width then s else Repeat('0', width - |s|) + s
  }

  function TrimRightZeros(s: string): (r: string)
  {
    if s != "" && s[|s| - 1] == '0' then TrimRightZeros(s[..|s| - 1]) else s
  }

  /** A non-negative amount as text: whole part, and the fraction without its
      trailing zeros. */
  function UnitsText(value: nat, decimals: nat): (r: string)
  {
    PowPositive(10, decimals);
    DecimalText(value / Pow(10, decimals), value % Pow(10, decimals), decimals)
  }

  function DecimalText(whole: nat, frac: nat, decimals: nat): (r: string)
  {
    if decimals == 0 || frac == 0 then NatString(whole)
    else NatString(whole) + "." + TrimRightZeros(PadLeft(NatString(frac), decimals))
  }

  function FormatUnits(units: string, decimals: int): (r: string)
  {
    var parsed := ParseInt(units);
    if parsed.None? || decimals < 0 then units
    else if parsed.value < 0 then "-" + UnitsText(-parsed.value, decimals)
    else UnitsText(parsed.value, decimals)
  }

  // ----------------------------------------------------------- parseTokenAmount

  /** What stands before and after the first dot; a missing whole part is "0". */
  function WholePart(text: string): (r: string)
  {
    var i := IndexOf(text, '.');
    var whole := if i >= 0 then text[..i] else text;
    if whole == "" then "0" else whole
  }

  function FracPart(text: string): (r: string)
  {
    var i := IndexOf(text, '.');
    if i >= 0 then text[i + 1..] else ""
  }

  method IsDigits(s: string) returns (r: bool)
    ensures r <==> s != "" && AllDigits(s)
  {
    if s == "" {
      return false;
    }
    for i := 0 to |s|
      invariant forall k :: 0 <= k < i ==> IsDigit(s[k])
    {
      if s[i] < '0' || s[i] > '9' {
        return false;
      }
    }
    return true;
  }

  function ParseTokenAmount(amount: string, decimals: int): (r: Result<nat>)
  {
    if decimals < 0 then Err("token decimals must not be negative")
    else
      var text := TrimSpace(amount);
      var whole, frac := WholePart(text), FracPart(text);
      if !AllDigits(whole) || !AllDigits(frac) then Err("amount must be a decimal number in token units")
      else if |frac| > decimals then Err("amount has too many decimal places")
      else
        Nat10Zeros(decimals - |frac|);
        Nat10Concat(whole, frac);
        Nat10Concat(whole + frac, Repeat('0', decimals - |frac|));
        var units := Nat10(whole + frac + Repeat('0', decimals - |frac|));
        if units <= 0 then Err("amount must be positive") else Ok(units)
  }

  // ------------------------------------------------------------ what a text means

  /** 0.d1d2d3... in units of 10^-places: the k-th digit weighs 10^(places - k). */
  function FracUnits(s: string, places: nat): (r: nat)
    requires AllDigits(s) && |s| <= places
  {
    if s == "" then 0
    else
      assert IsDigit(s[0]);
      (s[0] as nat - 48) * Pow(10, places - 1) + FracUnits(s[1..], places - 1)
  }

  /** A decimal number with at most the given number of places. */
  predicate WellFormed(text: string, places: int)
  {
    places >= 0 && AllDigits(WholePart(text)) && AllDigits(FracPart(text)) && |FracPart(text)| <= places
  }

  /** The number a decimal text denotes, in units of 10^-places. */
  function TextUnits(text: string, places: nat): (r: nat)
    requires WellFormed(text, places)
  {
    Nat10(WholePart(text)) * Pow(10, places) + FracUnits(FracPart(text), places)
  }

  lemma Nat10Cons(s: string)
    requires s != "" && AllDigits(s)
    ensures IsDigit(s[0]) && Nat10(s) == (s[0] as nat - 48) * Pow(10, |s| - 1) + Nat10(s[1..])
  {
    assert IsDigit(s[0]);
    ValueCons(s[0] as nat - 48, DigitVals(s[1..]), 10);
    assert DigitVals(s) == [s[0] as nat - 48] + DigitVals(s[1..]);
  }

  lemma {:induction false} FracPadded(s: string, places: nat)
    requires AllDigits(s) && |s| <= places
    ensures Nat10(s + Repeat('0', places - |s|)) == FracUnits(s, places)
  {
    hide Nat10, Pow, Repeat;
    var padded := s + Repeat('0', places - |s|);
    if s == "" {
      assert padded == Repeat('0', places);
      Nat10Zeros(places);
    } else {
      assert IsDigit(s[0]);
      FracPadded(s[1..], places - 1);
      Nat10Cons(padded);
      assert padded[1..] == s[1..] + Repeat('0', places - |s|);
    }
  }

  /** A text is accepted exactly when it is a positive decimal number of at most
      the token's precision, and then parses to exactly that number of units. */
  lemma {:induction false} ParsedValue(amount: string, decimals: int)
    ensures ParseTokenAmount(amount, decimals).Ok? <==>
            WellFormed(TrimSpace(amount), decimals) && TextUnits(TrimSpace(amount), decimals) > 0
    ensures ParseTokenAmount(amount, decimals).Ok? ==>
            ParseTokenAmount(amount, decimals).value == TextUnits(TrimSpace(amount), decimals)
  {
    hide Nat10, Pow, Repeat, TrimSpace, FracUnits, WholePart, FracPart;
    var text := TrimSpace(amount);
    if WellFormed(text, decimals) {
      var whole, frac := WholePart(text), FracPart(text);
      var padding := Repeat('0', decimals - |frac|);
      Nat10Zeros(decimals - |frac|);
      FracPadded(frac, decimals);
      assert whole + frac + padding == whole + (frac + padding);
      Nat10Concat(whole, frac + padding);
    }
  }

  // ---------------------------------------------------------- format, then parse

  /** No superfluous zero on either side and no dangling dot. */
  predicate Canonical(text: string)
  {
    var i := IndexOf(text, '.');
    var whole := if i >= 0 then text[..i] else text;
    && whole != "" && AllDigits(whole) && (whole[0] == '0' ==> |whole| == 1)
    && (i >= 0 ==> i + 1 < |text| && AllDigits(text[i + 1..]) && text[|text| - 1] != '0')
  }

  lemma {:induction false} TrimmedZeros(s: string)
    requires AllDigits(s)
    ensures AllDigits(TrimRightZeros(s)) && |TrimRightZeros(s)| <= |s|
    ensures s == TrimRightZeros(s) + Repeat('0', |s| - |TrimRightZeros(s)|)
    ensures TrimRightZeros(s) != "" ==> TrimRightZeros(s)[|TrimRightZeros(s)| - 1] != '0'
  {
    if s != "" && s[|s| - 1] == '0' {
      var init := s[..|s| - 1];
      TrimmedZeros(init);
      RepeatSnoc('0', |init| - |TrimRightZeros(init)|);
      assert s == init + "0";
    }
  }

  lemma RepeatSnoc(c: char, n: nat)
    ensures Repeat(c, n + 1) == Repeat(c, n) + [c]
  {
  }

  lemma NatStringWidth(n: nat, width: nat)
    requires 0 < n < Pow(10, width)
    ensures AllDigits(NatString(n)) && Nat10(NatString(n)) == n && |NatString(n)| <= width
  {
    NatStringValue(n);
    NumeralLength(n, 10, width);
  }

  /** The digits of the fraction: exactly `decimals` wide before trimming. */
  lemma {:induction false} FractionDigits(frac: nat, decimals: nat)
    requires 0 < frac < Pow(10, decimals)
    ensures var digits := TrimRightZeros(PadLeft(NatString(frac), decimals));
            && digits != "" && AllDigits(digits) && |digits| <= decimals && digits[|digits| - 1] != '0'
            && FracUnits(digits, decimals) == frac
  {
    hide Nat10, Pow, Repeat, FracUnits, TrimRightZeros;
    var s := NatString(frac);
    NatStringWidth(frac, decimals);
    var padded := PadLeft(s, decimals);
    assert padded == Repeat('0', decimals - |s|) + s;
    Nat10Zeros(decimals - |s|);
    Nat10Concat(Repeat('0', decimals - |s|), s);
    TrimmedZeros(padded);
    var digits := TrimRightZeros(padded);
    FracPadded(digits, decimals);
    assert digits == "" ==> padded == Repeat('0', decimals);
    Nat10Zeros(decimals);
  }

  lemma {:induction false} DottedParts(whole: string, frac: string)
    requires whole != "" && AllDigits(whole) && AllDigits(frac)
    ensures IndexOf(whole + "." + frac, '.') == |whole|
    ensures WholePart(whole + "." + frac) == whole && FracPart(whole + "." + frac) == frac
    ensures IndexOf(whole, '.') == -1 && WholePart(whole) == whole && FracPart(whole) == ""
  {
    var text := whole + "." + frac;
    var i := IndexOf(text, '.');
    assert forall k :: 0 <= k < |whole| ==> IsDigit(text[k]);
    assert text[|whole|] == '.';
    assert text[..|whole|] == whole && text[|whole| + 1..] == frac;
  }

  lemma {:induction false} NoTrimming(text: string)
    requires text != "" && IsDigit(text[0]) && IsDigit(text[|text| - 1])
    ensures TrimSpace(text) == text
  {
    TrimSpaceFixes(text);
  }

  lemma {:induction false} WholeTextMeaning(whole: nat, decimals: nat)
    ensures var text := NatString(whole);
            && Canonical(text) && TrimSpace(text) == text
            && WellFormed(text, decimals) && TextUnits(text, decimals) == whole * Pow(10, decimals)
  {
    hide Nat10, Pow, NatString, TrimSpace, IndexOf;
    NatStringValue(whole);
    ZeroString();
    DottedParts(NatString(whole), "");
    NoTrimming(NatString(whole));
  }

  lemma {:induction false} DottedTextMeaning(whole: nat, digits: string, decimals: nat)
    requires digits != "" && AllDigits(digits) && |digits| <= decimals && digits[|digits| - 1] != '0'
    ensures var text := NatString(whole) + "." + digits;
            && Canonical(text) && TrimSpace(text) == text
            && WellFormed(text, decimals) && TextUnits(text, decimals) == whole * Pow(10, decimals) + FracUnits(digits, decimals)
  {
    hide Nat10, Pow, NatString, TrimSpace, IndexOf, FracUnits, WholePart, FracPart;
    var w := NatString(whole);
    NatStringValue(whole);
    ZeroString();
    DottedParts(w, digits);
    var text := w + "." + digits;
    assert IsDigit(text[0]) && IsDigit(text[|text| - 1]);
    NoTrimming(text);
    assert text[|w| + 1..] == digits && text[..|w|] == w;
  }

  /** What the formatter writes: canonical, and worth whole units plus fraction. */
  lemma {:induction false} DecimalTextMeaning(whole: nat, frac: nat, decimals: nat)
    requires frac < Pow(10, decimals)
    ensures var text := DecimalText(whole, frac, decimals);
            && Canonical(text) && TrimSpace(text) == text
            && WellFormed(text, decimals) && TextUnits(text, decimals) == whole * Pow(10, decimals) + frac
  {
    hide Nat10, Pow, Canonical, WellFormed, TextUnits, TrimSpace, TrimRightZeros, PadLeft, NatString;
    WholeTextMeaning(whole, decimals);
    if decimals == 0 {
      PowZero(10);
    } else if frac > 0 {
      FractionDigits(frac, decimals);
      DottedTextMeaning(whole, TrimRightZeros(PadLeft(NatString(frac), decimals)), decimals);
    }
  }

  lemma ZeroString()
    ensures NatString(0) == "0"
  {
  }

  lemma PowZero(b: nat)
    ensures Pow(b, 0) == 1
  {
  }

  /** Formatting and parsing are inverse for every positive amount and every
      precision. */
  lemma {:induction false} FormatThenParse(units: nat, decimals: nat)
    requires units > 0
    ensures ParseTokenAmount(FormatUnits(IntString(units), decimals), decimals) == Ok(units)
  {
    hide Nat10, Pow, DecimalText, TrimSpace, TextUnits, WellFormed, Canonical, ParseInt, IntString, ParseTokenAmount;
    ParseIntString(units);
    PowPositive(10, decimals);
    var scale := Pow(10, decimals);
    Euclid(units, scale);
    DecimalTextMeaning(units / scale, units % scale, decimals);
    ParsedValue(UnitsText(units, decimals), decimals);
  }

  lemma {:induction false} FracUnitsBound(s: string, places: nat)
    requires AllDigits(s) && |s| <= places
    ensures FracUnits(s, places) < Pow(10, places)
    ensures s != "" && s[|s| - 1] != '0' ==> FracUnits(s, places) > 0
  {
    if s == "" {
      PowPositive(10, places);
    } else {
      var rest := s[1..];
      assert IsDigit(s[0]);
      FracUnitsBound(rest, places - 1);
      MulLe(s[0] as nat - 48, 9, Pow(10, places - 1));
      PowPositive(10, places - 1);
      assert |s| > 1 ==> rest[|rest| - 1] == s[|s| - 1];
      if s[0] != '0' { MulLe(1, s[0] as nat - 48, Pow(10, places - 1)); }
    }
  }

  lemma {:induction false} TrimPadded(s: string, n: nat)
    requires s != "" && s[|s| - 1] != '0'
    ensures TrimRightZeros(s + Repeat('0', n)) == s
  {
    if n == 0 {
      assert s + Repeat('0', 0) == s;
    } else {
      RepeatSnoc('0', n - 1);
      var all := s + Repeat('0', n);
      assert all[..|all| - 1] == s + Repeat('0', n - 1) && all[|all| - 1] == '0';
      TrimPadded(s, n - 1);
    }
  }

  lemma {:induction false} SameDigits(a: string, b: string)
    requires AllDigits(a) && AllDigits(b) && |a| == |b| && Nat10(a) == Nat10(b)
    ensures a == b
  {
    ValueInjective(DigitVals(a), DigitVals(b), 10);
    forall i | 0 <= i < |a| ensures a[i] == b[i] {
      assert DigitVals(a)[i] == DigitVals(b)[i];
    }
  }

  /** The formatter restores a fraction without trailing zeros from its units. */
  lemma {:induction false} FractionRestored(frac: string, places: nat)
    requires AllDigits(frac) && frac != "" && |frac| <= places && frac[|frac| - 1] != '0'
    ensures FracUnits(frac, places) > 0
    ensures TrimRightZeros(PadLeft(NatString(FracUnits(frac, places)), places)) == frac
  {
    hide Nat10, Pow, Repeat, FracUnits, TrimRightZeros, NatString;
    FracUnitsBound(frac, places);
    var units := FracUnits(frac, places);
    var s := NatString(units);
    NatStringWidth(units, places);
    Nat10Zeros(places - |s|);
    Nat10Concat(Repeat('0', places - |s|), s);
    FracPadded(frac, places);
    Nat10Zeros(places - |frac|);
    SameDigits(PadLeft(s, places), frac + Repeat('0', places - |frac|));
    TrimPadded(frac, places - |frac|);
  }

  /** A canonical text is the formatter's text for its own value. */
  lemma {:induction false} CanonicalRestored(text: string, places: nat)
    requires Canonical(text) && WellFormed(text, places)
    ensures UnitsText(TextUnits(text, places), places) == text
  {
    hide Nat10, Pow, FracUnits, TrimRightZeros, PadLeft, NatString;
    var i := IndexOf(text, '.');
    var whole := if i >= 0 then text[..i] else text;
    assert WholePart(text) == whole;
    var frac := FracPart(text);
    FracUnitsBound(frac, places);
    PowPositive(10, places);
    Split(Nat10(whole), FracUnits(frac, places), Pow(10, places));
    NatStringUnique(whole);
    if i >= 0 {
      FractionRestored(frac, places);
      assert text == whole + "." + frac;
    } else {
      NoFraction(places);
    }
  }

  lemma NoFraction(places: nat)
    ensures FracUnits("", places) == 0
  {
  }

  /** Formatting what was parsed gives the one canonical text of the same amount. */
  lemma {:induction false} ParseThenFormat(amount: string, decimals: nat, other: string)
    requires ParseTokenAmount(amount, decimals).Ok?
    ensures var units := ParseTokenAmount(amount, decimals).value;
            var text := FormatUnits(IntString(units), decimals);
            && Canonical(text) && ParseTokenAmount(text, decimals) == Ok(units)
            && (Canonical(other) && ParseTokenAmount(other, decimals) == Ok(units) ==> other == text)
  {
    hide Nat10, Pow, DecimalText, TrimSpace, TextUnits, WellFormed, ParseInt, IntString, ParseTokenAmount;
    ParsedValue(amount, decimals);
    var units := ParseTokenAmount(amount, decimals).value;
    FormatThenParse(units, decimals);
    ParseIntString(units);
    PowPositive(10, decimals);
    Euclid(units, Pow(10, decimals));
    DecimalTextMeaning(units / Pow(10, decimals), units % Pow(10, decimals), decimals);
    if Canonical(other) && ParseTokenAmount(other, decimals) == Ok(units) {
      CanonicalEnds(other);
      NoTrimming(other);
      ParsedValue(other, decimals);
      CanonicalRestored(other, decimals);
    }
  }

  lemma CanonicalEnds(text: string)
    requires Canonical(text)
    ensures text != "" && IsDigit(text[0]) && IsDigit(text[|text| - 1])
  {
    var i := IndexOf(text, '.');
    var whole := if i >= 0 then text[..i] else text;
    assert IsDigit(whole[0]) && whole[0] == text[0];
    if i >= 0 {
      var frac := text[i + 1..];
      assert IsDigit(frac[|frac| - 1]) && frac[|frac| - 1] == text[|text| - 1];
    } else {
      assert IsDigit(whole[|whole| - 1]);
    }
  }
}
