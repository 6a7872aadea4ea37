/** Decimal strings and integer base units, and the trimmed form for display. */
module Money {

  datatype MoneyResult<T> = Ok(value: T) | MoneyConversionError

  // ---- digits ----

  predicate IsDigit(c: char) { '0' <= c <= '9' }

  predicate AllDigits(s: string)
  {
    forall i :: 0 <= i < |s| ==> IsDigit(s[i])
  }

  function DigitOf(n: nat): char
    requires n < 10
  {
    '0' + n as char
  }

  function ValueOf(c: char): nat
    requires IsDigit(c)
  {
    (c - '0') as nat
  }

  /** What `BigInt` reads from a digit string. */
  function ParseNat(s: string): nat
    requires AllDigits(s)
  {
    if s == "" then 0 else ParseNat(s[..|s| - 1]) * 10 + ValueOf(s[|s| - 1])
  }

  /** What `toString` writes of a non-negative bigint. */
  function Digits(n: nat): string
  {
    if n < 10 then [DigitOf(n)] else Digits(n / 10) + [DigitOf(n % 10)]
  }

  function Zeros(n: int): (s: string)
    ensures AllDigits(s) && |s| == if n <= 0 then 0 else n
    ensures forall i :: 0 <= i < |s| ==> s[i] == '0'
  {
    if n <= 0 then "" else Zeros(n - 1) + "0"
  }

  function PadStart(s: string, n: int): string { Zeros(n - |s|) + s }

  function PadEnd(s: string, n: int): string { s + Zeros(n - |s|) }

  function Pow10(n: nat): nat { if n == 0 then 1 else 10 * Pow10(n - 1) }

  // ---- the conversions ----

  /** The first dot, or -1. */
  function IndexOfDot(s: string): (i: int)
    ensures -1 <= i < |s|
    ensures i >= 0 ==> s[i] == '.' && forall j :: 0 <= j < i ==> s[j] != '.'
    ensures i == -1 ==> '.' !in s
  {
    if s == "" then -1
    else if s[0] == '.' then 0
    else
      var i := IndexOfDot(s[1..]);
      if i == -1 then -1 else i + 1
  }

  /** The pattern: digits, then optionally a dot and more digits, and nothing else. */
  predicate IsDecimalLiteral(s: string)
  {
    var i := IndexOfDot(s);
    if i == -1 then s != "" && AllDigits(s)
    else i > 0 && AllDigits(s[..i]) && i + 1 < |s| && AllDigits(s[i + 1..])
  }

  function WholePart(s: string): string
  {
    var i := IndexOfDot(s);
    if i == -1 then s else s[..i]
  }

  function FractionalPart(s: string): string
  {
    var i := IndexOfDot(s);
    if i == -1 then "" else s[i + 1..]
  }

  function DecimalToBaseUnits(decimal: string, decimals: int): MoneyResult<nat>
  {
    if decimals < 0 then MoneyConversionError
    else if !IsDecimalLiteral(decimal) then MoneyConversionError
    else if |FractionalPart(decimal)| > decimals then MoneyConversionError
    else Ok(ParseNat(WholePart(decimal) + PadEnd(FractionalPart(decimal), decimals)))
  }

  function BaseUnitsToDecimalString(amount: int, decimals: int): MoneyResult<string>
  {
    if decimals < 0 then MoneyConversionError
    else if amount < 0 then MoneyConversionError
    else
      var digits := PadStart(Digits(amount), decimals + 1);
      if decimals == 0 then Ok(digits)
      else
        assert |digits| > decimals;
        Ok(digits[..|digits| - decimals] + "." + digits[|digits| - decimals..])
  }

  function DecimalToPositiveBaseUnits(decimal: string, decimals: int): MoneyResult<nat>
  {
    var amount := DecimalToBaseUnits(decimal, decimals);
    if amount.Ok? && amount.value <= 0 then MoneyConversionError else amount
  }

  /** Without its trailing zeros. */
  function TrimZeros(s: string): (t: string)
    ensures t <= s && forall i :: |t| <= i < |s| ==> s[i] == '0'
    ensures t != "" ==> t[|t| - 1] != '0'
  {
    if s != "" && s[|s| - 1] == '0' then TrimZeros(s[..|s| - 1]) else s
  }

  function TrimDot(s: string): string
  {
    if s != "" && s[|s| - 1] == '.' then s[..|s| - 1] else s
  }

  function FormatAmount(amount: int, decimals: int): MoneyResult<string>
  {
    var full := BaseUnitsToDecimalString(amount, decimals);
    if full.MoneyConversionError? || '.' !in full.value then full
    else
      var trimmed := TrimDot(TrimZeros(full.value));
      Ok(if trimmed == "" then "0" else trimmed)
  }

  // ---- digits, both ways ----

  lemma {:induction false} DigitsParse(n: nat)
    ensures AllDigits(Digits(n)) && Digits(n) != "" && ParseNat(Digits(n)) == n
    ensures |Digits(n)| > 1 ==> Digits(n)[0] != '0'
  {
    if n < 10 {
      assert ParseNat([DigitOf(n)]) == ParseNat("") * 10 + ValueOf(DigitOf(n));
    } else {
      DigitsParse(n / 10);
      assert Digits(n)[..|Digits(n)| - 1] == Digits(n / 10);
      if |Digits(n / 10)| == 1 { assert n / 10 < 10; }
    }
  }

  lemma ParseSnoc(s: string, c: char)
    requires AllDigits(s) && IsDigit(c)
    ensures AllDigits(s + [c]) && ParseNat(s + [c]) == ParseNat(s) * 10 + ValueOf(c)
  {
    assert (s + [c])[..|s|] == s;
  }

  lemma ZeroValue()
    ensures IsDigit('0') && ValueOf('0') == 0
  {
  }

  lemma {:induction false} LeadingZeros(k: int, s: string)
    requires AllDigits(s)
    ensures AllDigits(Zeros(k) + s) && ParseNat(Zeros(k) + s) == ParseNat(s)
    decreases |s|, k
  {
    hide ParseNat;
    if s != "" {
      var front, c := s[..|s| - 1], s[|s| - 1];
      LeadingZeros(k, front);
      assert s == front + [c] && Zeros(k) + s == (Zeros(k) + front) + [c];
      ParseSnoc(front, c);
      ParseSnoc(Zeros(k) + front, c);
    } else if k > 0 {
      LeadingZeros(k - 1, "");
      assert Zeros(k) + "" == (Zeros(k - 1) + "") + ['0'];
      ZeroValue();
      ParseSnoc(Zeros(k - 1) + "", '0');
      ParseEmpty();
    } else {
      assert Zeros(k) + s == s;
    }
  }

  lemma ParseEmpty()
    ensures ParseNat("") == 0
  {
  }

  lemma {:induction false} TrailingZeros(s: string, k: nat)
    requires AllDigits(s)
    ensures AllDigits(s + Zeros(k)) && ParseNat(s + Zeros(k)) == ParseNat(s) * Pow10(k)
  {
    hide ParseNat;
    if k == 0 {
      assert s + Zeros(0) == s;
    } else {
      TrailingZeros(s, k - 1);
      assert s + Zeros(k) == (s + Zeros(k - 1)) + ['0'];
      ZeroValue();
      ParseSnoc(s + Zeros(k - 1), '0');
      var n, p := ParseNat(s), Pow10(k - 1);
      assert n * p * 10 == n * (10 * p);
    }
  }

  /** Writing one more digit behind a positive number. */
  lemma DigitsAppend(n: nat, c: char)
    requires n > 0 && IsDigit(c)
    ensures Digits(n * 10 + ValueOf(c)) == Digits(n) + [c]
  {
    assert (n * 10 + ValueOf(c)) / 10 == n && (n * 10 + ValueOf(c)) % 10 == ValueOf(c);
    assert DigitOf(ValueOf(c)) == c;
  }

  lemma DigitsOne(c: char)
    requires IsDigit(c)
    ensures Digits(ValueOf(c)) == [c]
  {
  }

  /** The number's digits behind leading zeros, filling the width. */
  ghost predicate PadsTo(d: string, s: string)
  {
    |d| <= |s| && PadStart(d, |s|) == s
  }

  lemma PadAppend(d: string, front: string, c: char)
    requires PadsTo(d, front)
    ensures PadsTo(d + [c], front + [c])
  {
    assert Zeros(|front| - |d|) + d + [c] == Zeros(|front| - |d|) + (d + [c]);
  }

  lemma PadZeroAppend(front: string, c: char)
    requires front != "" && PadsTo("0", front)
    ensures PadsTo([c], front + [c])
  {
    assert front == Zeros(|front| - 1) + "0" == Zeros(|front|);
  }

  lemma PadOne(c: char)
    ensures PadsTo([c], [c])
  {
    assert Zeros(0) + [c] == [c];
  }

  lemma ParseDigitsSnoc(front: string, c: char)
    requires AllDigits(front) && IsDigit(c) && (front == "" || PadsTo(Digits(ParseNat(front)), front))
    ensures AllDigits(front + [c]) && PadsTo(Digits(ParseNat(front + [c])), front + [c])
  {
    hide *;
    ParseSnoc(front, c);
    DigitsOne(c);
    if front == "" {
      ParseEmpty();
      PadOne(c);
      assert front + [c] == [c];
    } else {
      var n := ParseNat(front);
      if n == 0 {
        ZeroValue();
        DigitsOne('0');
        PadZeroAppend(front, c);
      } else {
        DigitsAppend(n, c);
        PadAppend(Digits(n), front, c);
      }
    }
  }

  /** A digit string is its number's digits behind leading zeros. */
  lemma {:induction false} ParseDigits(s: string)
    requires AllDigits(s) && s != ""
    ensures PadsTo(Digits(ParseNat(s)), s)
  {
    hide ParseNat, Digits, PadsTo;
    var front, c := s[..|s| - 1], s[|s| - 1];
    if front != "" { ParseDigits(front); }
    ParseDigitsSnoc(front, c);
    assert s == front + [c];
  }

  // ---- literals ----

  lemma DotAfterDigits(w: string, f: string)
    requires AllDigits(w)
    ensures IndexOfDot(w + "." + f) == |w| && IndexOfDot(w) == -1
    ensures WholePart(w + "." + f) == w && FractionalPart(w + "." + f) == f
  {
    var s := w + "." + f;
    assert s[|w|] == '.' && s[|w|] in s;
    assert forall j :: 0 <= j < |w| ==> w[j] != '.' && s[j] != '.';
    assert IndexOfDot(s) == |w|;
  }

  /** The pattern, as a grammar. */
  lemma LiteralExactly(s: string)
    ensures IsDecimalLiteral(s) <==>
      || (s != "" && AllDigits(s))
      || (exists w, f :: w != "" && f != "" && AllDigits(w) && AllDigits(f) && s == w + "." + f)
  {
    if IsDecimalLiteral(s) && IndexOfDot(s) != -1 {
      var i := IndexOfDot(s);
      assert s == s[..i] + "." + s[i + 1..];
      assert s[..i] != "" && s[i + 1..] != "" && AllDigits(s[..i]) && AllDigits(s[i + 1..]);
    }
    if s != "" && AllDigits(s) { DotAfterDigits(s, ""); }
    if exists w, f :: w != "" && f != "" && AllDigits(w) && AllDigits(f) && s == w + "." + f {
      var w, f :| w != "" && f != "" && AllDigits(w) && AllDigits(f) && s == w + "." + f;
      DotAfterDigits(w, f);
      assert s[..|w|] == w && s[|w| + 1..] == f;
    }
  }

  // ---- the promises ----

  /** Parsing accepts exactly the well-formed strings with no more fraction digits than the asset has. */
  lemma AcceptsExactly(s: string, decimals: int)
    ensures DecimalToBaseUnits(s, decimals).Ok? <==>
      && decimals >= 0
      && ((s != "" && AllDigits(s))
          || exists w, f :: w != "" && f != "" && |f| <= decimals && AllDigits(w) && AllDigits(f) && s == w + "." + f)
  {
    LiteralExactly(s);
    if IsDecimalLiteral(s) {
      if AllDigits(s) {
        DotAfterDigits(s, "");
      } else {
        var i := IndexOfDot(s);
        assert s == s[..i] + "." + s[i + 1..];
        forall w, f | AllDigits(w) && s == w + "." + f ensures f == FractionalPart(s) { DotAfterDigits(w, f); }
        assert s[..i] != "" && s[i + 1..] != "" && AllDigits(s[..i]) && AllDigits(s[i + 1..]);
      }
    }
  }

  /** And it never rounds: the units are the digits read as one number, scaled by the digits that were not written. */
  lemma ParsesTheValue(s: string, decimals: int)
    requires DecimalToBaseUnits(s, decimals).Ok?
    ensures AllDigits(WholePart(s) + FractionalPart(s)) && |FractionalPart(s)| <= decimals
    ensures DecimalToBaseUnits(s, decimals).value
      == ParseNat(WholePart(s) + FractionalPart(s)) * Pow10(decimals - |FractionalPart(s)|)
  {
    var w, f := WholePart(s), FractionalPart(s);
    TrailingZeros(w + f, decimals - |f|);
    assert w + PadEnd(f, decimals) == w + f + Zeros(decimals - |f|);
  }

  /** What rendering writes: one dot with exactly `decimals` digits behind it, or none, and no needless leading zero. */
  predicate IsCanonical(s: string, decimals: int)
  {
    && IsDecimalLiteral(s)
    && |FractionalPart(s)| == decimals
    && (|WholePart(s)| == 1 || WholePart(s)[0] != '0')
  }

  lemma RenderedDigits(amount: nat, decimals: nat)
    ensures var d := PadStart(Digits(amount), decimals + 1);
      && AllDigits(d) && |d| >= decimals + 1 && ParseNat(d) == amount
      && (|d| == decimals + 1 || d[0] != '0')
  {
    DigitsParse(amount);
    LeadingZeros(decimals + 1 - |Digits(amount)|, Digits(amount));
  }

  /** A rendering, in its two parts. */
  ghost predicate RendersAs(amount: nat, decimals: nat, w: string, f: string)
  {
    && AllDigits(w) && AllDigits(f) && w != "" && |f| == decimals && (|w| == 1 || w[0] != '0')
    && AllDigits(w + f) && ParseNat(w + f) == amount
    && BaseUnitsToDecimalString(amount, decimals) == Ok(if decimals == 0 then w else w + "." + f)
  }

  lemma Rendered(amount: nat, decimals: nat) returns (w: string, f: string)
    ensures RendersAs(amount, decimals, w, f)
  {
    RenderedDigits(amount, decimals);
    var d := PadStart(Digits(amount), decimals + 1);
    hide Digits, PadStart, ParseNat;
    w, f := d[..|d| - decimals], d[|d| - decimals..];
    assert w + f == d;
    if decimals == 0 { assert w == d; }
  }

  lemma PartsOf(amount: nat, decimals: nat, w: string, f: string)
    requires RendersAs(amount, decimals, w, f)
    ensures var s := BaseUnitsToDecimalString(amount, decimals).value;
      && WholePart(s) == w && FractionalPart(s) == f && IsDecimalLiteral(s)
      && (decimals == 0 <==> '.' !in s)
  {
    hide BaseUnitsToDecimalString, ParseNat;
    DotAfterDigits(w, f);
    if decimals > 0 {
      var s := w + "." + f;
      assert s[..|w|] == w && s[|w| + 1..] == f && s[|w|] == '.';
    }
  }

  /** Rendering and reading back gives the amount, for every amount and precision. */
  lemma RoundTrip(amount: nat, decimals: nat)
    ensures var s := BaseUnitsToDecimalString(amount, decimals);
      s.Ok? && IsCanonical(s.value, decimals) && DecimalToBaseUnits(s.value, decimals) == Ok(amount)
  {
    var w, f := Rendered(amount, decimals);
    PartsOf(amount, decimals, w, f);
    hide BaseUnitsToDecimalString, ParseNat, IsDecimalLiteral, WholePart, FractionalPart;
    assert PadEnd(f, decimals) == f;
  }

  /** Digits that fill at least the width, without a needless leading zero, are what padding writes. */
  lemma PadsFully(d: string, t: string, width: nat)
    requires PadsTo(d, t) && |t| >= width && d != ""
    requires |t| == width || t[0] != '0'
    ensures PadStart(d, width) == t
  {
    if |d| < |t| {
      assert Zeros(|t| - |d|)[0] == t[0];
    }
  }

  /** Cutting the padded digits where the dot goes. */
  lemma RendersCut(v: nat, w: string, f: string, decimals: nat)
    requires w != "" && |f| == decimals && PadStart(Digits(v), decimals + 1) == w + f
    ensures BaseUnitsToDecimalString(v, decimals) == Ok(if decimals == 0 then w else w + "." + f)
  {
    hide Digits, PadStart;
    var t := w + f;
    assert t[..|t| - decimals] == w && t[|t| - decimals..] == f;
    assert decimals == 0 ==> t == w;
  }

  /** Rendering the value of two digit parts joins them again. */
  lemma RendersParts(w: string, f: string, decimals: nat)
    requires AllDigits(w) && AllDigits(f) && w != "" && |f| == decimals && (|w| == 1 || w[0] != '0')
    ensures AllDigits(w + f)
    ensures BaseUnitsToDecimalString(ParseNat(w + f), decimals) == Ok(if decimals == 0 then w else w + "." + f)
  {
    var t := w + f;
    assert AllDigits(t) && t[0] == w[0] && |t| == |w| + decimals;
    hide *;
    ParseDigits(t);
    var v := ParseNat(t);
    DigitsParse(v);
    PadsFully(Digits(v), t, decimals + 1);
    RendersCut(v, w, f, decimals);
  }

  lemma LiteralParts(s: string)
    requires IsDecimalLiteral(s)
    ensures AllDigits(WholePart(s)) && AllDigits(FractionalPart(s)) && WholePart(s) != ""
    ensures s == if FractionalPart(s) == "" then WholePart(s) else WholePart(s) + "." + FractionalPart(s)
  {
  }

  /** A canonical string is the rendering of its own value: no two render alike. */
  lemma CanonicalUnique(s: string, decimals: nat)
    requires IsCanonical(s, decimals)
    ensures var v := DecimalToBaseUnits(s, decimals); v.Ok? && BaseUnitsToDecimalString(v.value, decimals) == Ok(s)
  {
    var w, f := WholePart(s), FractionalPart(s);
    LiteralParts(s);
    hide IsDecimalLiteral, WholePart, FractionalPart, ParseNat, BaseUnitsToDecimalString;
    assert PadEnd(f, decimals) == f;
    RendersParts(w, f, decimals);
  }

  /** Any accepted string re-renders to the canonical string of the same value. */
  lemma NormalisesTo(s: string, decimals: int)
    requires DecimalToBaseUnits(s, decimals).Ok?
    ensures var v := DecimalToBaseUnits(s, decimals).value; var c := BaseUnitsToDecimalString(v, decimals);
      && c.Ok? && IsCanonical(c.value, decimals) && DecimalToBaseUnits(c.value, decimals) == Ok(v)
      && (IsCanonical(s, decimals) <==> c.value == s)
  {
    RoundTrip(DecimalToBaseUnits(s, decimals).value, decimals);
    if IsCanonical(s, decimals) { CanonicalUnique(s, decimals); }
  }

  lemma TrimLast(s: string, c: char)
    ensures TrimZeros(s + [c]) == if c == '0' then TrimZeros(s) else s + [c]
  {
    assert (s + [c])[..|s|] == s;
  }

  /** Trimming stops at the dot. */
  lemma {:induction false} TrimsFraction(w: string, f: string)
    ensures TrimZeros(w + "." + f) == w + "." + TrimZeros(f)
  {
    hide TrimZeros;
    if f == "" {
      TrimLast(w, '.');
      assert w + "." + "" == w + "." && TrimZeros("") == "";
    } else {
      var front, c := f[..|f| - 1], f[|f| - 1];
      assert f == front + [c] && w + "." + f == (w + "." + front) + [c];
      TrimLast(front, c);
      TrimLast(w + "." + front, c);
      TrimsFraction(w, front);
    }
  }

  /** Dropping a last dot: only the dot of an empty fraction goes. */
  lemma TrimDotParts(w: string, t: string)
    requires t == "" || t[|t| - 1] != '.'
    ensures TrimDot(w + "." + t) == if t == "" then w else w + "." + t
  {
    var s := w + "." + t;
    if t == "" {
      assert s == w + ".";
      assert s[..|s| - 1] == w;
    } else {
      LastOfParts(w, t);
    }
  }

  /** Display form of a rendering with a fraction. */
  lemma TrimmedForm(w: string, f: string)
    requires AllDigits(f) && w != ""
    ensures var t := TrimZeros(f); TrimDot(TrimZeros(w + "." + f)) == if t == "" then w else w + "." + t
  {
    var t := TrimZeros(f);
    assert t != "" ==> t[|t| - 1] == f[|t| - 1] && IsDigit(f[|t| - 1]);
    hide *;
    TrimsFraction(w, f);
    TrimDotParts(w, t);
  }

  /** What display shows: the whole part, and the fraction without trailing zeros if any is left. */
  lemma FormatShows(amount: nat, decimals: nat, w: string, f: string)
    requires decimals > 0 && RendersAs(amount, decimals, w, f)
    ensures FormatAmount(amount, decimals) == Ok(if TrimZeros(f) == "" then w else w + "." + TrimZeros(f))
    ensures TrimDot(TrimZeros(BaseUnitsToDecimalString(amount, decimals).value)) != ""
  {
    PartsOf(amount, decimals, w, f);
    TrimmedForm(w, f);
    hide BaseUnitsToDecimalString, ParseNat, TrimZeros, TrimDot, IsDecimalLiteral, WholePart, FractionalPart;
  }

  /** The displayed string parses back to the amount as well, and ends in no needless zero or dot. */
  lemma FormatRoundTrip(amount: nat, decimals: nat)
    ensures var s := FormatAmount(amount, decimals);
      && s.Ok? && DecimalToBaseUnits(s.value, decimals) == Ok(amount)
      && (FractionalPart(s.value) != "" ==> s.value[|s.value| - 1] != '0')
  {
    RoundTrip(amount, decimals);
    var w, f := Rendered(amount, decimals);
    PartsOf(amount, decimals, w, f);
    if decimals > 0 {
      FormatShows(amount, decimals, w, f);
      TrimmedParses(amount, decimals, w, f);
    }
  }

  /** A whole part and a fraction, read back. */
  lemma PartsParse(w: string, t: string, decimals: nat)
    requires AllDigits(w) && w != "" && AllDigits(t) && |t| <= decimals
    ensures var s := if t == "" then w else w + "." + t;
      DecimalToBaseUnits(s, decimals) == Ok(ParseNat(w + PadEnd(t, decimals))) && FractionalPart(s) == t
  {
    hide ParseNat;
    DotAfterDigits(w, t);
    if t != "" {
      var s := w + "." + t;
      assert s[..|w|] == w && s[|w| + 1..] == t;
    }
  }

  lemma RefillsZeros(t: string, f: string)
    requires t <= f && forall i :: |t| <= i < |f| ==> f[i] == '0'
    ensures PadEnd(t, |f|) == f
  {
    var padded := PadEnd(t, |f|);
    assert forall i :: 0 <= i < |f| ==> padded[i] == f[i];
  }

  lemma TrimmedParses(amount: nat, decimals: nat, w: string, f: string)
    requires decimals > 0 && RendersAs(amount, decimals, w, f)
    ensures var t := TrimZeros(f); var s := if t == "" then w else w + "." + t;
      && DecimalToBaseUnits(s, decimals) == Ok(amount)
      && (FractionalPart(s) != "" ==> s[|s| - 1] != '0')
  {
    var t := TrimZeros(f);
    hide TrimZeros;
    assert PadEnd(t, decimals) == f by { RefillsZeros(t, f); }
    assert AllDigits(t) by { assert forall i :: 0 <= i < |t| ==> t[i] == f[i]; }
    PartsParse(w, t, decimals);
    hide *;
    if t != "" { LastOfParts(w, t); }
  }

  lemma LastOfParts(w: string, t: string)
    requires t != ""
    ensures (w + "." + t)[|w + "." + t| - 1] == t[|t| - 1]
  {
  }

  /** The fallback to "0" in the display form is never needed. */
  lemma TrimmedNeverEmpty(amount: int, decimals: int)
    requires BaseUnitsToDecimalString(amount, decimals).Ok? && '.' in BaseUnitsToDecimalString(amount, decimals).value
    ensures TrimDot(TrimZeros(BaseUnitsToDecimalString(amount, decimals).value)) != ""
  {
    var w, f := Rendered(amount, decimals);
    PartsOf(amount, decimals, w, f);
    FormatShows(amount, decimals, w, f);
  }

  /** A digit string is zero exactly when all its digits are. */
  lemma {:induction false} ZeroExactly(s: string)
    requires AllDigits(s)
    ensures ParseNat(s) == 0 <==> forall i :: 0 <= i < |s| ==> s[i] == '0'
  {
    if s != "" {
      var front, c := s[..|s| - 1], s[|s| - 1];
      ZeroExactly(front);
      assert s == front + [c] && forall i :: 0 <= i < |front| ==> front[i] == s[i];
      ParseSnoc(front, c);
    }
  }

  /** Somewhere in the string stands a digit from 1 to 9. */
  predicate HasNonZeroDigit(s: string)
  {
    exists i :: 0 <= i < |s| && '1' <= s[i] <= '9'
  }

  lemma DigitsOfParts(s: string)
    requires IsDecimalLiteral(s)
    ensures AllDigits(WholePart(s)) && AllDigits(FractionalPart(s))
    ensures HasNonZeroDigit(s) <==> HasNonZeroDigit(WholePart(s)) || HasNonZeroDigit(FractionalPart(s))
  {
    var d := IndexOfDot(s);
    LiteralParts(s);
    var w, f := WholePart(s), FractionalPart(s);
    assert forall i :: 0 <= i < |w| ==> s[i] == w[i];
    if d != -1 {
      assert forall i :: 0 <= i < |f| ==> s[d + 1 + i] == f[i];
      forall i | 0 <= i < |s| && '1' <= s[i] <= '9' ensures HasNonZeroDigit(w) || HasNonZeroDigit(f) {
        if i < d { assert w[i] == s[i]; } else { assert i > d && f[i - d - 1] == s[i]; }
      }
    }
  }

  lemma PositiveNat(s: string)
    requires AllDigits(s)
    ensures ParseNat(s) > 0 <==> HasNonZeroDigit(s)
  {
    ZeroExactly(s);
    hide ParseNat;
  }

  lemma NonZeroPadded(w: string, f: string, decimals: int)
    requires AllDigits(w) && AllDigits(f)
    ensures AllDigits(w + PadEnd(f, decimals))
    ensures HasNonZeroDigit(w + PadEnd(f, decimals)) <==> HasNonZeroDigit(w) || HasNonZeroDigit(f)
  {
    var t := w + PadEnd(f, decimals);
    assert forall i :: 0 <= i < |w| ==> t[i] == w[i];
    assert forall i :: 0 <= i < |f| ==> t[|w| + i] == f[i];
    assert forall i :: |w| + |f| <= i < |t| ==> t[i] == '0';
    NonZeroJoins(w, f, t);
  }

  lemma NonZeroJoins(w: string, f: string, t: string)
    requires |w| + |f| <= |t|
    requires forall i :: 0 <= i < |w| ==> t[i] == w[i]
    requires forall i :: 0 <= i < |f| ==> t[|w| + i] == f[i]
    requires forall i :: |w| + |f| <= i < |t| ==> t[i] == '0'
    ensures HasNonZeroDigit(t) <==> HasNonZeroDigit(w) || HasNonZeroDigit(f)
  {
    if HasNonZeroDigit(t) {
      var i :| 0 <= i < |t| && '1' <= t[i] <= '9';
      if i < |w| { assert w[i] == t[i]; } else { assert f[i - |w|] == t[|w| + (i - |w|)]; }
    }
  }

  /** Parsed to something positive exactly when some written digit is not zero. */
  lemma PositiveDigits(s: string, decimals: int)
    requires DecimalToBaseUnits(s, decimals).Ok?
    ensures DecimalToBaseUnits(s, decimals).value > 0 <==> HasNonZeroDigit(s)
  {
    var w, f := WholePart(s), FractionalPart(s);
    assert IsDecimalLiteral(s);
    DigitsOfParts(s);
    NonZeroPadded(w, f, decimals);
    assert DecimalToBaseUnits(s, decimals) == Ok(ParseNat(w + PadEnd(f, decimals)));
    hide *;
    PositiveNat(w + PadEnd(f, decimals));
  }

  /**
   * The charge and refund boundary accepts exactly the well-formed strings in
   * which some digit is not zero, with the amount the plain parser gives.
   */
  lemma PositiveExactly(s: string, decimals: int)
    ensures DecimalToPositiveBaseUnits(s, decimals).Ok? <==> DecimalToBaseUnits(s, decimals).Ok? && HasNonZeroDigit(s)
    ensures DecimalToPositiveBaseUnits(s, decimals).Ok? ==>
      DecimalToPositiveBaseUnits(s, decimals) == DecimalToBaseUnits(s, decimals) && DecimalToPositiveBaseUnits(s, decimals).value > 0
  {
    if DecimalToBaseUnits(s, decimals).Ok? { PositiveDigits(s, decimals); }
  }
}
