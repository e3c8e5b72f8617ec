/** The canonical decimal: its one spelling, the parser, the printer, and the exact conversion
    between human amounts and atomic units. */
module Decimals {

  import opened Outcomes
  import opened Fractions
  import opened PowersOfTen
  import opened DecimalText

  const MAX_WHOLE_DIGITS: nat := 30
  const MAX_PLACES: nat := 30

  // ---------------------------------------------------------------------------------
  // Spelling
  // ---------------------------------------------------------------------------------

  /** Where the first point is, or the length of a text without one. */
  function PointAt(s: string): (p: nat)
    ensures p <= |s|
    ensures p < |s| ==> s[p] == '.'
    decreases |s|
  {
    if s == "" || s[0] == '.' then 0 else 1 + PointAt(s[1..])
  }

  function WholeText(s: string): string {
    s[..PointAt(s)]
  }

  function FractionText(s: string): string {
    if PointAt(s) < |s| then s[PointAt(s) + 1..] else ""
  }

  /** Both parts without the point. */
  function Digits(s: string): string {
    WholeText(s) + FractionText(s)
  }

  predicate IsWhole(s: string) {
    s == "0" || (1 <= |s| <= MAX_WHOLE_DIGITS && s[0] != '0' && AllDigits(s))
  }

  predicate IsFraction(s: string) {
    1 <= |s| <= MAX_PLACES && AllDigits(s) && s[|s| - 1] != '0'
  }

  /** The single admissible spelling: no sign, no leading zero, no trailing zero. */
  predicate Spelling(s: string) {
    && IsWhole(WholeText(s))
    && (PointAt(s) < |s| ==> IsFraction(FractionText(s)))
  }

  function Chopped(s: string): string {
    if s != "" && s[|s| - 1] == '\n' then s[..|s| - 1] else s
  }

  /** What the pattern accepts: `$` also matches just before a final newline. */
  predicate Matches(s: string) {
    Spelling(s) || Spelling(Chopped(s))
  }

  // ---------------------------------------------------------------------------------
  // Parser and printer
  // ---------------------------------------------------------------------------------

  /** `int(s)`, which ignores a final newline. */
  function IntOf(s: string): nat
    requires AllDigits(Chopped(s))
  {
    Value(Chopped(s))
  }

  function Parse(s: string): Result<Frac> {
    if !Matches(s) then
      Refused(Malformed)
    else
      MatchesIsReadable(s);
      PowPositive(10, |FractionText(s)|);
      if PointAt(s) < |s| then
        Ok(Make(IntOf(Digits(s)), Pow(10, |FractionText(s)|)))
      else
        Ok(Whole(IntOf(s)))
  }

  function StripRight(s: string, c: char): string
    decreases |s|
  {
    if s != "" && s[|s| - 1] == c then StripRight(s[..|s| - 1], c) else s
  }

  function Pointed(text: string, scale: nat): string
    requires scale <= |text|
  {
    text[..|text| - scale] + "." + text[|text| - scale..]
  }

  function Rendering(scaled: nat, scale: nat): string {
    var text := Justified(Str(scaled), scale + 1);
    if scale == 0 then text else StripRight(StripRight(Pointed(text, scale), '0'), '.')
  }

  /** The value in units of its last place, by floor division. */
  function Scaled(num: nat, den: nat, scale: nat): nat
    requires 0 < den
  {
    num * Pow(10, scale) / den
  }

  function Format(f: Frac): Result<string>
    requires 0 < f.den
  {
    if f.num < 0 then Refused(Malformed)
    else if !Terminates(f.den) then Refused(Malformed)
    else if MAX_PLACES < Scale(f.den) then Refused(Malformed)
    else
      var out := Rendering(Scaled(f.num, f.den, Scale(f.den)), Scale(f.den));
      if Matches(out) then Ok(out) else Refused(Malformed)
  }

  /** The printer's loops count the factors two and five of the denominator. */
  method FormatCanonical(f: Frac) returns (r: Result<string>)
    requires 0 < f.den
    ensures r == Format(f)
  {
    if f.num < 0 { return Refused(Malformed); }
    var d: nat, twos: nat, fives: nat := f.den, 0, 0;
    while d % 2 == 0
      invariant 0 < d
      invariant twos + Multiplicity(d, 2) == Multiplicity(f.den, 2) && Rest(d, 2) == Rest(f.den, 2)
      decreases d
    {
      QuotientShrinks(d, 2);
      d, twos := d / 2, twos + 1;
    }
    assert d == Rest(f.den, 2);
    while d % 5 == 0
      invariant 0 < d
      invariant fives + Multiplicity(d, 5) == Multiplicity(Rest(f.den, 2), 5)
      invariant Rest(d, 5) == Rest(Rest(f.den, 2), 5)
      decreases d
    {
      QuotientShrinks(d, 5);
      d, fives := d / 5, fives + 1;
    }
    if d != 1 { return Refused(Malformed); }
    var scale := if twos < fives then fives else twos;
    assert scale == Scale(f.den);
    if MAX_PLACES < scale { return Refused(Malformed); }
    var out := Rendering(Scaled(f.num, f.den, scale), scale);
    return if Matches(out) then Ok(out) else Refused(Malformed);
  }

  // ---------------------------------------------------------------------------------
  // What a spelling denotes
  // ---------------------------------------------------------------------------------

  lemma SpellingIsDigits(s: string)
    requires Spelling(s)
    ensures AllDigits(Digits(s)) && Digits(s) != ""
    ensures PointAt(s) == |s| ==> Digits(s) == s && AllDigits(s)
    ensures PointAt(s) < |s| ==> s == WholeText(s) + "." + FractionText(s)
  {
    PartsOf(s);
    WholeIsDigits(WholeText(s));
    DigitsJoin(WholeText(s), FractionText(s));
  }

  lemma PartsOf(s: string)
    ensures PointAt(s) == |s| ==> WholeText(s) == s && FractionText(s) == "" && Digits(s) == s
    ensures PointAt(s) < |s| ==> s == WholeText(s) + "." + FractionText(s)
  {
    if PointAt(s) < |s| { SplitAt(s, PointAt(s)); }
  }

  lemma SplitAt(s: string, p: nat)
    requires p < |s|
    ensures s == s[..p] + [s[p]] + s[p + 1..]
  {
  }

  lemma WholeIsDigits(a: string)
    requires IsWhole(a)
    ensures AllDigits(a) && a != ""
  {
  }

  lemma DigitsJoin(a: string, b: string)
    requires AllDigits(a) && AllDigits(b)
    ensures AllDigits(a + b)
  {
  }

  lemma {:induction false} PointBeforeEnd(t: string, c: char)
    requires c != '.'
    ensures PointAt(t + [c]) == if PointAt(t) < |t| then PointAt(t) else |t| + 1
    decreases |t|
  {
    if t == "" {
      assert [c][1..] == "";
    } else if t[0] != '.' {
      assert (t + [c])[1..] == t[1..] + [c];
      PointBeforeEnd(t[1..], c);
    }
  }

  /** A final newline belongs to the last part of the text. */
  lemma NewlineParts(t: string)
    requires Spelling(t)
    ensures PointAt(t) < |t| ==>
              && PointAt(t + "\n") == PointAt(t)
              && WholeText(t + "\n") == WholeText(t)
              && FractionText(t + "\n") == FractionText(t) + "\n"
    ensures PointAt(t) == |t| ==> PointAt(t + "\n") == |t + "\n"|
  {
    PointBeforeEnd(t, '\n');
    if PointAt(t) < |t| { SlicesOfJoin(t, "\n", PointAt(t)); }
  }

  lemma SlicesOfJoin(t: string, e: string, p: nat)
    requires p < |t|
    ensures (t + e)[..p] == t[..p] && (t + e)[p + 1..] == t[p + 1..] + e
  {
  }

  lemma LastOfJoin(a: string, b: string)
    requires b != ""
    ensures (a + b)[|a + b| - 1] == b[|b| - 1]
  {
  }

  lemma NoNewlineInSpelling(s: string)
    requires Spelling(s)
    ensures s != "" && s[|s| - 1] != '\n' && Chopped(s) == s
    ensures Chopped(Digits(s)) == Digits(s)
  {
  }

  lemma ChopJoin(a: string, b: string)
    ensures Chopped(a + (b + "\n")) == a + b && Chopped(b + "\n") == b
  {
  }

  lemma ChopAndRejoin(s: string)
    ensures Chopped(s) == s || s == Chopped(s) + "\n"
  {
  }

  /** How a text with a final newline falls into parts. */
  lemma NewlineDigits(t: string)
    requires Spelling(t)
    ensures var s := t + "\n";
            && Chopped(s) == t && AllDigits(Digits(t))
            && (PointAt(t) < |t| ==> PointAt(s) < |s| && Chopped(Digits(s)) == Digits(t)
                                     && |FractionText(s)| == |FractionText(t)| + 1)
            && (PointAt(t) == |t| ==> PointAt(s) == |s| && AllDigits(t))
  {
    SpellingIsDigits(t);
    NewlineParts(t);
    ChopJoin("", t);
    ChopJoin(WholeText(t), FractionText(t));
  }

  /** What `int` is given is readable. */
  lemma MatchesIsReadable(s: string)
    requires Matches(s)
    ensures PointAt(s) < |s| ==> AllDigits(Chopped(Digits(s)))
    ensures PointAt(s) == |s| ==> AllDigits(Chopped(s))
  {
    if Spelling(s) {
      NoNewlineInSpelling(s);
      SpellingIsDigits(s);
    } else {
      ChopAndRejoin(s);
      NewlineDigits(Chopped(s));
    }
  }

  /** A spelling denotes its digits over the power of ten of its places. */
  lemma SpellingDenotes(s: string, f: Frac)
    requires Spelling(s) && Parse(s) == Ok(f)
    ensures AllDigits(Digits(s)) && f.Valid()
    ensures f.num * Pow(10, |FractionText(s)|) == Value(Digits(s)) * f.den
  {
    SpellingIsDigits(s);
    NoNewlineInSpelling(s);
    var k := |FractionText(s)|;
    PowPositive(10, k);
    if PointAt(s) < |s| {
      assert IntOf(Digits(s)) == Value(Digits(s));
      MakeIsValid(Value(Digits(s)), Pow(10, k));
    } else {
      WholeIsValid(Value(s));
    }
  }

  lemma WholeIsValid(n: int)
    ensures Whole(n).Valid()
  {
    UnitCombination(Abs(n), 1, 0, 1);
  }

  // ---------------------------------------------------------------------------------
  // The number-theoretic core
  // ---------------------------------------------------------------------------------

  /** When a reduced fraction is `v / 10^k`, its denominator divides `10^k`. */
  lemma ReducedDivides(f: Frac, v: nat, k: nat) returns (m: nat)
    requires f.Valid() && 0 <= f.num && f.num * Pow(10, k) == v * f.den
    ensures f.den * m == Pow(10, k)
  {
    var q := CoprimeDivides(f.num, f.den, Pow(10, k), v);
    PowPositive(10, k);
    if q < 0 { MulOrder(f.den, q, 0); }
    m := q;
  }

  lemma DivideExactly(n: int, g: int, p: int)
    requires 0 < g && n == g * p
    ensures n / g == p
  {
    var q, r := n / g, n % g;
    assert g * (p - q) == r by { assert g * (p - q) == g * p - g * q; }
    if p - q <= -1 { MulOrder(g, p - q, -1); }
    if 1 <= p - q { MulOrder(g, 1, p - q); }
  }

  lemma ScaledExactly(num: int, den: int, m: int, p: int)
    requires 0 < den && den * m == p
    ensures num * p / den == num * m
  {
    assert num * p == den * (num * m);
    DivideExactly(num * p, den, num * m);
  }

  /** The scaled numerator of a reduced fraction never ends in zero, unless it is whole. */
  lemma LastDigitCounts(f: Frac, m: nat, k: nat)
    requires f.Valid() && 0 <= f.num && f.den * m == Pow(10, k) && 0 < k
    requires Terminates(f.den) && Scale(f.den) == k
    ensures (f.num * m) % 10 != 0
  {
    var v := f.num * m;
    Natural(f.num, m);
    if v % 10 == 0 {
      Tenth(f.num, f.den, m, v / 10, Pow(10, k - 1));
      ScaleIsSmaller(f, v / 10, k - 1);
    }
  }

  lemma ScaleIsSmaller(f: Frac, w: nat, k: nat)
    requires f.Valid() && 0 <= f.num && f.num * Pow(10, k) == w * f.den
    ensures Terminates(f.den) && Scale(f.den) <= k
  {
    var q := ReducedDivides(f, w, k);
    DivisorTerminates(f.den, q, k);
  }

  lemma Natural(a: int, b: int)
    requires 0 <= a && 0 <= b
    ensures 0 <= a * b
  {
  }

  lemma Tenth(num: int, den: int, m: int, w: int, p: int)
    requires num * m == 10 * w && den * m == 10 * p
    ensures num * p == w * den
  {
  }

  /** A spelling's places are exactly the scale of its value. */
  lemma PlacesAreScale(f: Frac, v: nat, k: nat)
    requires f.Valid() && 0 <= f.num && f.num * Pow(10, k) == v * f.den
    requires 0 < k ==> v % 10 != 0
    ensures Terminates(f.den) && Scale(f.den) == k
    ensures Scaled(f.num, f.den, k) == v
  {
    var m := ReducedDivides(f, v, k);
    DivisorTerminates(f.den, m, k);
    ScaledExactly(f.num, f.den, m, Pow(10, k));
    ExactNumerator(f.num, f.den, m, v, Pow(10, k));
    if Scale(f.den) < k { CoarserMakesTens(f.num, f.den, m, Scale(f.den), k); }
  }

  lemma ExactNumerator(num: int, den: int, m: int, v: int, p: int)
    requires 0 < den && den * m == p && num * p == v * den
    ensures num * m == v
  {
  }

  lemma CoarserMakesTens(num: nat, den: nat, m: nat, t: nat, k: nat)
    requires 0 < den && den * m == Pow(10, k) && t < k
    requires Terminates(den) && Scale(den) == t
    ensures (num * m) % 10 == 0
  {
    var n := ScaleSuffices(den);
    PowAdds(10, t, k - t);
    ShorterMakesTens(num, den, m, n, Pow(10, t), Pow(10, k - t), Pow(10, k - t - 1));
  }

  lemma Rotate(a: int, b: int, c: int)
    ensures a * (b * c) == b * (a * c)
  {
  }

  lemma ShorterMakesTens(num: nat, den: nat, m: nat, n: nat, p: nat, q: nat, r: nat)
    requires 0 < den && den * m == p * q && den * n == p && q == 10 * r
    ensures (num * m) % 10 == 0
  {
    assert den * (n * q) == p * q by { Associate(den, n, q); }
    CancelFactor(den, m, n * q);
    assert num * m == 10 * (num * (n * r)) by {
      assert n * (10 * r) == 10 * (n * r);
      Rotate(num, 10, n * r);
    }
    MultipleHasNoRemainder(10, num * (n * r));
  }

  // ---------------------------------------------------------------------------------
  // The round trip
  // ---------------------------------------------------------------------------------

  lemma LastDigitOfValue(s: string)
    requires AllDigits(s) && s != ""
    ensures Value(s) % 10 == DigitOf(s[|s| - 1])
  {
  }

  lemma PointedParts(a: string, b: string)
    ensures Pointed(a + b, |b|) == a + "." + b
  {
  }

  /** The trailing-zero strip does nothing to a pointed text that ends in another digit. */
  lemma StripDoesNothing(s: string, c: char)
    requires s != "" && s[|s| - 1] != c
    ensures StripRight(s, c) == s
  {
  }

  lemma SpellingIsRendered(s: string)
    requires Spelling(s)
    ensures AllDigits(Digits(s)) && Rendering(Value(Digits(s)), |FractionText(s)|) == s
  {
    SpellingIsDigits(s);
    var a, b, d := WholeText(s), FractionText(s), Digits(s);
    JustifiedIsInverse(d, |b| + 1);
    if PointAt(s) < |s| {
      PointedParts(a, b);
      assert s[|s| - 1] == b[|b| - 1];
      StripDoesNothing(s, '0');
      StripDoesNothing(s, '.');
    }
  }

  /** Printing what was parsed gives every canonical spelling back. */
  lemma ParseThenFormat(s: string)
    requires Spelling(s)
    ensures Parse(s).Ok? && Parse(s).value.Valid() && 0 <= Parse(s).value.num
    ensures Format(Parse(s).value) == Ok(s)
  {
    var f := Parse(s).value;
    var v, k := SpellingScale(s, f);
    SpellingIsRendered(s);
  }

  lemma SpellingScale(s: string, f: Frac) returns (v: nat, k: nat)
    requires Spelling(s) && Parse(s) == Ok(f)
    ensures AllDigits(Digits(s)) && v == Value(Digits(s)) && k == |FractionText(s)|
    ensures f.Valid() && 0 <= f.num && Terminates(f.den) && Scale(f.den) == k
    ensures Scaled(f.num, f.den, k) == v
  {
    SpellingDenotes(s, f);
    v, k := Value(Digits(s)), |FractionText(s)|;
    PowPositive(10, k);
    NaturalQuotient(f.num, Pow(10, k), v, f.den);
    if 0 < k {
      LastOfJoin(WholeText(s), FractionText(s));
      LastDigitOfValue(Digits(s));
    }
    PlacesAreScale(f, v, k);
  }

  /** What the printer writes before its final check. */
  lemma RenderedText(v: nat, k: nat)
    requires 0 < k ==> v % 10 != 0
    ensures var text := Justified(Str(v), k + 1);
            && |text| >= k + 1 && AllDigits(text) && Value(text) == v
            && (0 < k ==> Rendering(v, k) == Pointed(text, k) && text[|text| - 1] != '0')
  {
    var text := Justified(Str(v), k + 1);
    JustifiedDenotes(v, k + 1);
    if 0 < k {
      LastDigitOfValue(text);
      var s := Pointed(text, k);
      assert s[|s| - 1] == text[|text| - 1];
      StripDoesNothing(s, '0');
      StripDoesNothing(s, '.');
    }
  }

  lemma {:induction false} PointAfterDigits(a: string, b: string)
    requires AllDigits(a)
    ensures PointAt(a + "." + b) == |a|
    ensures PointAt(a) == |a|
    decreases |a|
  {
    var s := a + "." + b;
    if a != "" {
      assert s[1..] == a[1..] + "." + b;
      PointAfterDigits(a[1..], b);
    }
  }

  lemma PointedIsReadBack(a: string, b: string)
    requires AllDigits(a)
    ensures WholeText(a + "." + b) == a && FractionText(a + "." + b) == b
  {
    PointAfterDigits(a, b);
  }

  /** The whole part of a justified text is `"0"` or has no leading zero. */
  lemma WholeOfJustified(v: nat, k: nat)
    ensures var text := Justified(Str(v), k + 1);
            var a := text[..|text| - k];
            a == "0" || (a != "" && a[0] != '0')
    ensures |Justified(Str(v), k + 1)| - k <= MAX_WHOLE_DIGITS <==> v < Pow(10, MAX_WHOLE_DIGITS + k)
  {
    StrShape(v);
    StrLength(v, MAX_WHOLE_DIGITS + k);
  }

  predicate NoLeadingZero(a: string) {
    AllDigits(a) && (a == "0" || (a != "" && a[0] != '0'))
  }

  lemma WholeTextIsSpelling(a: string)
    requires NoLeadingZero(a)
    ensures Matches(a) <==> |a| <= MAX_WHOLE_DIGITS
    ensures Matches(a) ==> Spelling(a)
    ensures Digits(a) == a && FractionText(a) == ""
  {
  }

  lemma PointedTextIsSpelling(a: string, b: string)
    requires NoLeadingZero(a) && IsFraction(b)
    ensures var s := a + "." + b;
            && (Matches(s) <==> |a| <= MAX_WHOLE_DIGITS)
            && (Matches(s) ==> Spelling(s))
            && Digits(s) == a + b && FractionText(s) == b
  {
    var s := a + "." + b;
    PointedIsReadBack(a, b);
    PointAfterDigits(a, b);
    LastOfJoin(a + ".", b);
    assert Chopped(s) == s;
  }

  /** The printed text is a spelling exactly when its value is below `10^30`. */
  lemma PrintedWhole(v: nat)
    ensures var out := Rendering(v, 0);
            && (Matches(out) <==> v < Pow(10, MAX_WHOLE_DIGITS))
            && (Matches(out) ==> Spelling(out))
            && AllDigits(Digits(out)) && Value(Digits(out)) == v && FractionText(out) == ""
  {
    var out := Justified(Str(v), 1);
    RenderedText(v, 0);
    StrShape(v);
    StrLength(v, MAX_WHOLE_DIGITS);
    assert out == Str(v);
    WholeTextIsSpelling(out);
  }

  lemma PrintedPlaces(v: nat, k: nat)
    requires 0 < k <= MAX_PLACES && v % 10 != 0
    ensures var out := Rendering(v, k);
            && (Matches(out) <==> v < Pow(10, MAX_WHOLE_DIGITS + k))
            && (Matches(out) ==> Spelling(out))
            && AllDigits(Digits(out)) && Value(Digits(out)) == v && |FractionText(out)| == k
  {
    var text := Justified(Str(v), k + 1);
    RenderedText(v, k);
    WholeOfJustified(v, k);
    var a, b := text[..|text| - k], text[|text| - k..];
    TextParts(text, k);
    PointedTextIsSpelling(a, b);
  }

  lemma TextParts(text: string, k: nat)
    requires 0 < k < |text| && k <= MAX_PLACES && AllDigits(text) && text[|text| - 1] != '0'
    ensures var a, b := text[..|text| - k], text[|text| - k..];
            text == a + b && AllDigits(a) && IsFraction(b)
  {
  }

  lemma PrintedText(v: nat, k: nat)
    requires k <= MAX_PLACES && (0 < k ==> v % 10 != 0)
    ensures var out := Rendering(v, k);
            && (Matches(out) <==> v < Pow(10, MAX_WHOLE_DIGITS + k))
            && (Matches(out) ==> Spelling(out))
            && AllDigits(Digits(out)) && Value(Digits(out)) == v && |FractionText(out)| == k
  {
    if k == 0 {
      PrintedWhole(v);
    } else {
      PrintedPlaces(v, k);
    }
  }

  /** What is printed of a terminating fraction are its exact scaled digits. */
  lemma ExactDigits(f: Frac) returns (v: nat)
    requires f.Valid() && 0 <= f.num && Terminates(f.den)
    ensures var k := Scale(f.den);
            && Scaled(f.num, f.den, k) == v && v * f.den == f.num * Pow(10, k)
            && (0 < k ==> v % 10 != 0)
  {
    var k := Scale(f.den);
    var m := ScaleSuffices(f.den);
    v := f.num * m;
    ScaledExactly(f.num, f.den, m, Pow(10, k));
    Rotate(f.den, f.num, m);
    if 0 < k { LastDigitCounts(f, m, k); }
  }

  /** Parsing what was printed gives every formattable fraction back, and print is canonical. */
  lemma FormatThenParse(f: Frac, s: string)
    requires f.Valid() && Format(f) == Ok(s)
    ensures Spelling(s) && Parse(s) == Ok(f)
  {
    var k := Scale(f.den);
    var v := ExactDigits(f);
    PrintedText(v, k);
    var g := Parse(s).value;
    SpellingDenotes(s, g);
    PowPositive(10, k);
    CrossCancel(v, Pow(10, k), g.num, g.den, f.num, f.den);
    ValidIsUnique(f, g);
  }

  /** Exactly the non-negative values below `10^30` whose denominator divides `10^30` print. */
  lemma Formattable(f: Frac)
    requires f.Valid()
    ensures Format(f).Ok? <==>
            && 0 <= f.num < Pow(10, MAX_WHOLE_DIGITS) * f.den
            && Divides(f.den, Pow(10, MAX_PLACES))
  {
    DividesPowerOfTen(f.den, MAX_PLACES);
    if 0 <= f.num && Terminates(f.den) && Scale(f.den) <= MAX_PLACES { FormatsBelow(f); }
  }

  lemma FormatsBelow(f: Frac)
    requires f.Valid() && 0 <= f.num && Terminates(f.den) && Scale(f.den) <= MAX_PLACES
    ensures Format(f).Ok? <==> f.num < Pow(10, MAX_WHOLE_DIGITS) * f.den
  {
    var v, k := ShortDigits(f);
    BelowPower(Format(f).Ok?, f, v, k, MAX_WHOLE_DIGITS);
  }

  lemma ShortDigits(f: Frac) returns (v: nat, k: nat)
    requires f.Valid() && 0 <= f.num && Terminates(f.den) && Scale(f.den) <= MAX_PLACES
    ensures v * f.den == f.num * Pow(10, k)
    ensures Format(f).Ok? <==> v < Pow(10, MAX_WHOLE_DIGITS + k)
  {
    k := Scale(f.den);
    v := ExactDigits(f);
    assert Format(f).Ok? == Matches(Rendering(v, k));
    PrintedText(v, k);
  }

  lemma BelowPower(short: bool, f: Frac, v: nat, k: nat, w: nat)
    requires 0 < f.den && v * f.den == f.num * Pow(10, k)
    requires short <==> v < Pow(10, w + k)
    ensures short <==> f.num < Pow(10, w) * f.den
  {
    PowPositive(10, k);
    PowAdds(10, w, k);
    SameBound(f.num, f.den, v, Pow(10, k), Pow(10, w));
  }

  lemma SameBound(num: int, den: int, v: int, p: int, q: int)
    requires 0 < den && 0 < p && v * den == num * p
    ensures v < q * p <==> num < q * den
  {
  }

  /** Every canonical value has one spelling. */
  lemma SpellingIsUnique(s: string, t: string)
    requires Spelling(s) && Spelling(t) && Parse(s) == Parse(t)
    ensures s == t
  {
    ParseThenFormat(s);
    ParseThenFormat(t);
  }

  // ---------------------------------------------------------------------------------
  // The final newline
  // ---------------------------------------------------------------------------------

  /** The round trip over everything the parser accepts holds exactly without a final newline. */
  lemma RoundTripExactly(s: string)
    requires Parse(s).Ok?
    ensures Parse(s).value.Valid()
    ensures Format(Parse(s).value) == Ok(s) <==> s[|s| - 1] != '\n'
  {
    if Spelling(s) {
      ParseThenFormat(s);
      NoNewlineInSpelling(s);
    } else {
      ChopAndRejoin(s);
      NewlineIsTenth(Chopped(s));
      if Format(Parse(s).value) == Ok(s) {
        FormatThenParse(Parse(s).value, s);
      }
    }
  }

  /** Whatever is accepted denotes a non-negative fraction in lowest terms. */
  lemma AcceptedIsNatural(s: string)
    requires Parse(s).Ok?
    ensures Parse(s).value.Valid() && 0 <= Parse(s).value.num
  {
    if Spelling(s) {
      ParseThenFormat(s);
    } else {
      ChopAndRejoin(s);
      var t := Chopped(s);
      NewlineIsTenth(t);
      ParseThenFormat(t);
      if PointAt(t) < |t| {
        var g := NewlineDenotes(t);
        PowPositive(10, |FractionText(t)| + 1);
        NaturalQuotient(g.num, Pow(10, |FractionText(t)| + 1), Value(Digits(t)), g.den);
      }
    }
  }

  /** A final newline counts as one more place after a point, and is ignored without one. */
  lemma NewlineIsTenth(t: string)
    requires Spelling(t)
    ensures Parse(t).Ok? && Parse(t + "\n").Ok?
    ensures Parse(t + "\n").value.Valid()
    ensures var f, g := Parse(t).value, Parse(t + "\n").value;
            if PointAt(t) < |t| then 10 * g.num * f.den == f.num * g.den else g == f
  {
    NewlineDigits(t);
    NoNewlineInSpelling(t);
    var f := Parse(t).value;
    SpellingDenotes(t, f);
    if PointAt(t) < |t| {
      var k, v := |FractionText(t)|, Value(Digits(t));
      var g := NewlineDenotes(t);
      PowPositive(10, k);
      TenthOf(f.num, f.den, g.num, g.den, v, Pow(10, k));
    }
  }

  lemma NewlineDenotes(t: string) returns (g: Frac)
    requires Spelling(t) && PointAt(t) < |t|
    ensures Parse(t + "\n") == Ok(g) && g.Valid() && AllDigits(Digits(t))
    ensures g.num * Pow(10, |FractionText(t)| + 1) == Value(Digits(t)) * g.den
  {
    NewlineDigits(t);
    var k, v := |FractionText(t)|, Value(Digits(t));
    PowPositive(10, k + 1);
    g := Make(v, Pow(10, k + 1));
    MakeIsValid(v, Pow(10, k + 1));
  }

  lemma TenthOf(a: int, b: int, c: int, d: int, v: int, p: int)
    requires 0 < p && a * p == v * b && c * (10 * p) == v * d
    ensures 10 * c * b == a * d
  {
  }

  // ---------------------------------------------------------------------------------
  // The grammar
  // ---------------------------------------------------------------------------------

  /** A zero, or up to thirty digits that begin with no zero; then perhaps a point and up to thirty more that
      end with no zero. */
  ghost predicate IsAmount(s: string, a: string, b: string) {
    && (a == "0" || (1 <= |a| <= 30 && a[0] != '0' && forall c <- a :: '0' <= c <= '9'))
    && (s == a || (s == a + "." + b && 1 <= |b| <= 30 && b[|b| - 1] != '0' && forall c <- b :: '0' <= c <= '9'))
  }

  lemma DigitsAre(s: string)
    ensures AllDigits(s) <==> forall c <- s :: '0' <= c <= '9'
  {
    if forall c <- s :: '0' <= c <= '9' {
      assert forall i :: 0 <= i < |s| ==> s[i] in s;
    }
    if AllDigits(s) {
      assert forall c <- s :: IsDigit(c);
    }
  }

  lemma SpellingIsAmount(s: string)
    requires Spelling(s)
    ensures IsAmount(s, WholeText(s), FractionText(s))
  {
    DigitsAre(WholeText(s));
    DigitsAre(FractionText(s));
    if PointAt(s) < |s| { assert s == WholeText(s) + "." + FractionText(s); }
  }

  lemma AmountIsSpelling(s: string, a: string, b: string)
    requires IsAmount(s, a, b)
    ensures Spelling(s)
  {
    DigitsAre(a);
    DigitsAre(b);
    if s == a { WholeTextIsSpelling(a); } else { PointAfterDigits(a, b); }
  }

  /** Exactly these texts are accepted, with or without a final newline. */
  lemma AcceptedExactly(s: string)
    ensures Parse(s).Ok? <==> exists t: string, a: string, b: string :: (s == t || s == t + "\n") && IsAmount(t, a, b)
  {
    if Spelling(s) {
      SpellingIsAmount(s);
    } else if Spelling(Chopped(s)) {
      ChopAndRejoin(s);
      SpellingIsAmount(Chopped(s));
    }
    if t: string, a: string, b: string :| (s == t || s == t + "\n") && IsAmount(t, a, b) {
      AmountIsSpelling(t, a, b);
      NoNewlineInSpelling(t);
      assert s == t + "\n" ==> Chopped(s) == t;
    }
  }

  /** Places count from the left, in tens. */
  lemma PlacesAreTens()
    ensures Parse("1.5") == Ok(Frac(3, 2)) && Parse("307") == Ok(Frac(307, 1))
  {
    var s, a, b := "1.5", "1", "5";
    assert s == a + "." + b && a + b == "15";
    AmountIsSpelling(s, a, b);
    PointedIsReadBack(a, b);
    PointAfterDigits(a, b);
    ValuesOfPlaces();
    assert Gcd(1, 1) == 1 && Gcd(1, 2) == 1 && Gcd(3, 2) == 1;
    assert Pow(10, 1) == 10;
    MakeIs(15, 10, Frac(3, 2));
    NoNewlineInSpelling(s);
    var w := "307";
    AmountIsSpelling(w, w, "");
    PointAfterDigits(w, "");
    NoNewlineInSpelling(w);
  }

  lemma ValuesOfPlaces()
    ensures Value("15") == 15 && Value("307") == 307
  {
    assert "15"[..1] == "1" && "307"[..2] == "30" && "30"[..1] == "3" && "3"[..0] == "" && "1"[..0] == "";
    assert Value("1") == 1 && Value("3") == 3;
    assert Value("30") == 30;
  }

  // ---------------------------------------------------------------------------------
  // Atomic units
  // ---------------------------------------------------------------------------------

  function ToAtomic(f: Frac, decimals: nat): Result<int>
    requires 0 < f.den
  {
    var scaled := Times(f, Whole(Pow(10, decimals)));
    if scaled.den != 1 then Refused(Malformed) else Ok(scaled.num)
  }

  function FromAtomic(atomic: int, decimals: nat): Frac {
    PowPositive(10, decimals);
    Make(atomic, Pow(10, decimals))
  }

  /** The conversion to atomic units is the one exact integer, or a refusal. */
  lemma ToAtomicIsExact(f: Frac, decimals: nat, n: int)
    requires f.Valid()
    ensures ToAtomic(f, decimals) == Ok(n) <==> f.num * Pow(10, decimals) == n * f.den
  {
    var p := Pow(10, decimals);
    MakeIsValid(f.num * p, f.den * 1);
    var scaled := Make(f.num * p, f.den * 1);
    if f.num * p == n * f.den {
      WholeIsValid(n);
      MakeIs(f.num * p, f.den * 1, Whole(n));
    }
  }

  lemma AtomicRoundTrip(n: int, decimals: nat)
    ensures FromAtomic(n, decimals).Valid() && ToAtomic(FromAtomic(n, decimals), decimals) == Ok(n)
  {
    PowPositive(10, decimals);
    MakeIsValid(n, Pow(10, decimals));
    ToAtomicIsExact(FromAtomic(n, decimals), decimals, n);
  }

  lemma HumanRoundTrip(f: Frac, decimals: nat)
    requires f.Valid() && ToAtomic(f, decimals).Ok?
    ensures FromAtomic(ToAtomic(f, decimals).value, decimals) == f
  {
    var n := ToAtomic(f, decimals).value;
    ToAtomicIsExact(f, decimals, n);
    PowPositive(10, decimals);
    MakeIs(n, Pow(10, decimals), f);
  }

  /** An amount converts exactly when it needs no more fractional digits than there are decimals. */
  lemma AtomicWhenFineEnough(f: Frac, decimals: nat)
    requires f.Valid()
    ensures ToAtomic(f, decimals).Ok? <==> Terminates(f.den) && Scale(f.den) <= decimals
  {
    var p := Pow(10, decimals);
    PowPositive(10, decimals);
    DividesPowerOfTen(f.den, decimals);
    if ToAtomic(f, decimals).Ok? {
      var n := ToAtomic(f, decimals).value;
      ToAtomicIsExact(f, decimals, n);
      AbsProduct(f.num, p);
      AbsProduct(n, f.den);
      var q := CoprimeDivides(Abs(f.num), f.den, p, Abs(n));
      if q < 0 { MulOrder(f.den, q, 0); }
      var m: nat := q;
      assert f.den * m == p;
    }
    if Divides(f.den, p) {
      var m: nat :| f.den * m == p;
      Rotate(f.den, f.num, m);
      ToAtomicIsExact(f, decimals, f.num * m);
    }
  }
}
