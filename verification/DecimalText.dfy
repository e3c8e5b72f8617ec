/** Decimal digit strings: what `int()` reads and `str()` writes. */
module DecimalText {

  import opened PowersOfTen

  predicate IsDigit(c: char) {
    '0' <= c <= '9'
  }

  predicate AllDigits(s: string) {
    forall i :: 0 <= i < |s| ==> IsDigit(s[i])
  }

  function DigitOf(c: char): nat
    requires IsDigit(c)
  {
    c as int - '0' as int
  }

  function CharOf(d: nat): (c: char)
    requires d < 10
    ensures IsDigit(c) && DigitOf(c) == d
  {
    (d + '0' as int) as char
  }

  /** The number a digit string denotes. */
  function Value(s: string): nat
    requires AllDigits(s)
    decreases |s|
  {
    if s == "" then 0 else 10 * Value(s[..|s| - 1]) + DigitOf(s[|s| - 1])
  }

  /** `str(n)`. */
  function Str(n: nat): (s: string)
    ensures s != "" && AllDigits(s)
    decreases n
  {
    if n < 10 then [CharOf(n)] else Str(n / 10) + [CharOf(n % 10)]
  }

  function Zeros(n: nat): (s: string)
    ensures |s| == n && AllDigits(s)
  {
    seq(n, i => '0')
  }

  /** `s.rjust(width, "0")`. */
  function Justified(s: string, width: nat): (r: string)
    ensures AllDigits(s) ==> AllDigits(r)
    ensures |r| == if |s| < width then width else |s|
  {
    if |s| < width then Zeros(width - |s|) + s else s
  }

  lemma ValueAppend(s: string, c: char)
    requires AllDigits(s) && IsDigit(c)
    ensures AllDigits(s + [c]) && Value(s + [c]) == 10 * Value(s) + DigitOf(c)
  {
  }

  lemma {:induction false} StrDenotes(n: nat)
    ensures Value(Str(n)) == n
    decreases n
  {
    if n < 10 {
      ValueAppend("", CharOf(n));
      assert [CharOf(n)] == "" + [CharOf(n)];
    } else {
      StrDenotes(n / 10);
      ValueAppend(Str(n / 10), CharOf(n % 10));
    }
  }

  lemma {:induction false} ValueBound(s: string)
    requires AllDigits(s)
    ensures Value(s) < Pow(10, |s|)
    decreases |s|
  {
    if s != "" { ValueBound(s[..|s| - 1]); }
  }

  lemma {:induction false} ValueAtLeast(s: string)
    requires AllDigits(s) && s != "" && s[0] != '0'
    ensures Pow(10, |s| - 1) <= Value(s)
    decreases |s|
  {
    if |s| == 1 {
      ValueAppend("", s[0]);
      assert s == "" + [s[0]];
    } else {
      ValueAtLeast(s[..|s| - 1]);
    }
  }

  lemma {:induction false} LeadingZeros(k: nat, s: string)
    requires AllDigits(s)
    ensures AllDigits(Zeros(k) + s) && Value(Zeros(k) + s) == Value(s)
    decreases |s|, k
  {
    var z := Zeros(k) + s;
    if s == "" {
      if k != 0 {
        assert z[..|z| - 1] == Zeros(k - 1) + "";
        LeadingZeros(k - 1, "");
      }
    } else {
      assert z[..|z| - 1] == Zeros(k) + s[..|s| - 1];
      LeadingZeros(k, s[..|s| - 1]);
    }
  }

  lemma JustifiedDenotes(n: nat, width: nat)
    ensures Value(Justified(Str(n), width)) == n
  {
    StrDenotes(n);
    var s := Str(n);
    if |s| < width { LeadingZeros(width - |s|, s); }
  }

  /** Digit strings of one length are told apart by their values. */
  lemma {:induction false} SameWidthSameValue(s: string, t: string)
    requires AllDigits(s) && AllDigits(t) && |s| == |t| && Value(s) == Value(t)
    ensures s == t
    decreases |s|
  {
    if s != "" {
      var a, b := s[..|s| - 1], t[..|t| - 1];
      var c, d := s[|s| - 1], t[|t| - 1];
      SameWidthSameValue(a, b);
      assert s == a + [c] && t == b + [d];
    }
  }

  /** `str` writes no leading zero, except for zero itself. */
  lemma {:induction false} StrShape(n: nat)
    ensures Str(n) == "0" || Str(n)[0] != '0'
    ensures n != 0 ==> Str(n)[0] != '0'
    decreases n
  {
    if 10 <= n { StrShape(n / 10); }
  }

  /** How many digits `str` writes. */
  lemma StrLength(n: nat, w: nat)
    requires 0 < w
    ensures |Str(n)| <= w <==> n < Pow(10, w)
  {
  }

  lemma WidthOfValue(s: string)
    requires AllDigits(s) && s != ""
    ensures |Str(Value(s))| <= |s|
    ensures s[0] != '0' ==> |Str(Value(s))| == |s|
  {
    var n := Value(s);
    ValueBound(s);
    StrLength(n, |s|);
    if s[0] != '0' && 1 < |s| {
      ValueAtLeast(s);
      StrLength(n, |s| - 1);
    }
  }

  /** Writing the value of a digit string back at its own width gives the string again. */
  lemma JustifiedIsInverse(s: string, width: nat)
    requires AllDigits(s) && 0 < width <= |s|
    requires |s| == width || s[0] != '0'
    ensures Justified(Str(Value(s)), width) == s
  {
    WidthOfValue(s);
    JustifiedDenotes(Value(s), width);
    var t := Justified(Str(Value(s)), width);
    assert |t| == |s|;
    SameWidthSameValue(t, s);
  }
}
