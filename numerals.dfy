/**
 * Decimal numerals as the diary form reads and writes them: `parseFloat`,
 * `parseInt`, `Number.prototype.toFixed(1)` and `Number.prototype.toString`
 * on the text the form's sanitisers let through. Values are exact reals;
 * IEEE-754 binary rounding is not modelled.
 */
module Numerals {
  import opened Optional
  import opened Text

  predicate IsDigit(c: char) { '0' <= c <= '9' }

  predicate AllDigits(s: string) { forall i :: 0 <= i < |s| ==> IsDigit(s[i]) }

  function DigitValue(c: char): nat
    requires IsDigit(c)
  {
    c as int - '0' as int
  }

  function DigitChar(d: nat): (c: char)
    requires d < 10
    ensures IsDigit(c) && DigitValue(c) == d
  {
    ('0' as int + d) as char
  }

  /** The value of a (possibly empty) run of decimal digits, most significant first. */
  function DigitsValue(s: string): nat
    requires AllDigits(s)
    decreases |s|
  {
    if s == [] then 0 else DigitsValue(s[..|s| - 1]) * 10 + DigitValue(s[|s| - 1])
  }

  /** `n.toString()` for a non-negative integer: shortest decimal text, no leading zero,
      and it reads back as `n`. */
  function NatToDigits(n: nat): (s: string)
    ensures 1 <= |s| && AllDigits(s)
    ensures |s| > 1 ==> s[0] != '0'
    ensures DigitsValue(s) == n
    decreases n
  {
    if n < 10 then [DigitChar(n)]
    else
      var t := NatToDigits(n / 10);
      var s := t + [DigitChar(n % 10)];
      assert s[..|s| - 1] == t;
      s
  }

  /** Integers below 1000 print in at most three digits. */
  lemma {:induction false} NatToDigitsLength(n: nat)
    requires n < 1000
    ensures |NatToDigits(n)| <= 3
  {
    if n >= 10 {
      NatToDigitsLength(n / 10);
      if n / 10 >= 10 {
        assert n / 10 / 10 < 10;
      }
    }
  }

  /** The text after an optional leading minus sign. */
  function Unsigned(s: string): string
  {
    if |s| > 0 && s[0] == '-' then s[1..] else s
  }

  /** Text of the shape `-?d*(.d*)?`: the only shapes that reach `parseFloat` in the form. */
  predicate IsNumeral(s: string)
  {
    var parts := Split(Unsigned(s), '.');
    |parts| <= 2 && forall i :: 0 <= i < |parts| ==> AllDigits(parts[i])
  }

  /** `parseFloat(s)` on a numeral; `None` stands for `NaN`. */
  function ParseFloat(s: string): (r: Option<real>)
    requires IsNumeral(s)
  {
    var parts := Split(Unsigned(s), '.');
    var whole := parts[0];
    var frac := if |parts| == 2 then parts[1] else [];
    if whole == [] && frac == [] then None
    else
      var v := DigitsValue(whole) as real + FractionValue(frac);
      Some(if |s| > 0 && s[0] == '-' then -v else v)
  }

  /** A value read after a minus sign is never positive, and one read without it is never
      negative. */
  lemma {:induction false} ParseFloatSign(s: string)
    requires IsNumeral(s)
    ensures ParseFloat(s).Some? && |s| > 0 && s[0] == '-' ==> ParseFloat(s).value <= 0.0
    ensures ParseFloat(s).Some? && !(|s| > 0 && s[0] == '-') ==> ParseFloat(s).value >= 0.0
  {
    var parts := Split(Unsigned(s), '.');
    var frac := if |parts| == 2 then parts[1] else [];
    if |parts| == 2 {
      assert FractionValue(frac) >= 0.0;
    }
  }

  /** The value `0.d₁d₂…` of the digits after a decimal point, each a tenth of the one before. */
  function FractionValue(frac: string): (v: real)
    requires AllDigits(frac)
    ensures 0.0 <= v < 1.0
    decreases |frac|
  {
    if frac == [] then 0.0 else (DigitValue(frac[0]) as real + FractionValue(frac[1..])) / 10.0
  }

  /** `parseFloat` yields `NaN` exactly on a numeral without a digit (`""`, `"."`, `"-"`). */
  lemma {:induction false} ParseFloatNaN(s: string)
    requires IsNumeral(s)
    ensures ParseFloat(s).None? <==> forall i :: 0 <= i < |s| ==> !IsDigit(s[i])
  {
    var u := Unsigned(s);
    var parts := Split(u, '.');
    var frac := if |parts| == 2 then parts[1] else [];
    assert Join(parts, '.') == u;
    if |parts| == 2 {
      assert Join(parts[1..], '.') == parts[1];
      assert u == parts[0] + ['.'] + parts[1];
    }
    if parts[0] == [] && frac == [] {
      assert u == [] || u == ['.'];
      forall i | 0 <= i < |s| ensures !IsDigit(s[i]) {
        if |s| > 0 && s[0] == '-' {
          assert i == 0 || s[i] == u[i - 1];
        } else {
          assert s[i] == u[i];
        }
      }
    } else {
      var j: nat :| j < |u| && IsDigit(u[j]) by {
        if parts[0] != [] {
          assert IsDigit(u[0]);
        } else {
          assert IsDigit(u[|parts[0]| + 1]);
        }
      }
      if |s| > 0 && s[0] == '-' {
        assert s[j + 1] == u[j];
      } else {
        assert s[j] == u[j];
      }
    }
  }

  /** `parseInt(s)` on a run of digits; `None` stands for `NaN`. */
  function ParseInt(s: string): (r: Option<nat>)
    requires AllDigits(s)
    ensures r.None? <==> s == []
  {
    if s == [] then None else Some(DigitsValue(s))
  }

  /** On a run of digits `parseFloat` and `parseInt` agree. */
  lemma {:induction false} ParseDigits(s: string)
    requires AllDigits(s)
    ensures IsNumeral(s)
    ensures ParseFloat(s) == if s == [] then None else Some(DigitsValue(s) as real)
  {
    assert Unsigned(s) == s by {
      if |s| > 0 { assert IsDigit(s[0]); }
    }
    SplitDigits(s);
    assert FractionValue([]) == 0.0;
  }

  /** A run of digits has no point to split at. */
  lemma {:induction false} SplitDigits(s: string)
    requires AllDigits(s)
    ensures Split(s, '.') == [s]
  {
    forall i | 0 <= i < |s| ensures s[i] != '.' {
      assert IsDigit(s[i]);
    }
    SplitPrefix(s, [], '.');
    assert s + [] == s;
    assert Split([], '.') == [[]];
  }

  /** `parseFloat(x) || 0`: `NaN` (and zero) become zero. */
  /** `x || 0` on a parsed number: `NaN` becomes 0, so the result is positive exactly when a
      positive number was read. */
  function OrZero(o: Option<real>): (r: real)
    ensures r > 0.0 <==> o.Some? && o.value > 0.0
    ensures o.None? ==> r == 0.0
  {
    match o
    case None => 0.0
    case Some(v) => v
  }

  /** The integer `toFixed(1)` prints, in tenths: the integer nearest to `10x`, ties away from zero. */
  function RoundTenths(x: real): (n: int)
    ensures x >= 0.0 ==> 0 <= n && x * 10.0 - 0.5 < n as real <= x * 10.0 + 0.5
    ensures x < 0.0 ==> n <= 0 && x * 10.0 - 0.5 <= n as real < x * 10.0 + 0.5
  {
    if x < 0.0 then -((-x) * 10.0 + 0.5).Floor else (x * 10.0 + 0.5).Floor
  }

  /** `x` rounded to one decimal place: never more than half a tenth away from `x`. */
  function Round1(x: real): (r: real)
    ensures x - 0.05 <= r <= x + 0.05
  {
    RoundTenths(x) as real / 10.0
  }

  /** The number of tenths `toFixed(1)` prints after any minus sign. */
  function TenthsMagnitude(x: real): nat
  {
    if x < 0.0 then -RoundTenths(x) else RoundTenths(x)
  }

  /** One-decimal text: an optional minus sign, the whole part of `n` tenths, a point and the
      last tenth. */
  function FixedText(negative: bool, n: nat): string
  {
    (if negative then "-" else "") + NatToDigits(n / 10) + "." + [DigitChar(n % 10)]
  }

  /** `x.toFixed(1)`: an optional minus sign, the whole tenths, a point and one digit.
      It always reads back as `x` rounded to one decimal place. */
  function ToFixed1(x: real): (s: string)
    ensures IsNumeral(s)
    ensures ParseFloat(s) == Some(Round1(x))
  {
    var n := TenthsMagnitude(x);
    var s := FixedText(x < 0.0, n);
    FixedTextReadsBack(x < 0.0, n);
    s
  }

  /** `x.toFixed(1)` is the one-decimal text of the rounded magnitude of `x`. */
  lemma {:induction false} ToFixed1Text(x: real)
    ensures ToFixed1(x) == FixedText(x < 0.0, TenthsMagnitude(x))
  {
  }

  /** The shape of `x.toFixed(1)`: it starts with a minus sign exactly when `x` is negative;
      after the sign come a non-empty run of digits without a leading zero, one point, and
      exactly one digit. */
  lemma {:induction false} ToFixed1Shape(x: real)
    ensures var s := ToFixed1(x); var u := Unsigned(s);
      && (|s| > 0 && s[0] == '-' <==> x < 0.0)
      && |u| >= 3 && u[|u| - 2] == '.' && IsDigit(u[|u| - 1])
      && AllDigits(u[..|u| - 2])
      && (|u| > 3 ==> u[0] != '0')
  {
    var n := TenthsMagnitude(x);
    ToFixed1Text(x);
    FixedTextSign(x < 0.0, n);
    var whole := NatToDigits(n / 10);
    var u := whole + "." + [DigitChar(n % 10)];
    assert u[..|u| - 2] == whole;
  }

  /** One-decimal text starts with a minus sign exactly when it is negative, and after the
      sign comes the whole part, a point and the last tenth. */
  lemma {:induction false} FixedTextSign(negative: bool, n: nat)
    ensures var s := FixedText(negative, n);
      && Unsigned(s) == NatToDigits(n / 10) + "." + [DigitChar(n % 10)]
      && (|s| > 0 && s[0] == '-' <==> negative)
  {
    var whole, d := NatToDigits(n / 10), DigitChar(n % 10);
    var body := whole + "." + [d];
    var s := FixedText(negative, n);
    assert IsDigit(whole[0]) && body[0] == whole[0];
    if negative {
      assert s == "-" + body && s[1..] == body;
    } else {
      assert s == body;
    }
  }

  /** Without a minus sign, one-decimal text is the whole part, a point and the last tenth. */
  lemma {:induction false} UnsignedFixedText(n: nat)
    ensures FixedText(false, n) == NatToDigits(n / 10) + "." + [DigitChar(n % 10)]
  {
    assert "" + NatToDigits(n / 10) == NatToDigits(n / 10);
  }

  /** One-decimal text reads back as its tenths, negated after a minus sign. */
  lemma {:induction false} FixedTextReadsBack(negative: bool, n: nat)
    ensures IsNumeral(FixedText(negative, n))
    ensures ParseFloat(FixedText(negative, n)) == Some(if negative then -(n as real / 10.0) else n as real / 10.0)
  {
    var whole, d := NatToDigits(n / 10), DigitChar(n % 10);
    var body := whole + "." + [d];
    var s := FixedText(negative, n);
    FixedTextSign(negative, n);
    FixedReadsBack(s, whole, d);
    TenthsSplit(n);
  }

  /** `n` tenths are `n / 10` units and `n % 10` tenths. */
  lemma {:induction false} TenthsSplit(n: nat)
    ensures (n / 10) as real + (n % 10) as real / 10.0 == n as real / 10.0
  {
    assert n == 10 * (n / 10) + n % 10;
  }

  /** A numeral `w.d`, with or without a minus sign, reads back as whole plus tenths. */
  lemma {:induction false} FixedReadsBack(s: string, whole: string, d: char)
    requires |whole| >= 1 && AllDigits(whole) && IsDigit(d)
    requires Unsigned(s) == whole + "." + [d]
    ensures IsNumeral(s)
    ensures var v := DigitsValue(whole) as real + DigitValue(d) as real / 10.0;
      ParseFloat(s) == Some(if |s| > 0 && s[0] == '-' then -v else v)
  {
    SplitFixed(whole, d);
    OneDigitFraction(d);
    ReadsAsParts(s, whole, [d], DigitsValue(whole) as real + DigitValue(d) as real / 10.0);
  }

  /** A numeral whose point splits it into `whole` and `frac` reads as their value, signed. */
  lemma {:induction false} ReadsAsParts(s: string, whole: string, frac: string, v: real)
    requires AllDigits(whole) && AllDigits(frac) && whole != []
    requires Split(Unsigned(s), '.') == [whole, frac]
    requires v == DigitsValue(whole) as real + FractionValue(frac)
    ensures IsNumeral(s)
    ensures ParseFloat(s) == Some(if |s| > 0 && s[0] == '-' then -v else v)
  {
  }

  lemma {:induction false} OneDigitFraction(d: char)
    requires IsDigit(d)
    ensures DigitsValue([d]) == DigitValue(d)
    ensures FractionValue([d]) == DigitValue(d) as real / 10.0
  {
    assert [d][..0] == [];
    assert [d][1..] == [];
  }

  /** The parts of `w.d` around its point. */
  lemma {:induction false} SplitFixed(whole: string, d: char)
    requires AllDigits(whole) && IsDigit(d)
    ensures Split(whole + "." + [d], '.') == [whole, [d]]
  {
    assert '.' !in whole by {
      forall i | 0 <= i < |whole| ensures whole[i] != '.' { assert IsDigit(whole[i]); }
    }
    SplitPrefix(whole, ['.', d], '.');
    SplitPrefix([d], [], '.');
    assert Split([], '.') == [[]];
    assert [d] + [] == [d];
    assert Split([d], '.') == [[d]];
    assert ['.', d][0] == '.' && ['.', d][1..] == [d];
    assert Split(['.', d], '.') == [[], [d]];
    assert whole + [] == whole;
    assert whole + "." + [d] == whole + ['.', d];
  }
}
