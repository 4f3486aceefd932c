/** Python's `float(s)` on the strings that survive the amount filters, which
    hold only digits, '.' and '-': an optional leading '-', then digits with
    at most one '.', and at least one digit. Values are exact decimals
    (`real`); binary floating-point rounding is not modelled. Anything else
    raises `ValueError`, modelled as `None`. */
module Decimal {
  import opened Text
  import opened Tables

  predicate AllDigits(s: string) {
    forall i :: 0 <= i < |s| ==> IsDigit(s[i])
  }

  function DigitValue(c: char): nat
    requires IsDigit(c)
  {
    c as int - '0' as int
  }

  /** The natural number a string of decimal digits denotes ("" denotes 0). */
  function DigitsValue(s: string): nat
    requires AllDigits(s)
    decreases |s|
  {
    if s == [] then 0 else DigitsValue(s[..|s| - 1]) * 10 + DigitValue(s[|s| - 1])
  }

  function Pow10(n: nat): (r: nat)
    ensures r > 0
  {
    if n == 0 then 1 else 10 * Pow10(n - 1)
  }

  /** The value of `whole.frac`. */
  function PointValue(whole: string, frac: string): (v: real)
    requires AllDigits(whole) && AllDigits(frac)
    ensures v >= DigitsValue(whole) as real
  {
    var q := DigitsValue(frac) as real / Pow10(|frac|) as real;
    assert q >= 0.0;
    DigitsValue(whole) as real + q
  }

  /** An unsigned decimal: `digits`, `digits.`, `.digits` or `digits.digits`. */
  function ParseUnsigned(t: string): Option<real> {
    match IndexOf(t, '.')
    case None =>
      if t != [] && AllDigits(t) then Some(DigitsValue(t) as real) else None
    case Some(p) =>
      var whole, frac := t[..p], t[p + 1..];
      if AllDigits(whole) && AllDigits(frac) && |whole| + |frac| > 0 then
        Some(PointValue(whole, frac))
      else None
  }

  /** `float(s)` for `s` over digits, '.' and '-'. A number holds a digit,
      and a '-' only as its first character, which is the only way to be
      negative. */
  function ParseFloat(s: string): (r: Option<real>)
    ensures r.Some? ==> exists i :: 0 <= i < |s| && IsDigit(s[i])
    ensures r.Some? ==> forall i :: 0 <= i < |s| ==> IsDigit(s[i]) || s[i] == '.' || (i == 0 && s[i] == '-')
    ensures r.Some? && r.value < 0.0 ==> s[0] == '-'
  {
    if s != [] && s[0] == '-' then
      var t := s[1..];
      ParseUnsignedShape(t);
      match ParseUnsigned(t)
      case None => None
      case Some(x) =>
        assert forall i :: 1 <= i < |s| ==> s[i] == t[i - 1];
        var k :| 0 <= k < |t| && IsDigit(t[k]);
        assert IsDigit(s[k + 1]);
        Some(-x)
    else
      ParseUnsignedShape(s);
      ParseUnsignedNonNegative(s);
      ParseUnsigned(s)
  }

  /** An unsigned decimal holds a digit and nothing but digits and '.'. */
  lemma ParseUnsignedShape(t: string)
    ensures ParseUnsigned(t).Some? ==> exists i :: 0 <= i < |t| && IsDigit(t[i])
    ensures ParseUnsigned(t).Some? ==> forall i :: 0 <= i < |t| ==> IsDigit(t[i]) || t[i] == '.'
  {
    match IndexOf(t, '.')
    case None =>
      if ParseUnsigned(t).Some? {
        assert IsDigit(t[0]);
      }
    case Some(p) =>
      var whole, frac := t[..p], t[p + 1..];
      if ParseUnsigned(t).Some? {
        forall i | 0 <= i < |t|
          ensures IsDigit(t[i]) || t[i] == '.'
        {
          if i < p {
            assert t[i] == whole[i];
          } else if i > p {
            assert t[i] == frac[i - p - 1];
          }
        }
        if |whole| > 0 {
          assert t[0] == whole[0];
        } else {
          assert t[p + 1] == frac[0];
        }
      }
  }

  function Abs(x: real): (r: real)
    ensures r >= 0.0 && (r == x || r == -x)
  {
    if x < 0.0 then -x else x
  }

  lemma ParseUnsignedNonNegative(t: string)
    ensures ParseUnsigned(t).Some? ==> ParseUnsigned(t).value >= 0.0
  {
    match IndexOf(t, '.')
    case None =>
    case Some(p) =>
  }

  /** Without a '-' there is nothing to negate: the value is never negative. */
  lemma ParseWithoutMinusNonNegative(s: string)
    ensures '-' !in s && ParseFloat(s).Some? ==> ParseFloat(s).value >= 0.0
  {
    ParseUnsignedNonNegative(s);
  }

  /** A string without a single digit has no numeric value ("", ".", "-", "-."). */
  lemma NoDigitNoNumber(s: string)
    requires forall i :: 0 <= i < |s| ==> !IsDigit(s[i])
    ensures ParseFloat(s) == None
  {
  }

  // ------------------------------------------------- reference formatter

  function DigitChar(d: nat): (c: char)
    requires d < 10
    ensures IsDigit(c) && DigitValue(c) == d
  {
    ('0' as int + d) as char
  }

  /** The shortest decimal digit string of `n` (what `str(n)` prints). */
  function NatDigits(n: nat): (s: string)
    ensures s != [] && AllDigits(s)
  {
    if n < 10 then [DigitChar(n)] else NatDigits(n / 10) + [DigitChar(n % 10)]
  }

  lemma {:induction false} NatDigitsValue(n: nat)
    ensures DigitsValue(NatDigits(n)) == n
  {
    if n >= 10 {
      var s := NatDigits(n);
      assert s[..|s| - 1] == NatDigits(n / 10);
      NatDigitsValue(n / 10);
    }
  }

  lemma DigitsHaveNoMark(s: string)
    requires AllDigits(s)
    ensures '.' !in s && '-' !in s
  {
  }

  /** `float(str(n)) == n`, and `float("-" + str(n)) == -n`. */
  lemma ParseFloatNat(n: nat)
    ensures ParseFloat(NatDigits(n)) == Some(n as real)
    ensures ParseFloat("-" + NatDigits(n)) == Some(-(n as real))
  {
    var s := NatDigits(n);
    NatDigitsValue(n);
    DigitsHaveNoMark(s);
    assert ("-" + s)[1..] == s;
  }

  /** `whole + "." + frac` parses to `whole` plus `frac` scaled down. */
  lemma ParseUnsignedPoint(whole: string, frac: string)
    requires AllDigits(whole) && AllDigits(frac) && |whole| + |frac| > 0
    ensures ParseUnsigned(whole + "." + frac) == Some(PointValue(whole, frac))
  {
    var t := whole + "." + frac;
    DigitsHaveNoMark(whole);
    IndexOfAfter(whole, '.', frac);
    var p := |whole|;
    assert IndexOf(t, '.') == Some(p);
    assert t[..p] == whole;
    assert t[p + 1..] == frac;
  }

  lemma IndexOfAfter<T>(prefix: seq<T>, x: T, rest: seq<T>)
    requires x !in prefix
    ensures IndexOf(prefix + [x] + rest, x) == Some(|prefix|)
  {
    var s := prefix + [x] + rest;
    assert s[..|prefix|] == prefix;
    assert s[|prefix|] == x;
  }

  /** `float(str(n) + "." + two digits)` is `n + cents / 100`: the usual
      shape of a bank amount. */
  lemma ParseFloatCents(n: nat, c1: nat, c2: nat)
    requires c1 < 10 && c2 < 10
    ensures ParseFloat(NatDigits(n) + "." + [DigitChar(c1), DigitChar(c2)])
         == Some(n as real + (10 * c1 + c2) as real / 100.0)
  {
    var w := NatDigits(n);
    var f := [DigitChar(c1), DigitChar(c2)];
    NatDigitsValue(n);
    TwoDigitsValue(c1, c2);
    ParseUnsignedPoint(w, f);
    assert (w + "." + f)[0] == w[0];
  }

  lemma TwoDigitsValue(c1: nat, c2: nat)
    requires c1 < 10 && c2 < 10
    ensures forall w :: AllDigits(w) ==>
      PointValue(w, [DigitChar(c1), DigitChar(c2)]) == DigitsValue(w) as real + (10 * c1 + c2) as real / 100.0
  {
    var f := [DigitChar(c1), DigitChar(c2)];
    assert f[..1] == [DigitChar(c1)];
    assert f[..1][..0] == [];
    assert DigitsValue(f[..1]) == c1;
    assert DigitsValue(f) == 10 * c1 + c2;
    assert Pow10(|f|) == 100;
  }

  // ------------------------------------------------------ column parsing

  /** `.astype(str).str.replace(r"[^K]", "", regex=True)` on one cell, where
      `keep` accepts the characters of the class K. */
  function NumberText(c: Cell, keep: char -> bool): (r: string)
    ensures forall i :: 0 <= i < |r| ==> keep(r[i])
  {
    Filter(CellText(c), keep)
  }

  /** `.astype(float)` after the filter, on a whole column: the values, or
      the first row whose filtered text is not a number. When the filter drops
      '-', no value is negative. */
  function ParseColumn(values: seq<Cell>, keep: char -> bool): (r: Result<seq<real>, nat>)
    ensures r.Ok? ==> |r.value| == |values|
    ensures r.Ok? ==> forall k :: 0 <= k < |values| ==> ParseFloat(NumberText(values[k], keep)) == Some(r.value[k])
    ensures r.Ok? && !keep('-') ==> forall k :: 0 <= k < |values| ==> r.value[k] >= 0.0
    ensures r.Err? ==> r.error < |values| && ParseFloat(NumberText(values[r.error], keep)) == None
    ensures r.Err? ==> forall k :: 0 <= k < r.error ==> ParseFloat(NumberText(values[k], keep)).Some?
    decreases |values|
  {
    if values == [] then Ok([])
    else
      match ParseFloat(NumberText(values[0], keep))
      case None => Err(0)
      case Some(x) =>
        match ParseColumn(values[1..], keep)
        case Err(k) =>
          ParseColumnFailsLater(values, keep, k);
          Err(k + 1)
        case Ok(xs) =>
          ParseColumnCons(values, keep, x, xs);
          Ok([x] + xs)
  }

  /** The head parsed to `x` and the tail to `xs`: the whole column parses to `[x] + xs`. */
  lemma ParseColumnCons(values: seq<Cell>, keep: char -> bool, x: real, xs: seq<real>)
    requires values != [] && ParseFloat(NumberText(values[0], keep)) == Some(x)
    requires |xs| == |values| - 1
    requires forall k :: 0 <= k < |xs| ==> ParseFloat(NumberText(values[1..][k], keep)) == Some(xs[k])
    requires !keep('-') ==> forall k :: 0 <= k < |xs| ==> xs[k] >= 0.0
    ensures forall k :: 0 <= k < |values| ==> ParseFloat(NumberText(values[k], keep)) == Some(([x] + xs)[k])
    ensures !keep('-') ==> forall k :: 0 <= k < |values| ==> ([x] + xs)[k] >= 0.0
  {
    var ys := [x] + xs;
    ConsAgrees(values, (c: Cell) => ParseFloat(NumberText(c, keep)), x, xs);
    ParseWithoutMinusNonNegative(NumberText(values[0], keep));
    if !keep('-') {
      forall k | 1 <= k < |values|
        ensures ys[k] >= 0.0
      {
        assert ys[k] == xs[k - 1];
      }
    }
  }

  /** A parser that gives `x` on the head and `xs` on the tail gives
      `[x] + xs` on the whole sequence. */
  lemma ConsAgrees(values: seq<Cell>, f: Cell -> Option<real>, x: real, xs: seq<real>)
    requires values != [] && f(values[0]) == Some(x)
    requires |xs| == |values| - 1
    requires forall k :: 0 <= k < |xs| ==> f(values[1..][k]) == Some(xs[k])
    ensures forall k :: 0 <= k < |values| ==> f(values[k]) == Some(([x] + xs)[k])
  {
    forall k | 1 <= k < |values|
      ensures f(values[k]) == Some(([x] + xs)[k])
    {
      assert values[k] == values[1..][k - 1];
    }
  }

  /** The head parsed and the tail failed at `k`: the column fails at `k + 1`. */
  lemma ParseColumnFailsLater(values: seq<Cell>, keep: char -> bool, k: nat)
    requires values != [] && ParseFloat(NumberText(values[0], keep)).Some?
    requires k < |values| - 1 && ParseFloat(NumberText(values[1..][k], keep)) == None
    requires forall i :: 0 <= i < k ==> ParseFloat(NumberText(values[1..][i], keep)).Some?
    ensures ParseFloat(NumberText(values[k + 1], keep)) == None
    ensures forall i :: 0 <= i < k + 1 ==> ParseFloat(NumberText(values[i], keep)).Some?
  {
    assert values[k + 1] == values[1..][k];
    forall i | 1 <= i < k + 1
      ensures ParseFloat(NumberText(values[i], keep)).Some?
    {
      assert values[i] == values[1..][i - 1];
    }
  }
}
