/**
  The conversions the parser applies to captured groups: Python's `int()` on a run of
  ASCII digits and `float()` on a run of `[0-9\.]`. Values are exact (nat and real);
  `float()` rejecting its argument (ValueError) is None.
 */
module Numbers {
  import opened Wrappers
  import opened Text
  import opened Patterns

  function Pow10(n: nat): (r: nat)
    ensures r >= 1
  {
    if n == 0 then 1 else 10 * Pow10(n - 1)
  }

  function DigitValue(c: char): nat
    requires InClass(c, Digit)
  {
    c as int - '0' as int
  }

  /** Python's `int(s)` for a run of ASCII digits: base ten, leading zeros allowed. */
  function DigitsValue(s: string): (v: nat)
    requires AllIn(s, Digit)
    ensures v < Pow10(|s|)
  {
    if s == [] then 0 else 10 * DigitsValue(s[..|s| - 1]) + DigitValue(s[|s| - 1])
  }

  /** The decimal digits of `n`, without leading zeros. */
  function ShowNat(n: nat): (s: string)
    ensures 1 <= |s| && AllIn(s, Digit)
  {
    var last := [(n % 10 + '0' as int) as char];
    if n < 10 then last else ShowNat(n / 10) + last
  }

  /** Reading the digits of a number back with `int()` gives the number. */
  lemma {:induction false} DigitsValueShowNat(n: nat)
    ensures DigitsValue(ShowNat(n)) == n
  {
    var s := ShowNat(n);
    if n >= 10 {
      DigitsValueShowNat(n / 10);
      assert s[..|s| - 1] == ShowNat(n / 10);
    }
  }

  /** The exact value of the decimal `whole.frac`. */
  function PointValue(whole: string, frac: string): (v: real)
    requires AllIn(whole, Digit) && AllIn(frac, Digit)
    ensures v >= 0.0
  {
    DigitsValue(whole) as real + DigitsValue(frac) as real / Pow10(|frac|) as real
  }

  /** Characters before the first dot are digits. */
  lemma DigitsBeforeDot(s: string, n: nat)
    requires AllIn(s, DecimalChar) && n <= |s|
    requires forall j :: 0 <= j < n ==> !OccursAt(s, ".", j)
    ensures AllIn(s[..n], Digit)
    ensures forall j :: 0 <= j < n ==> s[j] != '.'
  {
    forall j | 0 <= j < n
      ensures s[j] != '.'
    {
      OccursAtChar(s, '.', j);
    }
  }

  /**
    Python's `float(s)` for a run of `[0-9\.]`: the text before the first dot is the
    whole part and the text after it the fraction; no digit at all, or a second dot,
    is a ValueError (None).
   */
  function ParseDecimal(s: string): (r: Option<real>)
    requires AllIn(s, DecimalChar)
    ensures r.Some? ==> r.value >= 0.0
  {
    match Find(s, ".", 0)
    case None =>
      DigitsBeforeDot(s, |s|);
      assert s[..|s|] == s;
      if s == [] then None else Some(DigitsValue(s) as real)
    case Some(i) =>
      DigitsBeforeDot(s, i);
      var whole, frac := s[..i], s[i + 1..];
      assert AllIn(frac, DecimalChar);
      match Find(frac, ".", 0)
      case Some(_) => None
      case None =>
        DigitsBeforeDot(frac, |frac|);
        assert frac[..|frac|] == frac;
        if whole == [] && frac == [] then None
        else Some(PointValue(whole, frac))
  }

  /** `float()` accepts a run of `[0-9\.]` exactly when it has a digit and no two dots. */
  lemma ParseDecimalAccepts(s: string)
    requires AllIn(s, DecimalChar)
    ensures ParseDecimal(s).Some? <==>
      (exists i :: 0 <= i < |s| && s[i] != '.') &&
      (forall i, j :: 0 <= i < j < |s| && s[i] == '.' ==> s[j] != '.')
  {
    match Find(s, ".", 0)
    case None =>
      DigitsBeforeDot(s, |s|);
      if s != [] {
        assert s[0] != '.';
      }
    case Some(i) =>
      OccursAtChar(s, '.', i);
      DigitsBeforeDot(s, i);
      var whole, frac := s[..i], s[i + 1..];
      assert AllIn(frac, DecimalChar);
      assert forall j :: i < j < |s| ==> s[j] == frac[j - i - 1];
      match Find(frac, ".", 0)
      case Some(k) =>
        OccursAtChar(frac, '.', k);
        assert s[i + 1 + k] == '.';
      case None =>
        DigitsBeforeDot(frac, |frac|);
        if whole == [] && frac == [] {
          assert |s| == 1;
        } else {
          assert |whole| > 0 ==> s[0] != '.';
          assert |frac| > 0 ==> s[i + 1] != '.';
        }
  }

  /** A run of digits reads as the integer it spells. */
  lemma DecimalOfDigits(s: string)
    requires 1 <= |s| && AllIn(s, Digit)
    ensures AllIn(s, DecimalChar)
    ensures ParseDecimal(s) == Some(DigitsValue(s) as real)
  {
    assert AllIn(s, DecimalChar);
    match Find(s, ".", 0)
    case None =>
    case Some(i) =>
      OccursAtChar(s, '.', i);
  }

  /** `whole.frac` reads as `whole + frac / 10^|frac|`. */
  lemma DecimalOfPoint(whole: string, frac: string)
    requires AllIn(whole, Digit) && AllIn(frac, Digit) && 1 <= |whole| + |frac|
    ensures AllIn(whole + "." + frac, DecimalChar)
    ensures ParseDecimal(whole + "." + frac) == Some(PointValue(whole, frac))
  {
    var s := whole + "." + frac;
    assert AllIn(s, DecimalChar);
    assert OccursAt(s, ".", |whole|) by {
      assert s[|whole|..|whole| + 1] == ".";
    }
    forall j | 0 <= j < |whole|
      ensures !OccursAt(s, ".", j)
    {
      OccursAtChar(s, '.', j);
      assert s[j] == whole[j];
    }
    var f := Find(s, ".", 0);
    assert f == Some(|whole|);
    assert s[..|whole|] == whole;
    assert s[|whole| + 1..] == frac;
    var g := Find(frac, ".", 0);
    if g.Some? {
      OccursAtChar(frac, '.', g.value);
      assert false;
    }
  }
}
