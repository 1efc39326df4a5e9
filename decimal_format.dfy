/**
 * The label text `f"{wn:.2f}"`: the wavenumber rounded to hundredths,
 * written with at least one integer digit, a point and two decimals, and a
 * leading "-" for a negative value (even one that rounds to zero).
 *
 * A `real` here is the exact value of the float; Python rounds that exact
 * value to the nearest hundredth and breaks an exact tie towards the even
 * neighbour, which is what `RoundHalfEven` does.
 */
module DecimalFormat {
  import opened Wrappers
  import opened Spectrum

  /** The integer nearest to `x`; an exact tie goes to the even one. */
  function RoundHalfEven(x: real): (n: int)
    ensures x - 0.5 <= n as real <= x + 0.5
    ensures (n as real == x - 0.5 || n as real == x + 0.5) ==> n % 2 == 0
  {
    var f := x.Floor;
    var frac := x - f as real;
    if frac < 0.5 then f
    else if frac > 0.5 then f + 1
    else if f % 2 == 0 then f
    else f + 1
  }

  /** |x| in hundredths, rounded. */
  function Hundredths(x: real): nat
  {
    var n := RoundHalfEven(Abs(x) * 100.0);
    assert n as real >= -0.5;
    n
  }

  function Digit(d: nat): (c: char)
    requires d < 10
    ensures '0' <= c <= '9' && c as int - '0' as int == d
  {
    ('0' as int + d) as char
  }

  /** `n` in decimal, without leading zeros ("0" for zero). */
  function Decimal(n: nat): string
  {
    if n < 10 then [Digit(n)] else Decimal(n / 10) + [Digit(n % 10)]
  }

  /** The text of a label for wavenumber `x`. */
  function Format2(x: real): string
  {
    Fixed2Text(x < 0.0, Hundredths(x))
  }

  /** `text[lo..hi]` consists of decimal digits. */
  predicate DigitsIn(text: string, lo: nat, hi: nat)
  {
    lo <= hi <= |text| && forall i :: lo <= i < hi ==> '0' <= text[i] <= '9'
  }

  /** The number the digits `text[lo..hi]` denote. */
  function ValueIn(text: string, lo: nat, hi: nat): nat
    requires DigitsIn(text, lo, hi)
    decreases hi - lo
  {
    if lo == hi then 0 else ValueIn(text, lo, hi - 1) * 10 + (text[hi - 1] as int - '0' as int)
  }

  /** A label read back: its sign and its magnitude in hundredths. */
  datatype Fixed2 = Fixed2(negative: bool, hundredths: nat)

  /** The value a label denotes. */
  function Value(f: Fixed2): real
  {
    (if f.negative then -1.0 else 1.0) * (f.hundredths as real / 100.0)
  }

  /** Reads a label of the form [-]digits.dd; anything else is `None`. */
  function ParseFixed2(text: string): Option<Fixed2>
  {
    var negative := |text| > 0 && text[0] == '-';
    var start := if negative then 1 else 0;
    var n := |text|;
    if n >= start + 4 && text[n - 3] == '.' && DigitsIn(text, start, n - 3) && DigitsIn(text, n - 2, n) then
      Some(Fixed2(negative, ValueIn(text, start, n - 3) * 100 + ValueIn(text, n - 2, n)))
    else
      None
  }

  /** `Decimal(q)`, wherever it sits inside a text, consists of digits that denote `q`. */
  lemma {:induction false} DecimalReadsBack(pre: string, q: nat, post: string)
    ensures |Decimal(q)| >= 1
    ensures q == 0 || Decimal(q)[0] != '0'
    ensures var text := pre + Decimal(q) + post;
      DigitsIn(text, |pre|, |pre| + |Decimal(q)|) && ValueIn(text, |pre|, |pre| + |Decimal(q)|) == q
  {
    var text := pre + Decimal(q) + post;
    if q >= 10 {
      var last := [Digit(q % 10)];
      assert Decimal(q) == Decimal(q / 10) + last;
      assert text == pre + Decimal(q / 10) + (last + post);
      DecimalReadsBack(pre, q / 10, last + post);
      assert Decimal(q)[0] == Decimal(q / 10)[0];
    }
  }

  /** The text of a label with the given sign and magnitude in hundredths. */
  function Fixed2Text(negative: bool, h: nat): string
  {
    (if negative then "-" else "") + Decimal(h / 100) + ['.', Digit(h / 10 % 10), Digit(h % 10)]
  }

  lemma SplitHundredths(h: nat)
    ensures (h / 100) * 100 + (h / 10 % 10) * 10 + h % 10 == h
  {
    assert h % 100 == (h / 10 % 10) * 10 + h % 10;
  }

  /** A label assembled from a sign, an integer part and two decimal digits reads back as those. */
  lemma PartsParse(negative: bool, q: nat, d1: nat, d0: nat)
    requires d1 < 10 && d0 < 10
    ensures ParseFixed2((if negative then "-" else "") + Decimal(q) + ['.', Digit(d1), Digit(d0)])
            == Some(Fixed2(negative, q * 100 + d1 * 10 + d0))
  {
    var sign: string := if negative then "-" else "";
    var tail := ['.', Digit(d1), Digit(d0)];
    var text := sign + Decimal(q) + tail;
    DecimalReadsBack(sign, q, tail);
    var n := |text|;
    assert text[n - 3] == '.' && text[n - 2] == Digit(d1) && text[n - 1] == Digit(d0);
    assert text[0] == '-' <==> negative;
    assert ValueIn(text, n - 2, n) == d1 * 10 + d0 by {
      assert ValueIn(text, n - 2, n - 2) == 0;
    }
  }

  lemma Fixed2TextParses(negative: bool, h: nat)
    ensures ParseFixed2(Fixed2Text(negative, h)) == Some(Fixed2(negative, h))
  {
    PartsParse(negative, h / 100, h / 10 % 10, h % 10);
    SplitHundredths(h);
  }

  /**
   * Reading a label back gives the wavenumber's sign and its value rounded to
   * hundredths, so the text carries exactly that and nothing is lost in between.
   */
  lemma Format2RoundTrip(x: real)
    ensures ParseFixed2(Format2(x)) == Some(Fixed2(x < 0.0, Hundredths(x)))
  {
    assert Format2(x) == Fixed2Text(x < 0.0, Hundredths(x));
    Fixed2TextParses(x < 0.0, Hundredths(x));
  }

  /**
   * The label text has no padding: its integer part starts with a nonzero
   * digit unless that part is a single 0, so the round trip above fixes the
   * text itself and not only its value.
   */
  lemma Format2Unpadded(x: real)
    ensures var text := Format2(x);
      var k := if x < 0.0 then 1 else 0;
      k + 1 < |text| && (text[k] != '0' || text[k + 1] == '.')
  {
    var h := Hundredths(x);
    var sign: string := if x < 0.0 then "-" else "";
    var tail := ['.', Digit(h / 10 % 10), Digit(h % 10)];
    DecimalReadsBack(sign, h / 100, tail);
    assert Format2(x) == sign + Decimal(h / 100) + tail;
    if h / 100 == 0 {
      assert Decimal(0) == "0";
    }
  }

  /** The value a label reads differs from the wavenumber by at most half a hundredth. */
  lemma Format2IsClose(x: real)
    ensures Abs(Value(Fixed2(x < 0.0, Hundredths(x))) - x) <= 0.005
  {
    var h := Hundredths(x);
    assert Abs(x) * 100.0 - 0.5 <= h as real <= Abs(x) * 100.0 + 0.5;
    assert Abs(x) - 0.005 <= h as real / 100.0 <= Abs(x) + 0.005;
  }
}
