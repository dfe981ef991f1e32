/** What updateSlideDisplay and updateProgressBar derive from the slide index. */
module Display {
  import opened Decimal

  /** The counter reads "<current> / <total>". */
  function CounterText(current: nat, totalSlides: nat): (s: string)
    ensures |s| == |ToDecimal(current)| + 3 + |ToDecimal(totalSlides)|
    ensures s[|ToDecimal(current)|..|ToDecimal(current)| + 3] == " / "
    ensures forall i :: 0 <= i < |s| ==>
      (IsDigit(s[i]) <==> !(|ToDecimal(current)| <= i < |ToDecimal(current)| + 3))
  {
    ToDecimal(current) + " / " + ToDecimal(totalSlides)
  }

  /** Both numbers can be read back off the counter: before the separator, and after it. */
  lemma CounterReadsBack(current: nat, totalSlides: nat)
    ensures var s, n := CounterText(current, totalSlides), |ToDecimal(current)|;
      |s| > n + 3 && s[n..n + 3] == " / " &&
      AllDigits(s[..n]) && Value(s[..n]) == current &&
      AllDigits(s[n + 3..]) && Value(s[n + 3..]) == totalSlides
  {
    var s, n := CounterText(current, totalSlides), |ToDecimal(current)|;
    assert s[..n] == ToDecimal(current);
    assert s[n + 3..] == ToDecimal(totalSlides);
    ValueOfDecimal(current);
    ValueOfDecimal(totalSlides);
  }

  /** Two different slides never show the same counter. */
  lemma {:induction false} CounterDeterminesSlide(a: nat, b: nat, totalSlides: nat)
    requires CounterText(a, totalSlides) == CounterText(b, totalSlides)
    ensures a == b
  {
    var da, db := ToDecimal(a), ToDecimal(b);
    var s := CounterText(a, totalSlides);
    if |da| != |db| {
      assert false;
    }
    assert da == s[..|da|] == db;
    DecimalInjective(a, b);
  }

  lemma CounterSample()
    ensures CounterText(8, 14) == "8 / 14"
    ensures CounterText(14, 14) == "14 / 14"
  {
  }

  /** A disabled button is drawn at half opacity, an enabled one fully opaque. */
  function ButtonOpacity(disabled: bool): (o: string)
    ensures o == "0.5" <==> disabled
    ensures o == "1" <==> !disabled
  {
    if disabled then "0.5" else "1"
  }

  /** The progress bar's width in percent, as an exact ratio. */
  function ProgressPercent(current: int, totalSlides: int): (p: real)
    requires totalSlides > 0
    ensures 1 <= current <= totalSlides ==> 0.0 < p <= 100.0
    ensures p == 100.0 <==> current == totalSlides
  {
    current as real * 100.0 / totalSlides as real
  }

  /** A later slide shows a longer bar. */
  lemma ProgressMonotone(a: int, b: int, totalSlides: int)
    requires totalSlides > 0 && a < b
    ensures ProgressPercent(a, totalSlides) < ProgressPercent(b, totalSlides)
  {
  }
}
