/**
  The price series every signal rule reads: a time-ordered sequence of OHLC bars.
  Prices are exact reals; a timestamp is an integer number of seconds.
*/
module PriceSeries {

  datatype Bar = Bar(time: int, open: real, high: real, low: real, close: real)

  /** A bar that closes above its open. */
  predicate IsUp(b: Bar) { b.close > b.open }

  /** A bar that closes below its open. */
  predicate IsDown(b: Bar) { b.close < b.open }

  /**
    Strictly increasing timestamps, as a time-indexed series has. Nothing checks this, and
    nothing requires the bars' open and close to lie within their low and high.
  */
  ghost predicate TimesIncrease(bars: seq<Bar>)
  {
    forall a, b :: 0 <= a < b < |bars| ==> bars[a].time < bars[b].time
  }

  function Min(a: real, b: real): (m: real)
    ensures m <= a && m <= b && (m == a || m == b)
  {
    if a <= b then a else b
  }

  function Max(a: real, b: real): (m: real)
    ensures a <= m && b <= m && (m == a || m == b)
  {
    if a >= b then a else b
  }

  /** The highest high of a non-empty window of bars (pandas `window.High.max()`). */
  function MaxHigh(w: seq<Bar>): real
    requires |w| > 0
  {
    if |w| == 1 then w[0].high else Max(MaxHigh(w[..|w| - 1]), w[|w| - 1].high)
  }

  /** The lowest low of a non-empty window of bars (pandas `window.Low.min()`). */
  function MinLow(w: seq<Bar>): real
    requires |w| > 0
  {
    if |w| == 1 then w[0].low else Min(MinLow(w[..|w| - 1]), w[|w| - 1].low)
  }

  /** `MaxHigh` is the maximum: no high of the window exceeds it and some high equals it. */
  lemma {:induction false} MaxHighIsMaximum(w: seq<Bar>)
    requires |w| > 0
    ensures forall k :: 0 <= k < |w| ==> w[k].high <= MaxHigh(w)
    ensures exists k :: 0 <= k < |w| && w[k].high == MaxHigh(w)
  {
    if |w| > 1 {
      var init := w[..|w| - 1];
      MaxHighIsMaximum(init);
      assert forall k :: 0 <= k < |w| - 1 ==> init[k] == w[k];
      if MaxHigh(w) != w[|w| - 1].high {
        var j :| 0 <= j < |init| && init[j].high == MaxHigh(init);
        assert w[j].high == MaxHigh(w);
      } else {
        assert w[|w| - 1].high == MaxHigh(w);
      }
    } else {
      assert w[0].high == MaxHigh(w);
    }
  }

  /** `MinLow` is the minimum: no low of the window is below it and some low equals it. */
  lemma {:induction false} MinLowIsMinimum(w: seq<Bar>)
    requires |w| > 0
    ensures forall k :: 0 <= k < |w| ==> MinLow(w) <= w[k].low
    ensures exists k :: 0 <= k < |w| && w[k].low == MinLow(w)
  {
    if |w| > 1 {
      var init := w[..|w| - 1];
      MinLowIsMinimum(init);
      assert forall k :: 0 <= k < |w| - 1 ==> init[k] == w[k];
      if MinLow(w) != w[|w| - 1].low {
        var j :| 0 <= j < |init| && init[j].low == MinLow(init);
        assert w[j].low == MinLow(w);
      } else {
        assert w[|w| - 1].low == MinLow(w);
      }
    } else {
      assert w[0].low == MinLow(w);
    }
  }
}
