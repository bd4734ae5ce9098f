/**
  The equity curve of strategy_example.py and its drawdown: capital after each trade of the
  book (in book order), its running maximum, the fractional drop below that maximum and the
  deepest such drop.
*/
module Equity {
  import opened PriceSeries
  import opened SignalRules

  /** The `PnL_Dollars` column of the book. */
  function PnLs(book: seq<Trade>): (r: seq<real>)
    ensures |r| == |book|
    ensures forall k :: 0 <= k < |book| ==> r[k] == book[k].pnl
  {
    seq(|book|, k requires 0 <= k < |book| => book[k].pnl)
  }

  function Sum(xs: seq<real>): real
  {
    if xs == [] then 0.0 else Sum(xs[..|xs| - 1]) + xs[|xs| - 1]
  }

  lemma {:induction false} SumAppend(a: seq<real>, b: seq<real>)
    ensures Sum(a + b) == Sum(a) + Sum(b)
    decreases |b|
  {
    if b != [] {
      assert (a + b)[..|a + b| - 1] == a + b[..|b| - 1];
      SumAppend(a, b[..|b| - 1]);
    } else {
      assert a + b == a;
    }
  }

  /** Every prefix of `xs` without its last element is a prefix of `xs`. */
  lemma PrefixesAgree(xs: seq<real>)
    requires |xs| > 0
    ensures forall j :: 0 < j < |xs| ==> xs[..|xs| - 1][..j] == xs[..j]
  {
  }

  /** Running totals (pandas `cumsum`): entry k is the sum of the first k+1 values. */
  function CumSum(xs: seq<real>): (r: seq<real>)
    ensures |r| == |xs|
    ensures forall k :: 0 <= k < |xs| ==> r[k] == Sum(xs[..k + 1])
  {
    if xs == [] then []
    else
      var init := xs[..|xs| - 1];
      var prefix := CumSum(init);
      PrefixesAgree(xs);
      assert xs[..|xs|] == xs && init[..|init|] == init;
      prefix + [(if prefix == [] then 0.0 else prefix[|prefix| - 1]) + xs[|xs| - 1]]
  }

  /** `Capital`: the initial capital plus the cumulative PnL, one point per trade. */
  function EquityCurve(initial: real, book: seq<Trade>): seq<real>
  {
    var cum := CumSum(PnLs(book));
    seq(|cum|, k requires 0 <= k < |cum| => initial + cum[k])
  }

  /** The k-th capital value is the initial capital plus the PnL of the first k+1 trades. */
  lemma CapitalIsPrefixSum(initial: real, book: seq<Trade>)
    ensures |EquityCurve(initial, book)| == |book|
    ensures forall k :: 0 <= k < |book| ==>
              EquityCurve(initial, book)[k] == initial + Sum(PnLs(book)[..k + 1])
  {
  }

  /** Capital moves by exactly one trade's PnL from one point to the next. */
  lemma {:induction false} CapitalStep(initial: real, book: seq<Trade>)
    ensures |book| > 0 ==> EquityCurve(initial, book)[0] == initial + book[0].pnl
    ensures forall k :: 1 <= k < |book| ==>
              EquityCurve(initial, book)[k] == EquityCurve(initial, book)[k - 1] + book[k].pnl
  {
    var p := PnLs(book);
    var c := CumSum(p);
    var e := EquityCurve(initial, book);
    assert forall k :: 0 <= k < |book| ==> e[k] == initial + c[k];
    if |book| > 0 {
      assert p[..1] == [] + [p[0]];
      assert c[0] == Sum(p[..1]) == Sum([]) + p[0];
    }
    forall k | 1 <= k < |book|
      ensures e[k] == e[k - 1] + book[k].pnl
    {
      assert p[..k + 1][..k] == p[..k];
      assert c[k] == Sum(p[..k + 1]) == Sum(p[..k]) + p[k];
      assert c[k - 1] == Sum(p[..k]);
    }
  }

  /** Final capital: the initial capital plus the book's total PnL. */
  lemma FinalCapitalIsTotal(initial: real, book: seq<Trade>)
    requires |book| > 0
    ensures EquityCurve(initial, book)[|book| - 1] == initial + Sum(PnLs(book))
  {
    assert PnLs(book)[..|book|] == PnLs(book);
  }

  /**
    The total PnL of a concatenated book is the sum of the blocks' totals, so final capital
    does not depend on the order in which the rules' lists are concatenated.
  */
  lemma TotalSplitsOverBlocks(t1: seq<Trade>, t2: seq<Trade>, t3: seq<Trade>)
    ensures Sum(PnLs(t1 + t2 + t3)) == Sum(PnLs(t1)) + Sum(PnLs(t2)) + Sum(PnLs(t3))
    ensures Sum(PnLs(t1 + t2 + t3)) == Sum(PnLs(t3 + t2 + t1))
  {
    assert PnLs(t1 + t2 + t3) == PnLs(t1) + PnLs(t2) + PnLs(t3);
    assert PnLs(t3 + t2 + t1) == PnLs(t3) + PnLs(t2) + PnLs(t1);
    SumAppend(PnLs(t1) + PnLs(t2), PnLs(t3));
    SumAppend(PnLs(t1), PnLs(t2));
    SumAppend(PnLs(t3) + PnLs(t2), PnLs(t1));
    SumAppend(PnLs(t3), PnLs(t2));
  }

  /** Running maximum (pandas `cummax`). */
  function RunningMax(xs: seq<real>): (r: seq<real>)
    ensures |r| == |xs|
  {
    if xs == [] then []
    else
      var prefix := RunningMax(xs[..|xs| - 1]);
      prefix + [if prefix == [] then xs[|xs| - 1] else Max(prefix[|prefix| - 1], xs[|xs| - 1])]
  }

  /** The running maximum never decreases and is at least every capital up to that point. */
  lemma {:induction false} RunningMaxBounds(xs: seq<real>)
    ensures forall j, k :: 0 <= j <= k < |xs| ==> xs[j] <= RunningMax(xs)[k]
    ensures forall j, k :: 0 <= j <= k < |xs| ==> RunningMax(xs)[j] <= RunningMax(xs)[k]
  {
    if xs != [] {
      var init := xs[..|xs| - 1];
      RunningMaxBounds(init);
      var r, prefix, n := RunningMax(xs), RunningMax(init), |xs| - 1;
      assert forall k :: 0 <= k < n ==> r[k] == prefix[k];
      assert n > 0 ==> r[n] == Max(prefix[n - 1], xs[n]);
      forall j, k | 0 <= j <= k < |xs|
        ensures xs[j] <= r[k] && r[j] <= r[k]
      {
        if k < n {
          assert init[j] == xs[j];
        } else if j < n {
          assert xs[j] == init[j] <= prefix[n - 1] && r[j] == prefix[j] <= prefix[n - 1];
        }
      }
    }
  }

  /** Each point of the running maximum is one of the capitals up to that point. */
  lemma {:induction false} RunningMaxAttained(xs: seq<real>)
    ensures forall k :: 0 <= k < |xs| ==> exists j :: 0 <= j <= k && RunningMax(xs)[k] == xs[j]
  {
    if xs != [] {
      var init := xs[..|xs| - 1];
      RunningMaxAttained(init);
      var r, prefix, n := RunningMax(xs), RunningMax(init), |xs| - 1;
      assert forall k :: 0 <= k < n ==> r[k] == prefix[k];
      forall k | 0 <= k < |xs|
        ensures exists j :: 0 <= j <= k && r[k] == xs[j]
      {
        var j: int;
        if k < n {
          j :| 0 <= j <= k && prefix[k] == init[j];
        } else if n == 0 || r[n] == xs[n] {
          j := n;
        } else {
          j :| 0 <= j <= n - 1 && prefix[n - 1] == init[j];
          assert r[n] == Max(prefix[n - 1], xs[n]);
        }
        assert init == xs[..n] && (j < n ==> init[j] == xs[j]);
        assert 0 <= j <= k && r[k] == xs[j];
      }
    }
  }

  /** No point of the running maximum is zero, so every drawdown ratio is defined. */
  predicate PeaksNonZero(capital: seq<real>)
  {
    forall k :: 0 <= k < |capital| ==> RunningMax(capital)[k] != 0.0
  }

  /** `capital / running max - 1` at every point. */
  function Drawdown(capital: seq<real>): seq<real>
    requires PeaksNonZero(capital)
  {
    var peak := RunningMax(capital);
    seq(|capital|, k requires 0 <= k < |capital| => capital[k] / peak[k] - 1.0)
  }

  /** The smallest value of a non-empty sequence. */
  function Minimum(xs: seq<real>): (m: real)
    requires |xs| > 0
    ensures forall k :: 0 <= k < |xs| ==> m <= xs[k]
    ensures exists k :: 0 <= k < |xs| && m == xs[k]
  {
    if |xs| == 1 then xs[0]
    else
      var init := xs[..|xs| - 1];
      var rest := Minimum(init);
      assert forall k :: 0 <= k < |init| ==> init[k] == xs[k];
      if rest <= xs[|xs| - 1] then rest else xs[|xs| - 1]
  }

  /** `drawdown.min()`. */
  function MaxDrawdown(capital: seq<real>): real
    requires |capital| > 0 && PeaksNonZero(capital)
  {
    Minimum(Drawdown(capital))
  }

  lemma RatioFacts(a: real, b: real)
    requires b > 0.0
    ensures a / b - 1.0 <= 0.0 <==> a <= b
    ensures a / b - 1.0 == 0.0 <==> a == b
    ensures a / b - 1.0 <= -1.0 <==> a <= 0.0
  {
    assert a / b * b == a;
  }

  /** With a positive first capital the running maximum stays positive. */
  lemma PositiveStartPeaks(capital: seq<real>)
    requires |capital| > 0 && capital[0] > 0.0
    ensures forall k :: 0 <= k < |capital| ==> RunningMax(capital)[k] >= capital[0]
    ensures PeaksNonZero(capital)
  {
    RunningMaxBounds(capital);
  }

  /**
    Starting from positive capital, every drawdown is at most 0, it is 0 exactly at the
    points where capital stands at its running maximum, and it reaches -1 exactly where
    capital is gone.
  */
  lemma {:induction false} DrawdownBounds(capital: seq<real>)
    requires |capital| > 0 && capital[0] > 0.0
    ensures PeaksNonZero(capital)
    ensures forall k :: 0 <= k < |capital| ==>
              && Drawdown(capital)[k] <= 0.0
              && (Drawdown(capital)[k] == 0.0 <==> capital[k] == RunningMax(capital)[k])
              && (Drawdown(capital)[k] <= -1.0 <==> capital[k] <= 0.0)
  {
    PositiveStartPeaks(capital);
    RunningMaxBounds(capital);
    var peak := RunningMax(capital);
    forall k | 0 <= k < |capital|
      ensures Drawdown(capital)[k] <= 0.0
      ensures Drawdown(capital)[k] == 0.0 <==> capital[k] == peak[k]
      ensures Drawdown(capital)[k] <= -1.0 <==> capital[k] <= 0.0
    {
      RatioFacts(capital[k], peak[k]);
    }
  }

  /** The first point is its own running maximum, so max drawdown is never positive. */
  lemma MaxDrawdownNonPositive(capital: seq<real>)
    requires |capital| > 0 && PeaksNonZero(capital)
    ensures MaxDrawdown(capital) <= 0.0
  {
    RunningMaxAttained(capital);
    var peak := RunningMax(capital);
    assert peak[0] == capital[0];
    assert Drawdown(capital)[0] == 0.0;
  }

  /**
    Starting from positive capital, max drawdown is 0 exactly when capital never falls
    below its running maximum.
  */
  lemma MaxDrawdownZeroIff(capital: seq<real>)
    requires |capital| > 0 && capital[0] > 0.0
    ensures PeaksNonZero(capital)
    ensures MaxDrawdown(capital) == 0.0 <==>
            forall k :: 0 <= k < |capital| ==> capital[k] >= RunningMax(capital)[k]
  {
    DrawdownBounds(capital);
    MaxDrawdownNonPositive(capital);
    RunningMaxBounds(capital);
    var dd := Drawdown(capital);
    var peak := RunningMax(capital);
    if MaxDrawdown(capital) == 0.0 {
      forall k | 0 <= k < |capital| ensures capital[k] >= peak[k] {
        assert dd[k] == 0.0;
      }
    } else {
      var j :| 0 <= j < |dd| && dd[j] == MaxDrawdown(capital);
      assert capital[j] != peak[j];
    }
  }

  /** A curve that starts positive and ever reaches zero or below has max drawdown at most -1. */
  lemma RuinedCapitalDrawdown(capital: seq<real>, k: int)
    requires |capital| > 0 && capital[0] > 0.0
    requires 0 <= k < |capital| && capital[k] <= 0.0
    ensures PeaksNonZero(capital)
    ensures MaxDrawdown(capital) <= -1.0
  {
    DrawdownBounds(capital);
  }
}
