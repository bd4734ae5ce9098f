/**
  The performance statistics of strategy_example.py, computed only when the book has at
  least one trade. A metric the source sets to NaN is `None` here.

  The daily returns come from a pandas daily resample of the equity curve; their mean, their
  sample standard deviation and the standard deviation of the negative ones are inputs
  (`DailyStats`), with `None` for a NaN that pandas returns when too few values exist. The
  annualising factor (the square root of 252) and real exponentiation are parameters; the
  latter answers `None` where the floating-point power is NaN.
*/
module Metrics {
  import opened Wrappers
  import opened SignalRules
  import opened Equity
  import opened PriceSeries
  import opened TradeBook

  const SecondsPerDay: int := 86400
  const DaysPerYear: real := 365.0

  datatype DailyStats = DailyStats(mean: Option<real>, std: Option<real>, downsideStd: Option<real>)

  datatype Report = Report(
    totalTrades: nat,
    finalCapital: real,
    maxDrawdown: real,
    sharpe: Option<real>,
    sortino: Option<real>,
    cagr: Option<real>,
    calmar: Option<real>)

  /**
    `(mean / deviation) * annual`, NaN when the deviation is zero. A NaN mean or deviation
    passes the guard (NaN is not equal to 0) and makes the ratio NaN.
  */
  function AnnualisedRatio(mean: Option<real>, deviation: Option<real>, annual: real): (r: Option<real>)
    ensures r.Some? <==> mean.Some? && deviation.Some? && deviation.value != 0.0
    ensures r.Some? ==> r.value * deviation.value == mean.value * annual
  {
    if deviation == Some(0.0) then None
    else if mean.Some? && deviation.Some? then Some(mean.value / deviation.value * annual)
    else None
  }

  /**
    Whole days between two timestamps, rounded down as `timedelta.days` does, so a negative
    span of less than a day counts as -1.
  */
  function TotalDays(first: int, last: int): (d: int)
    ensures d * SecondsPerDay <= last - first < (d + 1) * SecondsPerDay
  {
    (last - first) / SecondsPerDay
  }

  /**
    `(final / initial) ** (365 / days) - 1`, NaN unless the span is at least one day and the
    power itself is a number: `pow` answers `None` where numpy's power gives NaN (a negative
    base with a non-integer exponent, as after losses beyond the initial capital).
  */
  function Cagr(finalCapital: real, initial: real, totalDays: int, pow: (real, real) -> Option<real>): (r: Option<real>)
    requires initial != 0.0
    ensures r.Some? <==> totalDays > 0 && pow(finalCapital / initial, DaysPerYear / totalDays as real).Some?
    ensures r.Some? ==> r.value + 1.0 == pow(finalCapital / initial, DaysPerYear / totalDays as real).value
  {
    if totalDays <= 0 then None
    else
      match pow(finalCapital / initial, DaysPerYear / totalDays as real)
      case None => None
      case Some(growth) => Some(growth - 1.0)
  }

  function Abs(x: real): real
  {
    if x < 0.0 then -x else x
  }

  /** `cagr / |max drawdown|`, NaN when max drawdown is 0 or the growth rate is NaN. */
  function Calmar(cagr: Option<real>, maxDrawdown: real): (r: Option<real>)
    ensures r.Some? <==> cagr.Some? && maxDrawdown != 0.0
    ensures r.Some? ==> r.value * Abs(maxDrawdown) == cagr.value
  {
    if maxDrawdown == 0.0 then None
    else if cagr.Some? then Some(cagr.value / Abs(maxDrawdown))
    else None
  }

  /**
    Every statistic of one run over a book, in book order. `None` when the book is empty:
    the source computes nothing then.
  */
  function Evaluate(initial: real, book: seq<Trade>, daily: DailyStats, annual: real,
                    pow: (real, real) -> Option<real>): (r: Option<Report>)
    requires initial != 0.0
    requires PeaksNonZero(EquityCurve(initial, book))
    ensures r.None? <==> book == []
    ensures r.Some? ==>
      var m := r.value;
      && m.totalTrades == |book|
      && m.finalCapital == initial + Sum(PnLs(book))
      && m.maxDrawdown == MaxDrawdown(EquityCurve(initial, book))
      && m.maxDrawdown <= 0.0
      && (m.sharpe.Some? <==> daily.mean.Some? && daily.std.Some? && daily.std.value != 0.0)
      && (m.sortino.Some? <==> daily.mean.Some? && daily.downsideStd.Some? && daily.downsideStd.value != 0.0)
      && (m.cagr.Some? <==>
            var days := TotalDays(book[0].exitTime, book[|book| - 1].exitTime);
            days > 0 && pow(m.finalCapital / initial, DaysPerYear / days as real).Some?)
      && (m.calmar.Some? <==> m.cagr.Some? && m.maxDrawdown != 0.0)
  {
    if book == [] then None
    else
      var equity := EquityCurve(initial, book);
      var finalCapital := equity[|equity| - 1];
      var totalDays := TotalDays(book[0].exitTime, book[|book| - 1].exitTime);
      var cagr := Cagr(finalCapital, initial, totalDays, pow);
      var maxDrawdown := MaxDrawdown(equity);
      FinalCapitalIsTotal(initial, book);
      MaxDrawdownNonPositive(equity);
      Some(Report(
        |book|,
        finalCapital,
        maxDrawdown,
        AnnualisedRatio(daily.mean, daily.std, annual),
        AnnualisedRatio(daily.mean, daily.downsideStd, annual),
        cagr,
        Calmar(cagr, maxDrawdown)))
  }

  /**
    The span is measured between the first and the last trade in book order, not in time.
    The book is not sorted, so when its first trade exits after its last one (an S1 trade
    late in the series, an S2 or S3 trade early), the span is negative and so the growth
    rate and the Calmar ratio are NaN however long the run.
  */
  lemma SpanFollowsBookOrder(initial: real, book: seq<Trade>, daily: DailyStats, annual: real,
                             pow: (real, real) -> Option<real>)
    requires initial != 0.0
    requires PeaksNonZero(EquityCurve(initial, book))
    requires |book| > 0 && book[0].exitTime > book[|book| - 1].exitTime
    ensures Evaluate(initial, book, daily, annual, pow).Some?
    ensures Evaluate(initial, book, daily, annual, pow).value.cagr == None
    ensures Evaluate(initial, book, daily, annual, pow).value.calmar == None
  {
  }

  /** A series of fewer than four bars gives an empty book, and then no statistics at all. */
  lemma ShortSeriesNoReport(bars: seq<Bar>, R: real, initial: real, daily: DailyStats, annual: real,
                            pow: (real, real) -> Option<real>)
    requires |bars| < 4 && initial != 0.0
    ensures PeaksNonZero(EquityCurve(initial, Book(bars, R)))
    ensures Evaluate(initial, Book(bars, R), daily, annual, pow) == None
  {
    BookSize(bars, R);
  }

  /**
    A book whose first capital point is positive and whose losses at some point wipe out the
    account reports a max drawdown of at most -1 (a 100% loss).
  */
  lemma RuinReport(initial: real, book: seq<Trade>, daily: DailyStats, annual: real,
                   pow: (real, real) -> Option<real>, k: int)
    requires initial != 0.0 && |book| > 0 && EquityCurve(initial, book)[0] > 0.0
    requires 0 <= k < |book| && EquityCurve(initial, book)[k] <= 0.0
    ensures PeaksNonZero(EquityCurve(initial, book))
    ensures Evaluate(initial, book, daily, annual, pow).value.maxDrawdown <= -1.0
  {
    RuinedCapitalDrawdown(EquityCurve(initial, book), k);
  }
}
