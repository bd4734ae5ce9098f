/**
  The three signal rules of strategy_example.py. Each rule walks the bar indices in
  increasing order and, where its pattern holds, appends one trade whose target and PnL
  follow from the entry, the stop and the reward ratio R. Every trade is assumed to reach
  its target on the bar it is entered.

  The rules are specified by `SignalsBelow` (the trades of the indices below a bound) and
  implemented by the loops `Strategy1`, `Strategy2` and `Strategy3`.
*/
module SignalRules {
  import opened PriceSeries

  /** The "Strategy" tag of a trade record. */
  datatype StrategyId = S1 | S2 | S3

  datatype Trade = Trade(
    strategy: StrategyId,
    entryTime: int,
    exitTime: int,
    entryPrice: real,
    exitPrice: real,
    pnl: real)

  /** Account-currency units per unit of price move. */
  const PositionMultiplier: real := 1000.0

  /** The first index a rule looks at: its look-back window. */
  function First(s: StrategyId): nat
  {
    if s == S3 then 5 else 2
  }

  /**
    One past the last index a rule looks at: the scan stops before the last bar, and
    never goes below `First(s)` (an empty scan).
  */
  function ScanEnd(s: StrategyId, bars: seq<Bar>): int
  {
    if |bars| - 1 < First(s) then First(s) else |bars| - 1
  }

  predicate InScan(s: StrategyId, bars: seq<Bar>, i: int)
  {
    First(s) <= i <= |bars| - 2
  }

  /** Whether rule `s` emits a trade when it examines bar `i`. */
  predicate Fires(s: StrategyId, bars: seq<Bar>, i: int)
    requires InScan(s, bars, i)
  {
    match s
    case S1 => IsUp(bars[i - 2]) && IsUp(bars[i - 1])
    case S2 => IsDown(bars[i - 2]) && IsDown(bars[i - 1])
    case S3 => bars[i].close > MaxHigh(bars[i - 5..i])
  }

  /** The bar whose open is the entry price and whose timestamp is the entry and exit time. */
  function FillIndex(s: StrategyId, i: int): int
  {
    if s == S3 then i + 1 else i
  }

  /** The stop level a rule derives from the bars before `i`. */
  function StopLevel(s: StrategyId, bars: seq<Bar>, i: int): real
    requires InScan(s, bars, i)
  {
    match s
    case S1 => Min(bars[i - 2].low, bars[i - 1].low)
    case S2 => Max(bars[i - 2].high, bars[i - 1].high)
    case S3 => MinLow(bars[i - 5..i])
  }

  /** The trade record rule `s` appends at index `i`. */
  function MakeTrade(s: StrategyId, bars: seq<Bar>, i: int, R: real): Trade
    requires InScan(s, bars, i)
  {
    var fill := bars[FillIndex(s, i)];
    var entry := fill.open;
    var stop := StopLevel(s, bars, i);
    if s == S2 then
      var target := entry - R * (stop - entry);
      Trade(s, fill.time, fill.time, entry, target, (entry - target) * PositionMultiplier)
    else
      var target := entry + R * (entry - stop);
      Trade(s, fill.time, fill.time, entry, target, (target - entry) * PositionMultiplier)
  }

  /** The indices below `hi` at which rule `s` fires, in scan order. */
  function FiringBelow(s: StrategyId, bars: seq<Bar>, hi: int): (r: seq<int>)
    requires hi <= ScanEnd(s, bars)
    ensures |r| <= if hi <= First(s) then 0 else hi - First(s)
    ensures forall k :: 0 <= k < |r| ==> First(s) <= r[k] < hi
    ensures forall a, b :: 0 <= a < b < |r| ==> r[a] < r[b]
    decreases hi - First(s)
  {
    if hi <= First(s) then []
    else FiringBelow(s, bars, hi - 1) + (if Fires(s, bars, hi - 1) then [hi - 1] else [])
  }

  /** The trades rule `s` has emitted once it has examined every index below `hi`. */
  function SignalsBelow(s: StrategyId, bars: seq<Bar>, R: real, hi: int): seq<Trade>
    requires hi <= ScanEnd(s, bars)
    decreases hi - First(s)
  {
    if hi <= First(s) then []
    else SignalsBelow(s, bars, R, hi - 1) + (if Fires(s, bars, hi - 1) then [MakeTrade(s, bars, hi - 1, R)] else [])
  }

  /** Every index rule `s` fires at over the whole series. */
  function FiringIndices(s: StrategyId, bars: seq<Bar>): seq<int>
  {
    FiringBelow(s, bars, ScanEnd(s, bars))
  }

  /** The complete trade list of rule `s`. */
  function Signals(s: StrategyId, bars: seq<Bar>, R: real): seq<Trade>
  {
    SignalsBelow(s, bars, R, ScanEnd(s, bars))
  }

  // ---------------------------------------------------------------------------
  // The three rules as the source writes them: a loop that appends to a list.
  // ---------------------------------------------------------------------------

  /** Two consecutive up-bars: go long at the open of the next bar. */
  method Strategy1(bars: seq<Bar>, R: real) returns (trades: seq<Trade>)
    ensures trades == Signals(S1, bars, R)
  {
    trades := [];
    var i := 2;
    while i < |bars| - 1
      invariant 2 <= i <= ScanEnd(S1, bars)
      invariant trades == SignalsBelow(S1, bars, R, i)
    {
      var c1, c2, c3 := bars[i - 2], bars[i - 1], bars[i];
      if c1.close > c1.open && c2.close > c2.open {
        var entry := c3.open;
        var stop := Min(c1.low, c2.low);
        var target := entry + R * (entry - stop);
        var pnl := target - entry;
        assert Trade(S1, c3.time, c3.time, entry, target, pnl * PositionMultiplier) == MakeTrade(S1, bars, i, R);
        trades := trades + [Trade(S1, c3.time, c3.time, entry, target, pnl * PositionMultiplier)];
      }
      assert Fires(S1, bars, i) <==> c1.close > c1.open && c2.close > c2.open;
      i := i + 1;
    }
  }

  /** Two consecutive down-bars: go short at the open of the next bar. */
  method Strategy2(bars: seq<Bar>, R: real) returns (trades: seq<Trade>)
    ensures trades == Signals(S2, bars, R)
  {
    trades := [];
    var i := 2;
    while i < |bars| - 1
      invariant 2 <= i <= ScanEnd(S2, bars)
      invariant trades == SignalsBelow(S2, bars, R, i)
    {
      var c1, c2, c3 := bars[i - 2], bars[i - 1], bars[i];
      if c1.close < c1.open && c2.close < c2.open {
        var entry := c3.open;
        var stop := Max(c1.high, c2.high);
        var target := entry - R * (stop - entry);
        var pnl := entry - target;
        assert Trade(S2, c3.time, c3.time, entry, target, pnl * PositionMultiplier) == MakeTrade(S2, bars, i, R);
        trades := trades + [Trade(S2, c3.time, c3.time, entry, target, pnl * PositionMultiplier)];
      }
      assert Fires(S2, bars, i) <==> c1.close < c1.open && c2.close < c2.open;
      i := i + 1;
    }
  }

  /** A close above the highest high of the five previous bars: go long at the next bar's open. */
  method Strategy3(bars: seq<Bar>, R: real) returns (trades: seq<Trade>)
    ensures trades == Signals(S3, bars, R)
  {
    trades := [];
    var i := 5;
    while i < |bars| - 1
      invariant 5 <= i <= ScanEnd(S3, bars)
      invariant trades == SignalsBelow(S3, bars, R, i)
    {
      var window := bars[i - 5..i];
      if bars[i].close > MaxHigh(window) {
        var entry := bars[i + 1].open;
        var stop := MinLow(window);
        var target := entry + R * (entry - stop);
        var pnl := target - entry;
        BreakoutTrade(bars, i, R);
        trades := trades + [Trade(S3, bars[i + 1].time, bars[i + 1].time, entry, target, pnl * PositionMultiplier)];
        assert Trade(S3, bars[i + 1].time, bars[i + 1].time, entry, target, pnl * PositionMultiplier) == MakeTrade(S3, bars, i, R);
      }
      SignalsBelowStep(S3, bars, R, i);
      i := i + 1;
    }
  }

  /** The trade `strategy3` builds at index `i`, written out. */
  lemma BreakoutTrade(bars: seq<Bar>, i: int, R: real)
    requires InScan(S3, bars, i)
    ensures var entry := bars[i + 1].open;
      var target := entry + R * (entry - MinLow(bars[i - 5..i]));
      MakeTrade(S3, bars, i, R)
      == Trade(S3, bars[i + 1].time, bars[i + 1].time, entry, target, (target - entry) * PositionMultiplier)
  {
  }

  /** One more scanned index appends at most the trade built at that index. */
  lemma SignalsBelowStep(s: StrategyId, bars: seq<Bar>, R: real, i: int)
    requires InScan(s, bars, i)
    ensures SignalsBelow(s, bars, R, i + 1)
            == SignalsBelow(s, bars, R, i) + (if Fires(s, bars, i) then [MakeTrade(s, bars, i, R)] else [])
  {
  }

  // ---------------------------------------------------------------------------
  // What the rules promise.
  // ---------------------------------------------------------------------------

  lemma {:induction false} FiresExactlyBelow(s: StrategyId, bars: seq<Bar>, hi: int, i: int)
    requires hi <= ScanEnd(s, bars)
    ensures i in FiringBelow(s, bars, hi) <==> First(s) <= i < hi && Fires(s, bars, i)
    decreases hi - First(s)
  {
    if hi > First(s) {
      FiresExactlyBelow(s, bars, hi - 1, i);
    }
  }

  /** A rule fires at index `i` exactly when `i` is in its scan range and its pattern holds there. */
  lemma FiresExactly(s: StrategyId, bars: seq<Bar>, i: int)
    ensures i in FiringIndices(s, bars) <==> InScan(s, bars, i) && Fires(s, bars, i)
  {
    FiresExactlyBelow(s, bars, ScanEnd(s, bars), i);
  }

  lemma {:induction false} SignalsMatchFiringBelow(s: StrategyId, bars: seq<Bar>, R: real, hi: int)
    requires hi <= ScanEnd(s, bars)
    ensures |SignalsBelow(s, bars, R, hi)| == |FiringBelow(s, bars, hi)|
    ensures forall k :: 0 <= k < |FiringBelow(s, bars, hi)| ==>
              SignalsBelow(s, bars, R, hi)[k] == MakeTrade(s, bars, FiringBelow(s, bars, hi)[k], R)
    decreases hi - First(s)
  {
    if hi > First(s) {
      SignalsMatchFiringBelow(s, bars, R, hi - 1);
    }
  }

  /**
    The k-th trade of a rule is the trade built at its k-th firing index: one trade per
    firing index, in increasing index order.
  */
  lemma SignalsMatchFiring(s: StrategyId, bars: seq<Bar>, R: real)
    ensures |Signals(s, bars, R)| == |FiringIndices(s, bars)|
    ensures forall k :: 0 <= k < |FiringIndices(s, bars)| ==>
              Signals(s, bars, R)[k] == MakeTrade(s, bars, FiringIndices(s, bars)[k], R)
  {
    SignalsMatchFiringBelow(s, bars, R, ScanEnd(s, bars));
  }

  /** Whenever a rule fires at index `i`, its list holds the trade built at `i`. */
  lemma FiringTrade(s: StrategyId, bars: seq<Bar>, R: real, i: int)
    requires InScan(s, bars, i) && Fires(s, bars, i)
    ensures exists k :: 0 <= k < |Signals(s, bars, R)| && Signals(s, bars, R)[k] == MakeTrade(s, bars, i, R)
  {
    FiresExactly(s, bars, i);
    SignalsMatchFiring(s, bars, R);
    var k :| 0 <= k < |FiringIndices(s, bars)| && FiringIndices(s, bars)[k] == i;
    assert Signals(s, bars, R)[k] == MakeTrade(s, bars, i, R);
  }

  /**
    At most one trade per scanned index: `strategy1` and `strategy2` emit at most len-3
    trades, `strategy3` at most len-6, and a series too short to scan gives none.
  */
  lemma SignalCount(s: StrategyId, bars: seq<Bar>, R: real)
    ensures |bars| < First(s) + 2 ==> Signals(s, bars, R) == []
    ensures |Signals(s, bars, R)| <= if |bars| < First(s) + 2 then 0 else |bars| - First(s) - 1
  {
    SignalsMatchFiring(s, bars, R);
  }

  /** The fields of one trade, stated in the reward ratio, the entry and the stop. */
  lemma TradeFields(s: StrategyId, bars: seq<Bar>, i: int, R: real)
    requires InScan(s, bars, i)
    ensures var t := MakeTrade(s, bars, i, R);
      var entry := t.entryPrice;
      var stop := StopLevel(s, bars, i);
      && t.strategy == s
      && t.entryTime == t.exitTime == bars[FillIndex(s, i)].time
      && entry == bars[FillIndex(s, i)].open
      && (s != S2 ==> t.exitPrice == entry + R * (entry - stop) && t.pnl == 1000.0 * R * (entry - stop))
      && (s == S2 ==> t.exitPrice == entry - R * (stop - entry) && t.pnl == 1000.0 * R * (stop - entry))
      && (R > 0.0 ==> (t.pnl > 0.0 <==> if s == S2 then stop > entry else entry > stop))
  {
  }

  /** Every trade of a rule carries that rule's tag. */
  lemma SignalsTagged(s: StrategyId, bars: seq<Bar>, R: real)
    ensures forall k :: 0 <= k < |Signals(s, bars, R)| ==> Signals(s, bars, R)[k].strategy == s
  {
    SignalsMatchFiring(s, bars, R);
  }

  /**
    On a series with increasing timestamps, one rule's trades come out in strictly
    increasing exit time; entry and exit time always coincide.
  */
  lemma SignalsTimeOrdered(s: StrategyId, bars: seq<Bar>, R: real)
    requires TimesIncrease(bars)
    ensures forall k :: 0 <= k < |Signals(s, bars, R)| ==>
              Signals(s, bars, R)[k].entryTime == Signals(s, bars, R)[k].exitTime
    ensures forall a, b :: 0 <= a < b < |Signals(s, bars, R)| ==>
              Signals(s, bars, R)[a].exitTime < Signals(s, bars, R)[b].exitTime
  {
    SignalsMatchFiring(s, bars, R);
    var f := FiringIndices(s, bars);
    var t := Signals(s, bars, R);
    forall a, b | 0 <= a < b < |t|
      ensures t[a].exitTime < t[b].exitTime
    {
      assert t[a].exitTime == bars[FillIndex(s, f[a])].time;
      assert t[b].exitTime == bars[FillIndex(s, f[b])].time;
    }
  }

  /**
    `strategy3` fires exactly when the close of bar `i` is above the high of each of the five
    bars before it (bar `i` itself is not in the window), and its stop is the lowest of their lows.
  */
  lemma BreakoutWindow(bars: seq<Bar>, i: int)
    requires InScan(S3, bars, i)
    ensures Fires(S3, bars, i) <==> forall k :: i - 5 <= k < i ==> bars[k].high < bars[i].close
    ensures forall k :: i - 5 <= k < i ==> StopLevel(S3, bars, i) <= bars[k].low
    ensures exists k :: i - 5 <= k < i && StopLevel(S3, bars, i) == bars[k].low
  {
    var w := bars[i - 5..i];
    MaxHighIsMaximum(w);
    MinLowIsMinimum(w);
    assert forall k :: i - 5 <= k < i ==> bars[k] == w[k - (i - 5)];
    var j :| 0 <= j < |w| && w[j].low == MinLow(w);
    assert bars[j + i - 5].low == StopLevel(S3, bars, i);
  }
}
