/**
  The combined trade book of strategy_example.py: the three rules' lists concatenated in
  rule order. The book is not re-sorted, so its order is S1's trades, then S2's, then S3's.
*/
module TradeBook {
  import opened PriceSeries
  import opened SignalRules

  /** The position of a rule in the concatenation. */
  function Rank(s: StrategyId): nat
  {
    match s
    case S1 => 0
    case S2 => 1
    case S3 => 2
  }

  /** The book: `strategy1 + strategy2 + strategy3`, with no reordering. */
  function Book(bars: seq<Bar>, R: real): seq<Trade>
  {
    Signals(S1, bars, R) + Signals(S2, bars, R) + Signals(S3, bars, R)
  }

  /** Runs the three rules over the same series and concatenates their trade lists. */
  method RunStrategies(bars: seq<Bar>, R: real) returns (book: seq<Trade>)
    ensures book == Book(bars, R)
    ensures |book| == |Signals(S1, bars, R)| + |Signals(S2, bars, R)| + |Signals(S3, bars, R)|
  {
    var t1 := Strategy1(bars, R);
    var t2 := Strategy2(bars, R);
    var t3 := Strategy3(bars, R);
    book := t1 + t2 + t3;
  }

  /**
    The book keeps every rule's trades as one contiguous block, in rule order: the tags
    never go back from S3 to S2 or from S2 to S1.
  */
  lemma BookGroupedByRule(bars: seq<Bar>, R: real)
    ensures var book := Book(bars, R);
      forall a, b :: 0 <= a < b < |book| ==> Rank(book[a].strategy) <= Rank(book[b].strategy)
  {
    SignalsTagged(S1, bars, R);
    SignalsTagged(S2, bars, R);
    SignalsTagged(S3, bars, R);
    var t1, t2, t3 := Signals(S1, bars, R), Signals(S2, bars, R), Signals(S3, bars, R);
    var book := Book(bars, R);
    forall k | 0 <= k < |book|
      ensures Rank(book[k].strategy) == if k < |t1| then 0 else if k < |t1| + |t2| then 1 else 2
    {
      if k < |t1| {
        assert book[k] == t1[k];
      } else if k < |t1| + |t2| {
        assert book[k] == t2[k - |t1|];
      } else {
        assert book[k] == t3[k - |t1| - |t2|];
      }
    }
  }

  /** At most len-3 trades from each continuation rule and len-6 from the breakout rule. */
  lemma BookSize(bars: seq<Bar>, R: real)
    ensures |bars| < 4 ==> Book(bars, R) == []
    ensures |bars| >= 7 ==> |Book(bars, R)| <= 3 * |bars| - 12
    ensures 4 <= |bars| < 7 ==> |Book(bars, R)| <= 2 * |bars| - 6
  {
    SignalCount(S1, bars, R);
    SignalCount(S2, bars, R);
    SignalCount(S3, bars, R);
  }

  /**
    Exit times in the book are not distinct. When S1 or S2 fires at bar i and the breakout
    rule fired one bar earlier, both trades exit at the timestamp of bar i: the breakout
    rule fills at the bar after its signal, the other two at the signal bar itself.
  */
  lemma SharedExitTimes(s: StrategyId, bars: seq<Bar>, R: real, i: int)
    requires s != S3 && 6 <= i <= |bars| - 2
    requires Fires(s, bars, i) && Fires(S3, bars, i - 1)
    ensures var book := Book(bars, R);
      exists a, b :: 0 <= a < b < |book| && book[a].strategy == s && book[b].strategy == S3
        && book[a].exitTime == bars[i].time && book[b].exitTime == bars[i].time
  {
    var t1, t2, t3 := Signals(S1, bars, R), Signals(S2, bars, R), Signals(S3, bars, R);
    var book := Book(bars, R);
    FiringTrade(s, bars, R, i);
    FiringTrade(S3, bars, R, i - 1);
    var ka :| 0 <= ka < |Signals(s, bars, R)| && Signals(s, bars, R)[ka] == MakeTrade(s, bars, i, R);
    var kb :| 0 <= kb < |t3| && t3[kb] == MakeTrade(S3, bars, i - 1, R);
    var ta, tb := MakeTrade(s, bars, i, R), MakeTrade(S3, bars, i - 1, R);
    var a := if s == S1 then ka else |t1| + ka;
    var b := |t1| + |t2| + kb;
    assert book[a] == ta;
    assert book[b] == tb;
    assert 0 <= a < b < |book| && book[a].strategy == s && book[b].strategy == S3
      && book[a].exitTime == bars[i].time && book[b].exitTime == bars[i].time;
  }

  /** Eight 4-hour bars: four flat ones, two up-bars breaking out of the flat range, two flat ones. */
  function SharedExitSeries(): seq<Bar>
  {
    [Bar(0, 1.0, 1.0, 1.0, 1.0), Bar(14400, 1.0, 1.0, 1.0, 1.0),
     Bar(28800, 1.0, 1.0, 1.0, 1.0), Bar(43200, 1.0, 1.0, 1.0, 1.0),
     Bar(57600, 1.0, 1.5, 1.0, 1.5), Bar(72000, 1.5, 2.0, 1.5, 2.0),
     Bar(86400, 2.0, 2.0, 2.0, 2.0), Bar(100800, 2.0, 2.0, 2.0, 2.0)]
  }

  /** On that series the S1 trade and the S3 trade both exit at 86400 (the first midnight). */
  lemma SharedExitTimesExample(R: real)
    ensures var book := Book(SharedExitSeries(), R);
      exists a, b :: 0 <= a < b < |book| && book[a].exitTime == 86400 && book[b].exitTime == 86400
  {
    var bars := SharedExitSeries();
    MaxHighIsMaximum(bars[0..5]);
    assert Fires(S3, bars, 5);
    assert Fires(S1, bars, 6);
    SharedExitTimes(S1, bars, R, 6);
  }
}
