/** Worked examples of the scan on four-bar windows. */
module Scenarios {
  import opened Bars
  import opened Strengths
  import opened Scanner

  /** Bodies 0.5, -0.3, -0.1 and then the final bar `(10.1, close)`, half an
      hour apart; the final bar's range 8.9 .. 12.5 covers every close used. */
  function Window(close: real): seq<Bar>
  {
    [Bar(0, 10.0, 10.6, 9.9, 10.5, 1.0), Bar(1800, 10.5, 10.5, 10.1, 10.2, 1.0),
     Bar(3600, 10.2, 10.3, 10.0, 10.1, 1.0), Bar(5400, 10.1, 12.5, 8.9, close, 1.0)]
  }

  /** Three flat bars at `price` and then a rise of `rise`. */
  function FlatThenRise(price: real, rise: real): seq<Bar>
  {
    [Bar(0, price, price, price, price, 1.0), Bar(1800, price, price, price, price, 1.0),
     Bar(3600, price, price, price, price, 1.0), Bar(5400, price, price + rise, price, price + rise, 1.0)]
  }

  /** The final body 1.9 beats the largest earlier body 0.5: one pattern of
      strength 3.8 and price change 12 / 10.1. */
  lemma BreakoutFound()
    ensures ScanSymbol("BTCUSDT", Window(12.0), 4)
            == Ok([Pattern("BTCUSDT", 0, 3, 10.1, 12.0, 12.0 / 10.1, 1.9, 0.5, Finite(3.8))])
  {
    var ls := Window(12.0);
    assert ls[0..3] == [ls[0], ls[1], ls[2]];
    assert MaxAbsBody(ls[0..3]) == 0.5;
    assert Qualifies(ls, 0, 4);
    assert ScanFrom("BTCUSDT", ls, 4, 1) == Ok([]);
    assert StrengthOf(1.9, 0.5) == Finite(3.8);
    var p := NewPattern("BTCUSDT", ls, 4, 0);
    assert p == Pattern("BTCUSDT", 0, 3, 10.1, 12.0, 12.0 / 10.1, 1.9, 0.5, Finite(3.8));
    assert [p] + [] == [p];
    assert ScanFrom("BTCUSDT", ls, 4, 0) == Ok([p]);
  }

  /** A final body of 0.2 does not beat 0.5: no pattern. */
  lemma SmallFinalBodyRejected()
    ensures ScanSymbol("BTCUSDT", Window(10.3), 4) == Ok([])
  {
    var ls := Window(10.3);
    assert ls[0..3] == [ls[0], ls[1], ls[2]];
    assert MaxAbsBody(ls[0..3]) == 0.5;
  }

  /** A falling final bar never qualifies, however large its body. */
  lemma DownwardFinalBarRejected()
    ensures ScanSymbol("BTCUSDT", Window(9.0), 4) == Ok([])
  {
  }

  /** Flat earlier bars give an infinite strength. */
  lemma FlatWindowIsInfinite()
    ensures ScanSymbol("BTCUSDT", FlatThenRise(10.0, 0.5), 4)
            == Ok([Pattern("BTCUSDT", 0, 3, 10.0, 10.5, 10.5 / 10.0, 0.5, 0.0, Infinite)])
  {
    var ls := FlatThenRise(10.0, 0.5);
    assert ls[0..3] == [ls[0], ls[1], ls[2]];
    assert MaxAbsBody(ls[0..3]) == 0.0;
    assert Qualifies(ls, 0, 4);
    assert ScanFrom("BTCUSDT", ls, 4, 1) == Ok([]);
    var p := NewPattern("BTCUSDT", ls, 4, 0);
    assert p == Pattern("BTCUSDT", 0, 3, 10.0, 10.5, 10.5 / 10.0, 0.5, 0.0, Infinite);
    assert [p] + [] == [p];
    assert ScanFrom("BTCUSDT", ls, 4, 0) == Ok([p]);
  }

  /** A breakout whose final bar opens at 0 ends the run. */
  lemma ZeroOpenFails()
    ensures ScanSymbol("BTCUSDT", FlatThenRise(0.0, 1.0), 4) == Err(ZeroOpenPrice("BTCUSDT", 3))
  {
    var ls := FlatThenRise(0.0, 1.0);
    assert ls[0..3] == [ls[0], ls[1], ls[2]];
    assert MaxAbsBody(ls[0..3]) == 0.0;
    assert Qualifies(ls, 0, 4);
    assert ls[3].open == 0.0;
    assert ScanFrom("BTCUSDT", ls, 4, 0) == Err(ZeroOpenPrice("BTCUSDT", 3));
  }
}
