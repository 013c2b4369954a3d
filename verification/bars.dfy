/** Price bars and their normalisation.

The provider lists a symbol's klines newest-first, each record carrying its
start time in epoch milliseconds followed by open, high, low, close and
volume. Normalisation walks that list in provider order and inserts every
converted record at the FRONT of the result, so the result is oldest-first;
the start time becomes whole seconds by floor division by 1000.
 */
module Bars {

  /** One provider record, its six positional fields already numeric:
      [0] start time in ms, [1] open, [2] high, [3] low, [4] close, [5] volume. */
  datatype RawKline = RawKline(startMs: int, open: real, high: real, low: real, close: real, volume: real)

  /** One normalised candle; `time` is the bar's start in whole epoch seconds. */
  datatype Bar = Bar(time: int, open: real, high: real, low: real, close: real, volume: real)

  /** Converts one record. Python's `//` floors; Dafny's `/` on `int` is
      Euclidean, and the two agree because the divisor 1000 is positive. */
  function ToBar(k: RawKline): Bar
  {
    Bar(k.startMs / 1000, k.open, k.high, k.low, k.close, k.volume)
  }

  /** The normalisation loop: `acc` is the list built so far and every
      remaining record, in provider order, is put in front of it. */
  function PrependAll(acc: seq<Bar>, raw: seq<RawKline>): seq<Bar>
    decreases |raw|
  {
    if raw == [] then acc else PrependAll([ToBar(raw[0])] + acc, raw[1..])
  }

  /** After the loop, the records consumed appear reversed in front of the
      starting list, which is kept unchanged behind them. */
  lemma {:induction false} PrependAllReverses(acc: seq<Bar>, raw: seq<RawKline>)
    ensures |PrependAll(acc, raw)| == |acc| + |raw|
    ensures forall k :: 0 <= k < |raw| ==> PrependAll(acc, raw)[k] == ToBar(raw[|raw| - 1 - k])
    ensures forall k :: 0 <= k < |acc| ==> PrependAll(acc, raw)[|raw| + k] == acc[k]
    decreases |raw|
  {
    if raw != [] {
      var acc' := [ToBar(raw[0])] + acc;
      PrependAllReverses(acc', raw[1..]);
      var r := PrependAll(acc, raw);
      assert r == PrependAll(acc', raw[1..]);
      forall k | 0 <= k < |raw|
        ensures r[k] == ToBar(raw[|raw| - 1 - k])
      {
        if k < |raw| - 1 {
          assert raw[1..][|raw| - 2 - k] == raw[|raw| - 1 - k];
        } else {
          assert r[k] == acc'[0];
        }
      }
      forall k | 0 <= k < |acc|
        ensures r[|raw| + k] == acc[k]
      {
        assert r[|raw| - 1 + (k + 1)] == acc'[k + 1];
      }
    }
  }

  /** A symbol's provider list turned into a chronological candle sequence:
      bar `k` comes from record `n-1-k`, its time is that record's start in
      whole seconds (rounded down) and its prices are copied field by field. */
  function Normalize(raw: seq<RawKline>): (bars: seq<Bar>)
    ensures |bars| == |raw|
    ensures forall k :: 0 <= k < |raw| ==>
              var src := raw[|raw| - 1 - k];
              && 1000 * bars[k].time <= src.startMs < 1000 * bars[k].time + 1000
              && bars[k].open == src.open
              && bars[k].high == src.high
              && bars[k].low == src.low
              && bars[k].close == src.close
              && bars[k].volume == src.volume
  {
    PrependAllReverses([], raw);
    PrependAll([], raw)
  }

  /** Start times strictly decreasing along the list, the provider's
      newest-first convention. */
  predicate NewestFirst(raw: seq<RawKline>)
  {
    forall a, b :: 0 <= a < b < |raw| ==> raw[a].startMs > raw[b].startMs
  }

  /** Records at least one second apart, newest first. */
  predicate NewestFirstBySeconds(raw: seq<RawKline>)
  {
    forall a, b :: 0 <= a < b < |raw| ==> raw[a].startMs >= raw[b].startMs + 1000
  }

  /** Normalising a newest-first list yields bars in ascending time order;
      times may tie only because milliseconds are truncated to seconds. */
  lemma NormalizeAscending(raw: seq<RawKline>)
    requires NewestFirst(raw)
    ensures forall a, b :: 0 <= a < b < |raw| ==> Normalize(raw)[a].time <= Normalize(raw)[b].time
  {
    var bars := Normalize(raw);
    var n := |raw|;
    forall a, b | 0 <= a < b < n
      ensures bars[a].time <= bars[b].time
    {
      assert raw[n - 1 - b].startMs > raw[n - 1 - a].startMs;
    }
  }

  /** With records at least a second apart the bar times are strictly
      increasing, hence unique. */
  lemma NormalizeStrictlyAscending(raw: seq<RawKline>)
    requires NewestFirstBySeconds(raw)
    ensures forall a, b :: 0 <= a < b < |raw| ==> Normalize(raw)[a].time < Normalize(raw)[b].time
  {
    var bars := Normalize(raw);
    var n := |raw|;
    forall a, b | 0 <= a < b < n
      ensures bars[a].time < bars[b].time
    {
      assert raw[n - 1 - b].startMs >= raw[n - 1 - a].startMs + 1000;
    }
  }
}
