/** The breakout scan.

For one symbol's chronological candles and a window length `winLen`, every
start `i` with `i + winLen <= n` is examined, oldest first. The window's final
bar is `j = i + winLen - 1`. The window is a breakout when the final bar's
body `close - open` is positive and strictly larger than the absolute body of
every earlier bar of the window, bars `i .. j-1`. Every breakout is recorded
as a `Pattern`. Symbols are scanned in the order of the candle map and their
patterns concatenated.

Computing `price_change = close / open` for a breakout whose final bar opens
at exactly 0 raises ZeroDivisionError in main.py, which ends the whole run;
the model returns `Err(ZeroOpenPrice(..))` there.
 */
module Scanner {
  import opened Bars
  import opened Strengths

  type Symbol = string

  /** One detected breakout, with the fields the reporter records. */
  datatype Pattern = Pattern(
    symbol: Symbol,
    i: nat,
    j: nat,
    jOpen: real,
    jClose: real,
    priceChange: real,
    lastDelta: real,
    maxAbsDelta: real,
    strength: Strength)

  datatype ScanError = ZeroOpenPrice(symbol: Symbol, j: nat)

  datatype Result<+T> = Ok(value: T) | Err(error: ScanError)

  /** The candle dictionary: symbols with their candles, in insertion order. */
  type CandleMap = seq<(Symbol, seq<Bar>)>

  /** A bar's signed body. */
  function Body(b: Bar): real
  {
    b.close - b.open
  }

  function Abs(x: real): real
  {
    if x >= 0.0 then x else -x
  }

  /** The largest absolute body in a non-empty run of bars, folded left to
      right as Python's `max` over a generator does. */
  function MaxAbsBody(s: seq<Bar>): (m: real)
    requires |s| > 0
    ensures forall k :: 0 <= k < |s| ==> Abs(Body(s[k])) <= m
    ensures exists k :: 0 <= k < |s| && Abs(Body(s[k])) == m
  {
    if |s| == 1 then Abs(Body(s[0]))
    else
      var m' := MaxAbsBody(s[..|s| - 1]);
      var last := Abs(Body(s[|s| - 1]));
      assert forall k :: 0 <= k < |s| - 1 ==> s[..|s| - 1][k] == s[k];
      if last > m' then last else m'
  }

  /** Reference definition of a breakout window starting at `i`. */
  ghost predicate IsBreakout(ls: seq<Bar>, i: int, winLen: nat)
    requires winLen >= 2
  {
    && 0 <= i
    && i + winLen <= |ls|
    && Body(ls[i + winLen - 1]) > 0.0
    && forall k :: i <= k < i + winLen - 1 ==> Abs(Body(ls[k])) < Body(ls[i + winLen - 1])
  }

  /** What a recorded pattern says about the candles of its symbol: the
      window lies inside the sequence, the final bar's prices are copied,
      `maxAbsDelta` is the largest earlier body, the defining strict
      inequalities hold, and the ratios are those main.py computes. */
  ghost predicate Describes(p: Pattern, sym: Symbol, ls: seq<Bar>, winLen: nat)
  {
    && p.symbol == sym
    && p.j == p.i + winLen - 1
    && p.i < p.j < |ls|
    && p.jOpen == ls[p.j].open
    && p.jClose == ls[p.j].close
    && p.jOpen != 0.0
    && p.priceChange == Ratio(p.jClose, p.jOpen)
    && p.lastDelta == p.jClose - p.jOpen
    && (forall k :: p.i <= k < p.j ==> Abs(Body(ls[k])) <= p.maxAbsDelta)
    && (exists k :: p.i <= k < p.j && Abs(Body(ls[k])) == p.maxAbsDelta)
    && p.lastDelta > 0.0
    && p.lastDelta > p.maxAbsDelta
    && (p.maxAbsDelta > 0.0 ==> p.strength == Finite(Ratio(p.lastDelta, p.maxAbsDelta)))
    && (p.maxAbsDelta == 0.0 ==> p.strength == Infinite)
  }

  /** The scan's two tests on the window starting at `i`, as main.py
      writes them: the final body is positive, and it exceeds the running
      maximum of the earlier absolute bodies. They accept exactly the
      breakout windows. */
  function Qualifies(ls: seq<Bar>, i: nat, winLen: nat): (q: bool)
    requires winLen >= 2
    requires i + winLen <= |ls|
    ensures q <==> IsBreakout(ls, i, winLen)
  {
    var j := i + winLen - 1;
    var lastDelta := Body(ls[j]);
    var m := MaxAbsBody(ls[i..j]);
    assert forall k :: i <= k < j ==> ls[i..j][k - i] == ls[k];
    if lastDelta > 0.0 && Abs(lastDelta) > m then
      assert forall k :: i <= k < j ==> Abs(Body(ls[k])) < Body(ls[j]) by {
        forall k | i <= k < j
          ensures Abs(Body(ls[k])) < Body(ls[j])
        {
          assert Abs(Body(ls[i..j][k - i])) <= m;
        }
      }
      true
    else
      false
  }

  /** The record the reporter appends for a breakout window starting at `i`. */
  function NewPattern(sym: Symbol, ls: seq<Bar>, winLen: nat, i: nat): (p: Pattern)
    requires winLen >= 2
    requires IsBreakout(ls, i, winLen)
    requires ls[i + winLen - 1].open != 0.0
    ensures p.i == i
    ensures Describes(p, sym, ls, winLen)
  {
    var j := i + winLen - 1;
    var lastDelta := Body(ls[j]);
    var maxAbsDelta := MaxAbsBody(ls[i..j]);
    assert forall k :: i <= k < j ==> ls[i..j][k - i] == ls[k];
    assert exists k :: i <= k < j && Abs(Body(ls[k])) == maxAbsDelta by {
      var w :| 0 <= w < j - i && Abs(Body(ls[i..j][w])) == maxAbsDelta;
      assert Abs(Body(ls[i + w])) == maxAbsDelta;
    }
    assert forall k :: i <= k < j ==> Abs(Body(ls[k])) <= maxAbsDelta by {
      forall k | i <= k < j ensures Abs(Body(ls[k])) <= maxAbsDelta {
        assert Abs(Body(ls[i..j][k - i])) <= maxAbsDelta;
      }
    }
    Pattern(sym, i, j, ls[j].open, ls[j].close, Ratio(ls[j].close, ls[j].open),
            lastDelta, maxAbsDelta, StrengthOf(lastDelta, maxAbsDelta))
  }

  /** The scan loop from start `i` on. */
  function ScanFrom(sym: Symbol, ls: seq<Bar>, winLen: nat, i: nat): Result<seq<Pattern>>
    requires winLen >= 2
    decreases |ls| - i
  {
    if i + winLen > |ls| then Ok([])
    else
      var j := i + winLen - 1;
      if Qualifies(ls, i, winLen) then
        if ls[j].open == 0.0 then Err(ZeroOpenPrice(sym, j))
        else
          var p := NewPattern(sym, ls, winLen, i);
          match ScanFrom(sym, ls, winLen, i + 1)
          case Err(e) => Err(e)
          case Ok(rest) => Ok([p] + rest)
      else
        ScanFrom(sym, ls, winLen, i + 1)
  }

  /** All breakouts of one symbol, in increasing start order. */
  function ScanSymbol(sym: Symbol, ls: seq<Bar>, winLen: nat): Result<seq<Pattern>>
    requires winLen >= 2
  {
    ScanFrom(sym, ls, winLen, 0)
  }

  /** The loop from `i` emits patterns of its own symbol whose starts lie at
      or after `i` and strictly increase. */
  lemma {:induction false} ScanFromShape(sym: Symbol, ls: seq<Bar>, winLen: nat, i: nat, ps: seq<Pattern>)
    requires winLen >= 2
    requires ScanFrom(sym, ls, winLen, i) == Ok(ps)
    ensures forall k :: 0 <= k < |ps| ==> ps[k].symbol == sym && i <= ps[k].i
    ensures forall a, b :: 0 <= a < b < |ps| ==> ps[a].i < ps[b].i
    decreases |ls| - i
  {
    if i + winLen <= |ls| {
      var rest := ScanFrom(sym, ls, winLen, i + 1).value;
      ScanFromShape(sym, ls, winLen, i + 1, rest);
      if Qualifies(ls, i, winLen) {
        var p := NewPattern(sym, ls, winLen, i);
        assert ps == [p] + rest;
        assert forall k :: 1 <= k < |ps| ==> ps[k] == rest[k - 1];
      }
    }
  }

  /** Every pattern the loop emits from `i` on describes a breakout window of
      the symbol's candles. */
  lemma {:induction false} ScanFromDescribed(sym: Symbol, ls: seq<Bar>, winLen: nat, i: nat, ps: seq<Pattern>)
    requires winLen >= 2
    requires ScanFrom(sym, ls, winLen, i) == Ok(ps)
    ensures forall k :: 0 <= k < |ps| ==> Describes(ps[k], sym, ls, winLen)
    decreases |ls| - i
  {
    if i + winLen <= |ls| {
      var rest := ScanFrom(sym, ls, winLen, i + 1).value;
      ScanFromDescribed(sym, ls, winLen, i + 1, rest);
      if Qualifies(ls, i, winLen) {
        var p := NewPattern(sym, ls, winLen, i);
        assert ps == [p] + rest;
        forall k | 1 <= k < |ps|
          ensures Describes(ps[k], sym, ls, winLen)
        {
          assert ps[k] == rest[k - 1];
        }
      }
    }
  }

  /** Every pattern the loop emits from `i` on describes a breakout window
      starting at or after `i`, and starts increase strictly. */
  lemma ScanFromSound(sym: Symbol, ls: seq<Bar>, winLen: nat, i: nat, ps: seq<Pattern>)
    requires winLen >= 2
    requires ScanFrom(sym, ls, winLen, i) == Ok(ps)
    ensures forall k :: 0 <= k < |ps| ==> i <= ps[k].i && Describes(ps[k], sym, ls, winLen)
    ensures forall a, b :: 0 <= a < b < |ps| ==> ps[a].i < ps[b].i
  {
    ScanFromShape(sym, ls, winLen, i, ps);
    ScanFromDescribed(sym, ls, winLen, i, ps);
  }

  /** The loop from `i` emits every breakout start at or after `i`. */
  lemma {:induction false} ScanFromComplete(sym: Symbol, ls: seq<Bar>, winLen: nat, i: nat, ps: seq<Pattern>)
    requires winLen >= 2
    requires ScanFrom(sym, ls, winLen, i) == Ok(ps)
    ensures forall x :: i <= x && IsBreakout(ls, x, winLen) ==> exists k :: 0 <= k < |ps| && ps[k].i == x
    decreases |ls| - i
  {
    if i + winLen <= |ls| {
      var rest := ScanFrom(sym, ls, winLen, i + 1).value;
      ScanFromComplete(sym, ls, winLen, i + 1, rest);
      forall x | i <= x && IsBreakout(ls, x, winLen)
        ensures exists k :: 0 <= k < |ps| && ps[k].i == x
      {
        if Qualifies(ls, i, winLen) {
          var p := NewPattern(sym, ls, winLen, i);
          assert ps == [p] + rest;
          if x == i {
            assert ps[0].i == x;
          } else {
            var k :| 0 <= k < |rest| && rest[k].i == x;
            assert ps[k + 1] == rest[k];
          }
        } else {
          assert x != i;
          var k :| 0 <= k < |rest| && rest[k].i == x;
          assert ps[k] == rest[k];
        }
      }
    } else {
      assert forall x :: i <= x ==> !IsBreakout(ls, x, winLen);
    }
  }

  /** The loop from `i` fails exactly when some breakout at or after `i` has
      a final bar opening at 0. */
  lemma {:induction false} ScanFromFailsIff(sym: Symbol, ls: seq<Bar>, winLen: nat, i: nat)
    requires winLen >= 2
    ensures ScanFrom(sym, ls, winLen, i).Err? <==>
              exists x :: i <= x && IsBreakout(ls, x, winLen) && ls[x + winLen - 1].open == 0.0
    decreases |ls| - i
  {
    if i + winLen <= |ls| {
      ScanFromFailsIff(sym, ls, winLen, i + 1);
      if ScanFrom(sym, ls, winLen, i).Err? && !(Qualifies(ls, i, winLen) && ls[i + winLen - 1].open == 0.0) {
        var x :| i + 1 <= x && IsBreakout(ls, x, winLen) && ls[x + winLen - 1].open == 0.0;
      }
      if exists x :: i <= x && IsBreakout(ls, x, winLen) && ls[x + winLen - 1].open == 0.0 {
        var x :| i <= x && IsBreakout(ls, x, winLen) && ls[x + winLen - 1].open == 0.0;
        if x != i && !(Qualifies(ls, i, winLen) && ls[i + winLen - 1].open == 0.0) {
          assert ScanFrom(sym, ls, winLen, i + 1).Err?;
        }
      }
    } else {
      assert forall x :: i <= x ==> !IsBreakout(ls, x, winLen);
    }
  }

  /** A failed loop from `i` names the final bar of the earliest breakout at
      or after `i` whose final bar opens at 0. */
  lemma {:induction false} ScanFromFailsFirst(sym: Symbol, ls: seq<Bar>, winLen: nat, i: nat, e: ScanError)
    requires winLen >= 2
    requires ScanFrom(sym, ls, winLen, i) == Err(e)
    ensures e.symbol == sym
    ensures i + winLen - 1 <= e.j < |ls|
    ensures IsBreakout(ls, e.j - winLen + 1, winLen) && ls[e.j].open == 0.0
    ensures forall x :: i <= x < e.j - winLen + 1 && IsBreakout(ls, x, winLen) ==> ls[x + winLen - 1].open != 0.0
    decreases |ls| - i
  {
    if !(Qualifies(ls, i, winLen) && ls[i + winLen - 1].open == 0.0) {
      ScanFromFailsFirst(sym, ls, winLen, i + 1, e);
    }
  }

  /** Soundness and order for one symbol: every emitted pattern describes a
      breakout of that symbol's candles, and starts strictly increase, so no
      start is reported twice. */
  lemma ScanSymbolSound(sym: Symbol, ls: seq<Bar>, winLen: nat, ps: seq<Pattern>)
    requires winLen >= 2
    requires ScanSymbol(sym, ls, winLen) == Ok(ps)
    ensures forall k :: 0 <= k < |ps| ==> Describes(ps[k], sym, ls, winLen) && IsBreakout(ls, ps[k].i, winLen)
    ensures forall a, b :: 0 <= a < b < |ps| ==> ps[a].i < ps[b].i
  {
    ScanFromSound(sym, ls, winLen, 0, ps);
    forall k | 0 <= k < |ps|
      ensures IsBreakout(ls, ps[k].i, winLen)
    {
      DescribesBreakout(ps[k], sym, ls, winLen);
    }
  }

  /** A recorded pattern's window is a breakout. */
  lemma DescribesBreakout(p: Pattern, sym: Symbol, ls: seq<Bar>, winLen: nat)
    requires winLen >= 2
    requires Describes(p, sym, ls, winLen)
    ensures IsBreakout(ls, p.i, winLen)
  {
  }

  /** A recorded strength is infinite exactly when every earlier body in the
      window is flat; otherwise it is the body ratio, and above 1. */
  lemma PatternStrength(p: Pattern, sym: Symbol, ls: seq<Bar>, winLen: nat)
    requires Describes(p, sym, ls, winLen)
    ensures p.strength == Infinite <==> forall k :: p.i <= k < p.j ==> Body(ls[k]) == 0.0
    ensures p.strength.Finite? ==> p.strength.ratio > 1.0
  {
    var w :| p.i <= w < p.j && Abs(Body(ls[w])) == p.maxAbsDelta;
    if p.maxAbsDelta > 0.0 {
      var s := StrengthOf(p.lastDelta, p.maxAbsDelta);
      assert p.strength == s;
      assert Body(ls[w]) != 0.0;
    } else {
      assert p.strength == Infinite;
      forall k | p.i <= k < p.j
        ensures Body(ls[k]) == 0.0
      {
        assert Abs(Body(ls[k])) <= p.maxAbsDelta;
      }
    }
  }

  /** Completeness for one symbol: a start is emitted exactly when its
      window is a breakout. */
  lemma ScanSymbolExact(sym: Symbol, ls: seq<Bar>, winLen: nat, ps: seq<Pattern>)
    requires winLen >= 2
    requires ScanSymbol(sym, ls, winLen) == Ok(ps)
    ensures forall x :: (exists k :: 0 <= k < |ps| && ps[k].i == x) <==> IsBreakout(ls, x, winLen)
  {
    ScanSymbolSound(sym, ls, winLen, ps);
    ScanFromComplete(sym, ls, winLen, 0, ps);
  }

  /** One symbol's scan fails exactly when one of its breakouts ends in a
      bar that opens at 0, and then it names the earliest such bar. */
  lemma ScanSymbolFails(sym: Symbol, ls: seq<Bar>, winLen: nat)
    requires winLen >= 2
    ensures ScanSymbol(sym, ls, winLen).Err? <==>
              exists x :: IsBreakout(ls, x, winLen) && ls[x + winLen - 1].open == 0.0
    ensures ScanSymbol(sym, ls, winLen).Err? ==>
              var e := ScanSymbol(sym, ls, winLen).error;
              && e.symbol == sym
              && IsBreakout(ls, e.j - winLen + 1, winLen) && ls[e.j].open == 0.0
              && forall x :: x < e.j - winLen + 1 && IsBreakout(ls, x, winLen) ==> ls[x + winLen - 1].open != 0.0
  {
    ScanFromFailsIff(sym, ls, winLen, 0);
    if ScanSymbol(sym, ls, winLen).Err? {
      ScanFromFailsFirst(sym, ls, winLen, 0, ScanSymbol(sym, ls, winLen).error);
    }
  }

  /** Fewer bars than the window gives no pattern; exactly a window's worth
      gives at most one, starting at 0. */
  lemma ScanSymbolBoundary(sym: Symbol, ls: seq<Bar>, winLen: nat, ps: seq<Pattern>)
    requires winLen >= 2
    requires ScanSymbol(sym, ls, winLen) == Ok(ps)
    ensures |ls| < winLen ==> ps == []
    ensures |ls| == winLen ==> |ps| <= 1 && forall k :: 0 <= k < |ps| ==> ps[k].i == 0
  {
    ScanFromSound(sym, ls, winLen, 0, ps);
  }

  /** The symbols of a candle map. */
  predicate HasSymbol(cm: CandleMap, sym: Symbol)
  {
    exists k :: 0 <= k < |cm| && cm[k].0 == sym
  }

  /** Dictionary keys are unique. */
  predicate DistinctSymbols(cm: CandleMap)
  {
    forall a, b :: 0 <= a < b < |cm| ==> cm[a].0 != cm[b].0
  }

  /** `candles[sym]`. */
  function Lookup(cm: CandleMap, sym: Symbol): seq<Bar>
    requires HasSymbol(cm, sym)
  {
    if cm[0].0 == sym then cm[0].1
    else
      assert HasSymbol(cm[1..], sym) by {
        var k :| 0 <= k < |cm| && cm[k].0 == sym;
        assert cm[1..][k - 1].0 == sym;
      }
      Lookup(cm[1..], sym)
  }

  /** With unique keys, looking up an entry's symbol finds that entry. */
  lemma {:induction false} LookupFindsEntry(cm: CandleMap, k: nat)
    requires DistinctSymbols(cm)
    requires k < |cm|
    ensures HasSymbol(cm, cm[k].0)
    ensures Lookup(cm, cm[k].0) == cm[k].1
  {
    if k > 0 {
      assert cm[1..][k - 1] == cm[k];
      LookupFindsEntry(cm[1..], k - 1);
    }
  }

  /** The position of `sym` among the map's keys, its first occurrence. */
  function KeyIndex(cm: CandleMap, sym: Symbol): (k: nat)
    requires HasSymbol(cm, sym)
    ensures k < |cm| && cm[k].0 == sym
    ensures forall m :: 0 <= m < k ==> cm[m].0 != sym
  {
    if cm[0].0 == sym then 0
    else
      assert HasSymbol(cm[1..], sym) by {
        var k :| 0 <= k < |cm| && cm[k].0 == sym;
        assert cm[1..][k - 1].0 == sym;
      }
      var k := KeyIndex(cm[1..], sym);
      assert forall m :: 1 <= m <= k ==> cm[m] == cm[1..][m - 1];
      1 + k
  }

  /** With unique keys, a key of the map's tail sits one place further on
      in the whole map. */
  lemma KeyIndexTail(cm: CandleMap, sym: Symbol)
    requires DistinctSymbols(cm)
    requires cm != [] && HasSymbol(cm[1..], sym)
    ensures HasSymbol(cm, sym)
    ensures KeyIndex(cm, sym) == 1 + KeyIndex(cm[1..], sym)
  {
    var c :| 0 <= c < |cm[1..]| && cm[1..][c].0 == sym;
    assert cm[c + 1].0 == sym;
  }

  /** The scan over all symbols, in map order; the first failing symbol
      ends the run. */
  function ScanAll(cm: CandleMap, winLen: nat): Result<seq<Pattern>>
    requires winLen >= 2
  {
    if cm == [] then Ok([])
    else
      match ScanSymbol(cm[0].0, cm[0].1, winLen)
      case Err(e) => Err(e)
      case Ok(ps) =>
        match ScanAll(cm[1..], winLen)
        case Err(e) => Err(e)
        case Ok(rest) => Ok(ps + rest)
  }

  /** No two patterns share both symbol and final bar. */
  predicate UniqueFinalBars(ps: seq<Pattern>)
  {
    forall a, b :: 0 <= a < b < |ps| ==> ps[a].symbol != ps[b].symbol || ps[a].j != ps[b].j
  }

  /** Every pattern of the full scan describes a breakout of its own
      symbol's candles. */
  lemma {:induction false} ScanAllDescribed(cm: CandleMap, winLen: nat, ps: seq<Pattern>)
    requires winLen >= 2
    requires DistinctSymbols(cm)
    requires ScanAll(cm, winLen) == Ok(ps)
    ensures forall k :: 0 <= k < |ps| ==>
              HasSymbol(cm, ps[k].symbol) && Describes(ps[k], ps[k].symbol, Lookup(cm, ps[k].symbol), winLen)
  {
    if cm != [] {
      var sym := cm[0].0;
      var head := ScanSymbol(sym, cm[0].1, winLen).value;
      var tail := ScanAll(cm[1..], winLen).value;
      assert ps == head + tail;
      ScanSymbolSound(sym, cm[0].1, winLen, head);
      ScanAllDescribed(cm[1..], winLen, tail);
      LookupFindsEntry(cm, 0);
      forall k | 0 <= k < |tail|
        ensures HasSymbol(cm, tail[k].symbol) && tail[k].symbol != sym
        ensures Lookup(cm, tail[k].symbol) == Lookup(cm[1..], tail[k].symbol)
      {
        var c :| 0 <= c < |cm[1..]| && cm[1..][c].0 == tail[k].symbol;
        assert cm[c + 1].0 == tail[k].symbol;
      }
      forall k | 0 <= k < |ps|
        ensures HasSymbol(cm, ps[k].symbol) && Describes(ps[k], ps[k].symbol, Lookup(cm, ps[k].symbol), winLen)
      {
        if k < |head| {
          assert ps[k] == head[k];
        } else {
          assert ps[k] == tail[k - |head|];
        }
      }
    }
  }

  /** Every pattern of the full scan describes a breakout of its own
      symbol's candles, and no (symbol, final bar) pair appears twice. */
  lemma ScanAllSound(cm: CandleMap, winLen: nat, ps: seq<Pattern>)
    requires winLen >= 2
    requires DistinctSymbols(cm)
    requires ScanAll(cm, winLen) == Ok(ps)
    ensures forall k :: 0 <= k < |ps| ==>
              HasSymbol(cm, ps[k].symbol) && Describes(ps[k], ps[k].symbol, Lookup(cm, ps[k].symbol), winLen)
    ensures UniqueFinalBars(ps)
  {
    ScanAllDescribed(cm, winLen, ps);
    ScanAllOrder(cm, winLen, ps);
    forall a, b | 0 <= a < b < |ps|
      ensures ps[a].symbol != ps[b].symbol || ps[a].j != ps[b].j
    {
      if ps[a].symbol == ps[b].symbol {
        assert ps[a].i < ps[b].i;
      }
    }
  }

  /** Patterns listed by map position of their symbol and, within a symbol,
      by start. */
  predicate InMapOrder(cm: CandleMap, ps: seq<Pattern>)
  {
    && (forall k :: 0 <= k < |ps| ==> HasSymbol(cm, ps[k].symbol))
    && (forall a, b :: 0 <= a < b < |ps| ==>
          KeyIndex(cm, ps[a].symbol) < KeyIndex(cm, ps[b].symbol)
          || (ps[a].symbol == ps[b].symbol && ps[a].i < ps[b].i))
  }

  /** The first symbol's patterns, by start, followed by patterns in map
      order of the remaining symbols, are in map order. */
  lemma InMapOrderConcat(cm: CandleMap, head: seq<Pattern>, tail: seq<Pattern>)
    requires DistinctSymbols(cm) && cm != []
    requires forall k :: 0 <= k < |head| ==> head[k].symbol == cm[0].0
    requires forall a, b :: 0 <= a < b < |head| ==> head[a].i < head[b].i
    requires InMapOrder(cm[1..], tail)
    ensures InMapOrder(cm, head + tail)
  {
    var ps := head + tail;
    forall k | 0 <= k < |tail|
      ensures HasSymbol(cm, tail[k].symbol)
      ensures KeyIndex(cm, tail[k].symbol) == 1 + KeyIndex(cm[1..], tail[k].symbol)
    {
      KeyIndexTail(cm, tail[k].symbol);
    }
    forall k | 0 <= k < |ps|
      ensures HasSymbol(cm, ps[k].symbol)
    {
      if k < |head| {
        assert ps[k] == head[k];
        assert cm[0].0 == head[k].symbol;
      } else {
        assert ps[k] == tail[k - |head|];
      }
    }
    forall a, b | 0 <= a < b < |ps|
      ensures KeyIndex(cm, ps[a].symbol) < KeyIndex(cm, ps[b].symbol)
              || (ps[a].symbol == ps[b].symbol && ps[a].i < ps[b].i)
    {
      if b < |head| {
        assert ps[a] == head[a] && ps[b] == head[b];
      } else if a >= |head| {
        assert ps[a] == tail[a - |head|] && ps[b] == tail[b - |head|];
      } else {
        assert ps[a] == head[a] && ps[b] == tail[b - |head|];
        assert KeyIndex(cm, ps[a].symbol) == 0;
      }
    }
  }

  /** The full scan lists symbols in map order and, within one symbol,
      patterns by increasing start: this is the discovery order that the
      ranking keeps among equal strengths. */
  lemma {:induction false} ScanAllOrder(cm: CandleMap, winLen: nat, ps: seq<Pattern>)
    requires winLen >= 2
    requires DistinctSymbols(cm)
    requires ScanAll(cm, winLen) == Ok(ps)
    ensures InMapOrder(cm, ps)
  {
    if cm != [] {
      var head := ScanSymbol(cm[0].0, cm[0].1, winLen).value;
      var tail := ScanAll(cm[1..], winLen).value;
      ScanFromShape(cm[0].0, cm[0].1, winLen, 0, head);
      ScanAllOrder(cm[1..], winLen, tail);
      InMapOrderConcat(cm, head, tail);
    }
  }

  /** Every breakout of every symbol appears in the full scan. */
  lemma {:induction false} ScanAllComplete(cm: CandleMap, winLen: nat, ps: seq<Pattern>)
    requires winLen >= 2
    requires ScanAll(cm, winLen) == Ok(ps)
    ensures forall c, x :: 0 <= c < |cm| && IsBreakout(cm[c].1, x, winLen) ==>
              exists k :: 0 <= k < |ps| && ps[k].symbol == cm[c].0 && ps[k].i == x
  {
    if cm != [] {
      var sym := cm[0].0;
      var head := ScanSymbol(sym, cm[0].1, winLen).value;
      var tail := ScanAll(cm[1..], winLen).value;
      assert ps == head + tail;
      ScanSymbolSound(sym, cm[0].1, winLen, head);
      ScanSymbolExact(sym, cm[0].1, winLen, head);
      ScanAllComplete(cm[1..], winLen, tail);
      forall c, x | 0 <= c < |cm| && IsBreakout(cm[c].1, x, winLen)
        ensures exists k :: 0 <= k < |ps| && ps[k].symbol == cm[c].0 && ps[k].i == x
      {
        if c == 0 {
          var k :| 0 <= k < |head| && head[k].i == x;
          assert ps[k] == head[k];
        } else {
          assert cm[1..][c - 1] == cm[c];
          var k :| 0 <= k < |tail| && tail[k].symbol == cm[c].0 && tail[k].i == x;
          assert ps[|head| + k] == tail[k];
        }
      }
    }
  }

  /** The full scan fails exactly when some symbol has a breakout whose
      final bar opens at 0. */
  lemma {:induction false} ScanAllFails(cm: CandleMap, winLen: nat)
    requires winLen >= 2
    ensures ScanAll(cm, winLen).Err? <==>
              exists c, x :: 0 <= c < |cm| && IsBreakout(cm[c].1, x, winLen) && cm[c].1[x + winLen - 1].open == 0.0
  {
    if cm != [] {
      ScanSymbolFails(cm[0].0, cm[0].1, winLen);
      ScanAllFails(cm[1..], winLen);
      if exists c, x :: 1 <= c < |cm| && IsBreakout(cm[c].1, x, winLen) && cm[c].1[x + winLen - 1].open == 0.0 {
        var c, x :| 1 <= c < |cm| && IsBreakout(cm[c].1, x, winLen) && cm[c].1[x + winLen - 1].open == 0.0;
        assert cm[1..][c - 1] == cm[c];
      }
      if exists c, x :: 0 <= c < |cm[1..]| && IsBreakout(cm[1..][c].1, x, winLen) && cm[1..][c].1[x + winLen - 1].open == 0.0 {
        var c, x :| 0 <= c < |cm[1..]| && IsBreakout(cm[1..][c].1, x, winLen) && cm[1..][c].1[x + winLen - 1].open == 0.0;
        assert cm[c + 1] == cm[1..][c];
      }
    }
  }
}
