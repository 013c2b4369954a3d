/** The report: the whole run from provider lists to the patterns that are
    charted and sent, and the chart slice handed to the renderer.

The run normalises every symbol's provider list, scans all symbols with the
window length 48, ranks the patterns, and walks the ranked list keeping the
"current" patterns, those whose final bar is the last bar of their symbol.
For each current pattern the chart shows the candles `[i, min(j + winLen, n))`
with the bar at offset `j - i` highlighted.
 */
module Reporting {
  import opened Bars
  import opened Strengths
  import opened Scanner
  import opened Ranking

  /** The window length the run uses: 24 * 2 half-hour bars. */
  const WindowLength: nat := 24 * 2

  /** The provider's answer for every symbol, in dictionary order. */
  type RawMap = seq<(Symbol, seq<RawKline>)>

  predicate DistinctRawSymbols(raw: RawMap)
  {
    forall a, b :: 0 <= a < b < |raw| ==> raw[a].0 != raw[b].0
  }

  /** Every symbol's list normalised; keys and their order are kept. */
  function NormalizeAll(raw: RawMap): (cm: CandleMap)
    ensures |cm| == |raw|
    ensures forall k :: 0 <= k < |raw| ==> cm[k] == (raw[k].0, Normalize(raw[k].1))
    ensures DistinctRawSymbols(raw) ==> DistinctSymbols(cm)
  {
    if raw == [] then [] else [(raw[0].0, Normalize(raw[0].1))] + NormalizeAll(raw[1..])
  }

  /** Every pattern names a symbol of the map. */
  predicate AllKnown(ps: seq<Pattern>, cm: CandleMap)
  {
    forall k :: 0 <= k < |ps| ==> HasSymbol(cm, ps[k].symbol)
  }

  /** The pattern's final bar is the most recent bar of its symbol. */
  predicate IsCurrent(p: Pattern, cm: CandleMap)
    requires HasSymbol(cm, p.symbol)
  {
    p.j == |Lookup(cm, p.symbol)| - 1
  }

  /** The elements of `ps` whose flag is set, in their order in `ps`. */
  function Select<T>(ps: seq<T>, keep: seq<bool>): seq<T>
    requires |keep| == |ps|
  {
    if ps == [] then []
    else (if keep[0] then [ps[0]] else []) + Select(ps[1..], keep[1..])
  }

  /** The positions whose flag is set, in increasing order, counted from
      `off`. */
  ghost function Positions(keep: seq<bool>, off: nat): seq<nat>
  {
    if keep == [] then []
    else (if keep[0] then [off] else []) + Positions(keep[1..], off + 1)
  }

  /** The `k`-th selected element is the one at the `k`-th set position. */
  lemma {:induction false} SelectAtPositions<T>(ps: seq<T>, keep: seq<bool>, off: nat)
    requires |keep| == |ps|
    ensures |Positions(keep, off)| == |Select(ps, keep)|
    ensures forall k :: 0 <= k < |Select(ps, keep)| ==>
              off <= Positions(keep, off)[k] < off + |ps|
              && Select(ps, keep)[k] == ps[Positions(keep, off)[k] - off]
  {
    if ps != [] {
      var t := ps[1..];
      SelectAtPositions(t, keep[1..], off + 1);
      var rt := Select(t, keep[1..]);
      var pt := Positions(keep[1..], off + 1);
      var r := Select(ps, keep);
      var pos := Positions(keep, off);
      if keep[0] {
        assert r == [ps[0]] + rt;
        assert pos == [off] + pt;
        forall k | 1 <= k < |r|
          ensures off <= pos[k] < off + |ps| && r[k] == ps[pos[k] - off]
        {
          assert r[k] == rt[k - 1] && pos[k] == pt[k - 1];
          assert t[pt[k - 1] - (off + 1)] == ps[pt[k - 1] - off];
        }
      } else {
        assert r == rt;
        assert pos == pt;
        forall k | 0 <= k < |r|
          ensures off <= pos[k] < off + |ps| && r[k] == ps[pos[k] - off]
        {
          assert t[pt[k] - (off + 1)] == ps[pt[k] - off];
        }
      }
    }
  }

  /** The set positions strictly increase: selection keeps the order. */
  lemma {:induction false} PositionsIncrease(keep: seq<bool>, off: nat)
    ensures forall k :: 0 <= k < |Positions(keep, off)| ==> off <= Positions(keep, off)[k]
    ensures forall a, b :: 0 <= a < b < |Positions(keep, off)| ==> Positions(keep, off)[a] < Positions(keep, off)[b]
  {
    if keep != [] {
      PositionsIncrease(keep[1..], off + 1);
      var pt := Positions(keep[1..], off + 1);
      var pos := Positions(keep, off);
      var n := if keep[0] then 1 else 0;
      assert pos == (if keep[0] then [off] else []) + pt;
      forall k | n <= k < |pos|
        ensures pos[k] == pt[k - n]
      {
      }
    }
  }

  /** A position is recorded exactly when its flag is set. */
  lemma {:induction false} PositionsExact(keep: seq<bool>, off: nat)
    ensures forall x :: x in Positions(keep, off) <==> off <= x < off + |keep| && keep[x - off]
  {
    if keep != [] {
      var t := keep[1..];
      PositionsExact(t, off + 1);
      var pt := Positions(t, off + 1);
      var hp: seq<nat> := if keep[0] then [off] else [];
      var pos := Positions(keep, off);
      assert pos == hp + pt;
      forall x
        ensures x in pos <==> off <= x < off + |keep| && keep[x - off]
      {
        assert x in pos <==> x in hp || x in pt;
        if x > off && x < off + |keep| {
          assert keep[x - off] == t[x - (off + 1)];
        }
      }
    }
  }

  /** Whether each pattern of `ps` is current. */
  function CurrentFlags(ps: seq<Pattern>, cm: CandleMap): (keep: seq<bool>)
    requires AllKnown(ps, cm)
    ensures |keep| == |ps|
  {
    seq(|ps|, k requires 0 <= k < |ps| => IsCurrent(ps[k], cm))
  }

  /** The ranked patterns the notification loop acts on, in ranked order. */
  function Current(ps: seq<Pattern>, cm: CandleMap): seq<Pattern>
    requires AllKnown(ps, cm)
  {
    Select(ps, CurrentFlags(ps, cm))
  }

  /** The current filter keeps exactly the current patterns. */
  lemma CurrentExactly(ps: seq<Pattern>, cm: CandleMap)
    requires AllKnown(ps, cm)
    ensures forall k :: 0 <= k < |Current(ps, cm)| ==>
              Current(ps, cm)[k] in ps && HasSymbol(cm, Current(ps, cm)[k].symbol) && IsCurrent(Current(ps, cm)[k], cm)
    ensures forall x :: 0 <= x < |ps| && IsCurrent(ps[x], cm) ==> ps[x] in Current(ps, cm)
  {
    var keep := CurrentFlags(ps, cm);
    SelectAtPositions(ps, keep, 0);
    PositionsExact(keep, 0);
    var r := Current(ps, cm);
    var pos := Positions(keep, 0);
    forall k | 0 <= k < |r|
      ensures r[k] in ps && HasSymbol(cm, r[k].symbol) && IsCurrent(r[k], cm)
    {
      assert pos[k] in pos;
      assert r[k] == ps[pos[k]];
      assert keep[pos[k]];
    }
    forall x | 0 <= x < |ps| && IsCurrent(ps[x], cm)
      ensures ps[x] in r
    {
      assert keep[x - 0];
      assert x in pos;
      var k :| 0 <= k < |pos| && pos[k] == x;
      assert r[k] == ps[x];
    }
  }

  /** Filtering a ranked list keeps it ranked. */
  lemma CurrentSorted(ps: seq<Pattern>, cm: CandleMap)
    requires AllKnown(ps, cm)
    requires SortedByStrength(ps)
    ensures SortedByStrength(Current(ps, cm))
  {
    var keep := CurrentFlags(ps, cm);
    SelectAtPositions(ps, keep, 0);
    PositionsIncrease(keep, 0);
    var r := Current(ps, cm);
    var pos := Positions(keep, 0);
    forall a, b | 0 <= a < b < |r|
      ensures AtLeast(r[a].strength, r[b].strength)
    {
      assert ps[pos[a]] == r[a] && ps[pos[b]] == r[b];
    }
  }

  /** With no (symbol, final bar) pair repeated, each symbol has at most one
      current pattern: its final bar is fixed by the symbol's length. */
  lemma CurrentOnePerSymbol(ps: seq<Pattern>, cm: CandleMap)
    requires AllKnown(ps, cm)
    requires UniqueFinalBars(ps)
    ensures forall a, b :: 0 <= a < b < |Current(ps, cm)| ==> Current(ps, cm)[a].symbol != Current(ps, cm)[b].symbol
  {
    var keep := CurrentFlags(ps, cm);
    SelectAtPositions(ps, keep, 0);
    PositionsIncrease(keep, 0);
    PositionsExact(keep, 0);
    var r := Current(ps, cm);
    var pos := Positions(keep, 0);
    forall a, b | 0 <= a < b < |r|
      ensures r[a].symbol != r[b].symbol
    {
      assert pos[a] in pos && pos[b] in pos;
      assert keep[pos[a]] && keep[pos[b]];
      assert ps[pos[a]] == r[a] && ps[pos[b]] == r[b];
    }
  }

  /** The chart slice `[left, right)` and the highlighted offset in it. */
  datatype ChartSlice = ChartSlice(left: int, right: int, highlight: int)

  /** `plot_pattern`'s index arithmetic for a symbol of `n` bars. */
  function DisplaySlice(p: Pattern, n: nat, winLen: nat): ChartSlice
  {
    var right := if p.j + winLen < n then p.j + winLen else n;
    ChartSlice(p.i, right, p.j - p.i)
  }

  /** For a recorded pattern the slice is a non-empty part of the candles,
      the highlight is the last bar of the window at offset `winLen - 1`, and
      the slice shows that bar plus up to `winLen` later ones. */
  lemma DisplaySliceInside(p: Pattern, sym: Symbol, ls: seq<Bar>, winLen: nat)
    requires winLen >= 2
    requires Describes(p, sym, ls, winLen)
    ensures var s := DisplaySlice(p, |ls|, winLen);
            && 0 <= s.left == p.i < s.right <= |ls|
            && s.highlight == winLen - 1
            && 0 <= s.highlight < s.right - s.left
            && ls[s.left..s.right][s.highlight] == ls[p.j]
            && s.right - s.left == (if |ls| - p.i < 2 * winLen - 1 then |ls| - p.i else 2 * winLen - 1)
  {
  }

  /** A current pattern's chart ends at the symbol's latest candle and
      shows exactly one window, with the final bar highlighted last. */
  lemma CurrentChart(p: Pattern, sym: Symbol, ls: seq<Bar>, winLen: nat)
    requires winLen >= 2
    requires Describes(p, sym, ls, winLen)
    requires p.j == |ls| - 1
    ensures var s := DisplaySlice(p, |ls|, winLen);
            && s.right == |ls|
            && s.right - s.left == winLen
            && s.highlight == s.right - s.left - 1
  {
  }

  /** What the run produces: all patterns ranked, and the current ones. */
  datatype Report = Report(ranked: seq<Pattern>, current: seq<Pattern>)

  /** The whole run over the provider's data. */
  function Run(raw: RawMap, winLen: nat): Result<Report>
    requires winLen >= 2
    requires DistinctRawSymbols(raw)
  {
    var cm := NormalizeAll(raw);
    match ScanAll(cm, winLen)
    case Err(e) => Err(e)
    case Ok(found) =>
      ScanAllSound(cm, winLen, found);
      var ranked := Rank(found);
      RankPermutes(found);
      PermutationKnown(found, ranked, cm);
      Ok(Report(ranked, Current(ranked, cm)))
  }

  /** Reordering keeps every symbol known. */
  lemma PermutationKnown(s: seq<Pattern>, t: seq<Pattern>, cm: CandleMap)
    requires multiset(s) == multiset(t)
    requires AllKnown(s, cm)
    ensures AllKnown(t, cm)
  {
    forall k | 0 <= k < |t|
      ensures HasSymbol(cm, t[k].symbol)
    {
      assert t[k] in multiset(s);
      var m :| 0 <= m < |s| && s[m] == t[k];
    }
  }

  /** Reordering keeps (symbol, final bar) pairs unique. */
  lemma PermutationUnique(s: seq<Pattern>, t: seq<Pattern>)
    requires multiset(s) == multiset(t)
    requires UniqueFinalBars(s)
    ensures UniqueFinalBars(t)
  {
    forall a, b | 0 <= a < b < |t|
      ensures t[a].symbol != t[b].symbol || t[a].j != t[b].j
    {
      assert t[a] in multiset(s) && t[b] in multiset(s);
      var x :| 0 <= x < |s| && s[x] == t[a];
      var y :| 0 <= y < |s| && s[y] == t[b];
      if x == y {
        MultisetCountTwo(t, a, b);
        UniqueOccursOnce(s, s[x]);
        assert false;
      }
    }
  }

  /** The run either fails in the scan, or it ranks what the scan found and
      filters the ranked list. */
  lemma RunSteps(raw: RawMap, winLen: nat, rep: Report)
    requires winLen >= 2
    requires DistinctRawSymbols(raw)
    requires Run(raw, winLen) == Ok(rep)
    ensures ScanAll(NormalizeAll(raw), winLen).Ok?
    ensures AllKnown(ScanAll(NormalizeAll(raw), winLen).value, NormalizeAll(raw))
    ensures UniqueFinalBars(ScanAll(NormalizeAll(raw), winLen).value)
    ensures rep.ranked == Rank(ScanAll(NormalizeAll(raw), winLen).value)
    ensures AllKnown(rep.ranked, NormalizeAll(raw))
    ensures rep.current == Current(rep.ranked, NormalizeAll(raw))
  {
    var cm := NormalizeAll(raw);
    var found := ScanAll(cm, winLen).value;
    ScanAllSound(cm, winLen, found);
    RankPermutes(found);
    PermutationKnown(found, Rank(found), cm);
  }

  /** The ranked list holds exactly the patterns found, strongest first,
      equal strengths in discovery order. */
  lemma RunRanked(raw: RawMap, winLen: nat, rep: Report)
    requires winLen >= 2
    requires DistinctRawSymbols(raw)
    requires Run(raw, winLen) == Ok(rep)
    ensures ScanAll(NormalizeAll(raw), winLen).Ok?
    ensures multiset(rep.ranked) == multiset(ScanAll(NormalizeAll(raw), winLen).value)
    ensures SortedByStrength(rep.ranked)
    ensures forall v :: OfStrength(rep.ranked, v) == OfStrength(ScanAll(NormalizeAll(raw), winLen).value, v)
  {
    RunSteps(raw, winLen, rep);
    var found := ScanAll(NormalizeAll(raw), winLen).value;
    RankPermutes(found);
    RankSorted(found);
    forall v
      ensures OfStrength(rep.ranked, v) == OfStrength(found, v)
    {
      RankStable(found, v);
    }
  }

  /** Every pattern is a breakout of the symbol it names. */
  ghost predicate AllDescribed(ps: seq<Pattern>, cm: CandleMap, winLen: nat)
  {
    forall k :: 0 <= k < |ps| ==>
      HasSymbol(cm, ps[k].symbol) && Describes(ps[k], ps[k].symbol, Lookup(cm, ps[k].symbol), winLen)
  }

  /** Reordering keeps every pattern described. */
  lemma PermutationDescribed(s: seq<Pattern>, t: seq<Pattern>, cm: CandleMap, winLen: nat)
    requires multiset(s) == multiset(t)
    requires AllDescribed(s, cm, winLen)
    ensures AllDescribed(t, cm, winLen)
  {
    forall k | 0 <= k < |t|
      ensures HasSymbol(cm, t[k].symbol) && Describes(t[k], t[k].symbol, Lookup(cm, t[k].symbol), winLen)
    {
      assert t[k] in multiset(s);
      var m :| 0 <= m < |s| && s[m] == t[k];
    }
  }

  /** Filtering described patterns keeps exactly described, current ones. */
  lemma CurrentDescribed(ps: seq<Pattern>, cm: CandleMap, winLen: nat)
    requires AllKnown(ps, cm)
    requires AllDescribed(ps, cm, winLen)
    ensures AllDescribed(Current(ps, cm), cm, winLen)
    ensures forall k :: 0 <= k < |Current(ps, cm)| ==>
              HasSymbol(cm, Current(ps, cm)[k].symbol) && IsCurrent(Current(ps, cm)[k], cm)
  {
    CurrentExactly(ps, cm);
    var r := Current(ps, cm);
    forall k | 0 <= k < |r|
      ensures HasSymbol(cm, r[k].symbol) && Describes(r[k], r[k].symbol, Lookup(cm, r[k].symbol), winLen)
    {
      var y :| 0 <= y < |ps| && ps[y] == r[k];
    }
  }

  /** Every reported pattern is a breakout of its own symbol whose final bar
      is that symbol's most recent bar. */
  lemma RunCurrentSound(raw: RawMap, winLen: nat, rep: Report)
    requires winLen >= 2
    requires DistinctRawSymbols(raw)
    requires Run(raw, winLen) == Ok(rep)
    ensures forall k :: 0 <= k < |rep.current| ==>
              && HasSymbol(NormalizeAll(raw), rep.current[k].symbol)
              && Describes(rep.current[k], rep.current[k].symbol, Lookup(NormalizeAll(raw), rep.current[k].symbol), winLen)
              && rep.current[k].j == |Lookup(NormalizeAll(raw), rep.current[k].symbol)| - 1
  {
    var cm := NormalizeAll(raw);
    RunSteps(raw, winLen, rep);
    var found := ScanAll(cm, winLen).value;
    ScanAllSound(cm, winLen, found);
    assert AllDescribed(found, cm, winLen);
    RankPermutes(found);
    PermutationDescribed(found, rep.ranked, cm, winLen);
    CurrentDescribed(rep.ranked, cm, winLen);
  }

  /** With the reporter's window of 48 bars, every chart sent shows the 48
      candles ending at the symbol's latest one, the last highlighted. */
  lemma RunCharts(raw: RawMap, rep: Report)
    requires DistinctRawSymbols(raw)
    requires Run(raw, WindowLength) == Ok(rep)
    ensures forall k :: 0 <= k < |rep.current| ==>
              && HasSymbol(NormalizeAll(raw), rep.current[k].symbol)
              && var n := |Lookup(NormalizeAll(raw), rep.current[k].symbol)|;
                 var s := DisplaySlice(rep.current[k], n, WindowLength);
                 s.left == n - 48 && s.right == n && s.highlight == 47
  {
    var cm := NormalizeAll(raw);
    RunCurrentSound(raw, WindowLength, rep);
    forall k | 0 <= k < |rep.current|
      ensures var n := |Lookup(cm, rep.current[k].symbol)|;
              var s := DisplaySlice(rep.current[k], n, WindowLength);
              s.left == n - 48 && s.right == n && s.highlight == 47
    {
      var p := rep.current[k];
      CurrentChart(p, p.symbol, Lookup(cm, p.symbol), WindowLength);
    }
  }

  /** The report is strongest first and names each symbol at most once. */
  lemma RunCurrentOrder(raw: RawMap, winLen: nat, rep: Report)
    requires winLen >= 2
    requires DistinctRawSymbols(raw)
    requires Run(raw, winLen) == Ok(rep)
    ensures SortedByStrength(rep.current)
    ensures forall a, b :: 0 <= a < b < |rep.current| ==> rep.current[a].symbol != rep.current[b].symbol
  {
    var cm := NormalizeAll(raw);
    RunSteps(raw, winLen, rep);
    var found := ScanAll(cm, winLen).value;
    RankPermutes(found);
    RankSorted(found);
    PermutationUnique(found, rep.ranked);
    CurrentSorted(rep.ranked, cm);
    CurrentOnePerSymbol(rep.ranked, cm);
  }

  /** Ranking and filtering the full scan keeps a pattern for every symbol
      whose most recent candle completes a breakout. */
  lemma LatestBreakoutsReported(cm: CandleMap, winLen: nat, found: seq<Pattern>, ranked: seq<Pattern>)
    requires winLen >= 2
    requires DistinctSymbols(cm)
    requires ScanAll(cm, winLen) == Ok(found)
    requires multiset(ranked) == multiset(found)
    requires AllKnown(ranked, cm)
    ensures forall c :: 0 <= c < |cm| && IsBreakout(cm[c].1, |cm[c].1| - winLen, winLen) ==>
              exists k :: 0 <= k < |Current(ranked, cm)| && Current(ranked, cm)[k].symbol == cm[c].0
  {
    ScanAllComplete(cm, winLen, found);
    ScanAllSound(cm, winLen, found);
    CurrentExactly(ranked, cm);
    forall c | 0 <= c < |cm| && IsBreakout(cm[c].1, |cm[c].1| - winLen, winLen)
      ensures exists k :: 0 <= k < |Current(ranked, cm)| && Current(ranked, cm)[k].symbol == cm[c].0
    {
      var m :| 0 <= m < |found| && found[m].symbol == cm[c].0 && found[m].i == |cm[c].1| - winLen;
      LookupFindsEntry(cm, c);
      var p := found[m];
      assert p in multiset(ranked);
      var y :| 0 <= y < |ranked| && ranked[y] == p;
      assert IsCurrent(ranked[y], cm);
      assert p in Current(ranked, cm);
    }
  }

  /** Every symbol whose most recent bar completes a breakout is reported. */
  lemma RunCurrentComplete(raw: RawMap, winLen: nat, rep: Report)
    requires winLen >= 2
    requires DistinctRawSymbols(raw)
    requires Run(raw, winLen) == Ok(rep)
    ensures forall c :: 0 <= c < |raw| && IsBreakout(NormalizeAll(raw)[c].1, |raw[c].1| - winLen, winLen) ==>
              exists k :: 0 <= k < |rep.current| && rep.current[k].symbol == raw[c].0
  {
    var cm := NormalizeAll(raw);
    RunSteps(raw, winLen, rep);
    var found := ScanAll(cm, winLen).value;
    RankPermutes(found);
    LatestBreakoutsReported(cm, winLen, found, rep.ranked);
  }

  /** A pattern at two distinct positions of a list occurs there at least
      twice. */
  lemma MultisetCountTwo(s: seq<Pattern>, a: nat, b: nat)
    requires a < b < |s| && s[a] == s[b]
    ensures multiset(s)[s[a]] >= 2
  {
    assert s == s[..a] + [s[a]] + s[a + 1..b] + [s[b]] + s[b + 1..];
  }

  /** Under unique (symbol, final bar) pairs no pattern occurs twice. */
  lemma {:induction false} UniqueOccursOnce(s: seq<Pattern>, p: Pattern)
    requires UniqueFinalBars(s)
    ensures multiset(s)[p] <= 1
  {
    if s != [] {
      var t := s[1..];
      assert s == [s[0]] + t;
      assert UniqueFinalBars(t) by {
        forall a, b | 0 <= a < b < |t|
          ensures t[a].symbol != t[b].symbol || t[a].j != t[b].j
        {
          assert t[a] == s[a + 1] && t[b] == s[b + 1];
        }
      }
      UniqueOccursOnce(t, p);
      if s[0] == p {
        assert p !in t;
      }
    }
  }
}
