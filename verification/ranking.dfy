/** Ranking of all detected patterns by strength, strongest first.

The reporter calls Python's `sorted` with the strength as key and
`reverse=True`. That sort is stable: patterns of equal strength keep the
order in which the scan discovered them. The model is an insertion sort that
inserts each earlier pattern in front of every later one of equal strength;
`RankIsTheStableSort` shows that this is the only ordering that is both
non-increasing in strength and stable, so any stable sort gives the same list.
 */
module Ranking {
  import opened Strengths
  import opened Scanner

  /** Inserts `p` in front of the first pattern that is not strictly
      stronger than it. */
  function Insert(p: Pattern, s: seq<Pattern>): seq<Pattern>
  {
    if s == [] then [p]
    else if Above(s[0].strength, p.strength) then [s[0]] + Insert(p, s[1..])
    else [p] + s
  }

  /** `sorted(ps, key=strength, reverse=True)`. */
  function Rank(ps: seq<Pattern>): seq<Pattern>
  {
    if ps == [] then [] else Insert(ps[0], Rank(ps[1..]))
  }

  /** Non-increasing in strength. */
  predicate SortedByStrength(s: seq<Pattern>)
  {
    forall a, b :: 0 <= a < b < |s| ==> AtLeast(s[a].strength, s[b].strength)
  }

  /** The patterns of strength exactly `v`, in their order in `s`. */
  function OfStrength(s: seq<Pattern>, v: Strength): seq<Pattern>
  {
    if s == [] then []
    else (if s[0].strength == v then [s[0]] else []) + OfStrength(s[1..], v)
  }

  lemma {:induction false} InsertPermutes(p: Pattern, s: seq<Pattern>)
    ensures multiset(Insert(p, s)) == multiset(s) + multiset{p}
  {
    if s != [] && Above(s[0].strength, p.strength) {
      InsertPermutes(p, s[1..]);
      assert s == [s[0]] + s[1..];
    }
  }

  lemma {:induction false} InsertSorted(p: Pattern, s: seq<Pattern>)
    requires SortedByStrength(s)
    ensures SortedByStrength(Insert(p, s))
  {
    if s != [] {
      if Above(s[0].strength, p.strength) {
        var t := s[1..];
        InsertSorted(p, t);
        InsertPermutes(p, t);
        var r := Insert(p, s);
        var it := Insert(p, t);
        assert r == [s[0]] + it;
        forall b | 1 <= b < |r|
          ensures AtLeast(s[0].strength, r[b].strength)
        {
          assert r[b] in multiset(it);
          assert r[b] in multiset(t) + multiset{p};
          if r[b] == p {
            AtLeastTotalOrder(s[0].strength, p.strength, p.strength);
          } else {
            assert r[b] in t;
          }
        }
      } else {
        var r := Insert(p, s);
        forall b | 1 <= b < |r|
          ensures AtLeast(p.strength, r[b].strength)
        {
          AtLeastTotalOrder(p.strength, s[0].strength, r[b].strength);
        }
      }
    }
  }

  lemma OfStrengthCons(x: Pattern, s: seq<Pattern>, v: Strength)
    ensures OfStrength([x] + s, v) == (if x.strength == v then [x] else []) + OfStrength(s, v)
  {
    assert ([x] + s)[1..] == s;
  }

  /** Inserting `p` leaves every strength level's order alone, except that
      `p` joins its own level at the front. */
  lemma {:induction false} InsertOfStrength(p: Pattern, s: seq<Pattern>, v: Strength)
    ensures OfStrength(Insert(p, s), v) == (if p.strength == v then [p] else []) + OfStrength(s, v)
  {
    var pv := if p.strength == v then [p] else [];
    if s == [] {
      OfStrengthCons(p, [], v);
    } else if Above(s[0].strength, p.strength) {
      var t := s[1..];
      var sv := if s[0].strength == v then [s[0]] else [];
      InsertOfStrength(p, t, v);
      OfStrengthCons(s[0], Insert(p, t), v);
      OfStrengthCons(s[0], t, v);
      assert s == [s[0]] + t;
      assert OfStrength(Insert(p, s), v) == sv + (pv + OfStrength(t, v));
      AtLeastTotalOrder(s[0].strength, p.strength, v);
      assert sv == [] || pv == [];
    } else {
      OfStrengthCons(p, s, v);
    }
  }

  /** The ranked list holds exactly the discovered patterns. */
  lemma {:induction false} RankPermutes(ps: seq<Pattern>)
    ensures multiset(Rank(ps)) == multiset(ps)
  {
    if ps != [] {
      RankPermutes(ps[1..]);
      InsertPermutes(ps[0], Rank(ps[1..]));
      assert ps == [ps[0]] + ps[1..];
    }
  }

  /** The ranked list is non-increasing in strength. */
  lemma {:induction false} RankSorted(ps: seq<Pattern>)
    ensures SortedByStrength(Rank(ps))
  {
    if ps != [] {
      RankSorted(ps[1..]);
      InsertSorted(ps[0], Rank(ps[1..]));
    }
  }

  /** Ranking is stable: the patterns of any one strength keep their
      discovery order. */
  lemma {:induction false} RankStable(ps: seq<Pattern>, v: Strength)
    ensures OfStrength(Rank(ps), v) == OfStrength(ps, v)
  {
    if ps != [] {
      RankStable(ps[1..], v);
      InsertOfStrength(ps[0], Rank(ps[1..]), v);
    }
  }

  /** Infinite strengths come first. */
  lemma RankInfiniteFirst(ps: seq<Pattern>)
    ensures forall a, b :: 0 <= a < b < |Rank(ps)| && Rank(ps)[b].strength == Infinite ==>
              Rank(ps)[a].strength == Infinite
  {
    RankSorted(ps);
  }

  lemma {:induction false} OfStrengthMembers(s: seq<Pattern>, v: Strength)
    ensures forall k :: 0 <= k < |OfStrength(s, v)| ==> OfStrength(s, v)[k] in s && OfStrength(s, v)[k].strength == v
  {
    if s != [] {
      OfStrengthMembers(s[1..], v);
      var h := if s[0].strength == v then [s[0]] else [];
      var o := OfStrength(s, v);
      assert o == h + OfStrength(s[1..], v);
      forall k | 0 <= k < |o|
        ensures o[k] in s && o[k].strength == v
      {
        if k >= |h| {
          assert o[k] == OfStrength(s[1..], v)[k - |h|];
          assert o[k] in s[1..];
        }
      }
    }
  }

  /** A non-empty list has its first pattern at the front of that
      pattern's strength level. */
  lemma OfStrengthHead(s: seq<Pattern>)
    requires s != []
    ensures OfStrength(s, s[0].strength) != [] && OfStrength(s, s[0].strength)[0] == s[0]
  {
  }

  /** A list sorted by strength and stable with respect to `ps` is `Rank(ps)`:
      the two properties pin the order down completely. */
  lemma RankIsTheStableSort(ps: seq<Pattern>, r: seq<Pattern>)
    requires SortedByStrength(r)
    requires forall v :: OfStrength(r, v) == OfStrength(ps, v)
    ensures r == Rank(ps)
  {
    RankSorted(ps);
    forall v
      ensures OfStrength(r, v) == OfStrength(Rank(ps), v)
    {
      RankStable(ps, v);
    }
    SortedStableUnique(r, Rank(ps));
  }

  /** In a sorted list every strength level present lies at or below the
      first pattern's strength. */
  lemma HeadAtLeastLevel(r: seq<Pattern>, v: Strength)
    requires SortedByStrength(r)
    requires OfStrength(r, v) != []
    ensures r != [] && AtLeast(r[0].strength, v)
  {
    OfStrengthMembers(r, v);
    var k :| 0 <= k < |r| && r[k] == OfStrength(r, v)[0];
    if k > 0 {
      assert AtLeast(r[0].strength, r[k].strength);
    } else {
      AtLeastTotalOrder(v, v, v);
    }
  }

  /** Two sorted lists whose strength levels agree start alike. */
  lemma SortedHeadsAgree(r: seq<Pattern>, t: seq<Pattern>)
    requires SortedByStrength(r) && SortedByStrength(t)
    requires r != [] && t != []
    requires forall v :: OfStrength(r, v) == OfStrength(t, v)
    ensures r[0] == t[0]
  {
    var u := r[0].strength;
    var w := t[0].strength;
    OfStrengthHead(r);
    OfStrengthHead(t);
    assert OfStrength(t, u) == OfStrength(r, u);
    assert OfStrength(r, w) == OfStrength(t, w);
    HeadAtLeastLevel(t, u);
    HeadAtLeastLevel(r, w);
    AtLeastTotalOrder(u, w, u);
  }

  /** Dropping a common first pattern keeps the strength levels equal. */
  lemma TailLevelsAgree(r: seq<Pattern>, t: seq<Pattern>, v: Strength)
    requires r != [] && t != [] && r[0] == t[0]
    requires OfStrength(r, v) == OfStrength(t, v)
    ensures OfStrength(r[1..], v) == OfStrength(t[1..], v)
  {
    var h := if r[0].strength == v then [r[0]] else [];
    assert OfStrength(r, v) == h + OfStrength(r[1..], v);
    assert OfStrength(t, v) == h + OfStrength(t[1..], v);
    assert OfStrength(r[1..], v) == OfStrength(r, v)[|h|..];
    assert OfStrength(t[1..], v) == OfStrength(t, v)[|h|..];
  }

  lemma SortedTail(r: seq<Pattern>)
    requires r != [] && SortedByStrength(r)
    ensures SortedByStrength(r[1..])
  {
    forall a, b | 0 <= a < b < |r| - 1
      ensures AtLeast(r[1..][a].strength, r[1..][b].strength)
    {
      assert r[1..][a] == r[a + 1] && r[1..][b] == r[b + 1];
    }
  }

  /** Two lists sorted by strength whose strength levels agree are equal. */
  lemma {:induction false} SortedStableUnique(r: seq<Pattern>, t: seq<Pattern>)
    requires SortedByStrength(r) && SortedByStrength(t)
    requires forall v :: OfStrength(r, v) == OfStrength(t, v)
    ensures r == t
    decreases |r| + |t|
  {
    if r == [] && t != [] {
      OfStrengthHead(t);
      assert false;
    } else if r != [] && t == [] {
      OfStrengthHead(r);
      assert false;
    } else if r != [] && t != [] {
      SortedHeadsAgree(r, t);
      forall v
        ensures OfStrength(r[1..], v) == OfStrength(t[1..], v)
      {
        TailLevelsAgree(r, t, v);
      }
      SortedTail(r);
      SortedTail(t);
      SortedStableUnique(r[1..], t[1..]);
      assert r == [r[0]] + r[1..];
      assert t == [t[0]] + t[1..];
    }
  }
}
