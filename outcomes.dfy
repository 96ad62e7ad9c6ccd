/** The three outcomes of a football match and the triples (odds or probabilities) indexed
    by them, shared by the predictor and the ticket generator. */
module Outcomes {
  import opened Collections

  /** `'1'` (home win), `'X'` (draw) and `'2'` (away win). */
  datatype Outcome = Home | Draw | Away

  /** The outcome's code on a Totó or Tippmix slip. */
  function Code(o: Outcome): (s: string)
    ensures |s| == 1
  {
    match o
    case Home => "1"
    case Draw => "X"
    case Away => "2"
  }

  lemma CodeInjective(o: Outcome, o': Outcome)
    requires Code(o) == Code(o')
    ensures o == o'
  {
    assert Code(o)[0] == Code(o')[0];
  }

  /** A `{ home, draw, away }` record of numbers. */
  datatype Triple = Triple(home: real, draw: real, away: real)

  function Get(t: Triple, o: Outcome): real {
    match o
    case Home => t.home
    case Draw => t.draw
    case Away => t.away
  }

  function Sum(t: Triple): real {
    t.home + t.draw + t.away
  }

  predicate InUnit(t: Triple) {
    0.0 <= t.home <= 1.0 && 0.0 <= t.draw <= 1.0 && 0.0 <= t.away <= 1.0
  }

  /** The position of an outcome in the order 1, X, 2. */
  function Rank(o: Outcome): nat {
    match o
    case Home => 0
    case Draw => 1
    case Away => 2
  }

  /** `[{1, home}, {X, draw}, {2, away}].sort((a, b) => b.prob - a.prob)`, as outcomes. */
  function Ranked(p: Triple): (r: seq<Outcome>)
    ensures |r| == 3
  {
    SortDesc([Home, Draw, Away], o => Get(p, o))
  }

  /** The same order written out by cases: most probable first, ties in the order 1, X, 2. */
  function RankedByCases(p: Triple): seq<Outcome> {
    if p.home >= p.draw && p.home >= p.away then
      (if p.draw >= p.away then [Home, Draw, Away] else [Home, Away, Draw])
    else if p.draw >= p.away then
      (if p.home >= p.away then [Draw, Home, Away] else [Draw, Away, Home])
    else
      (if p.home >= p.draw then [Away, Home, Draw] else [Away, Draw, Home])
  }

  lemma InsertIntoOne<T>(x: T, a: T, key: T -> real)
    ensures Insert(x, [a], key) == (if key(x) > key(a) then [x, a] else [a, x])
  {
    assert [a][1..] == [];
    assert Insert(x, [], key) == [x];
    if key(x) <= key(a) {
      assert Insert(x, [a], key) == [a] + Insert(x, [a][1..], key);
    }
  }

  lemma InsertIntoTwo<T>(x: T, a: T, b: T, key: T -> real)
    ensures Insert(x, [a, b], key) ==
      if key(x) > key(a) then [x, a, b] else if key(x) > key(b) then [a, x, b] else [a, b, x]
  {
    assert [a, b][1..] == [b];
    InsertIntoOne(x, b, key);
    if key(x) <= key(a) {
      assert Insert(x, [a, b], key) == [a] + Insert(x, [b], key);
    }
  }

  /** The stable sort of a three-element list is three insertions. */
  lemma SortDescThree<T>(a: T, b: T, c: T, key: T -> real)
    ensures SortDesc([a, b, c], key) ==
      var t := if key(b) > key(a) then [b, a] else [a, b];
      if key(c) > key(t[0]) then [c] + t
      else if key(c) > key(t[1]) then [t[0], c, t[1]]
      else t + [c]
  {
    assert [a, b, c][..2] == [a, b];
    assert [a, b][..1] == [a];
    assert [a][..0] == [];
    assert SortDesc([a], key) == [a];
    InsertIntoOne(b, a, key);
    var t := Insert(b, [a], key);
    assert SortDesc([a, b], key) == t;
    assert t == [t[0], t[1]];
    InsertIntoTwo(c, t[0], t[1], key);
  }

  lemma RankedIsByCases(p: Triple)
    ensures Ranked(p) == RankedByCases(p)
  {
    SortDescThree(Home, Draw, Away, o => Get(p, o));
  }

  /** The ranking is a permutation of the three outcomes, non-increasing in probability,
      and outcomes of equal probability keep the order 1, X, 2. */
  lemma RankedOrder(p: Triple)
    ensures |Ranked(p)| == 3
    ensures forall o :: o in Ranked(p)
    ensures Get(p, Ranked(p)[0]) >= Get(p, Ranked(p)[1]) >= Get(p, Ranked(p)[2])
    ensures Get(p, Ranked(p)[0]) == Get(p, Ranked(p)[1]) ==> Rank(Ranked(p)[0]) < Rank(Ranked(p)[1])
    ensures Get(p, Ranked(p)[1]) == Get(p, Ranked(p)[2]) ==> Rank(Ranked(p)[1]) < Rank(Ranked(p)[2])
  {
    RankedIsByCases(p);
    var r := Ranked(p);
    if p.home >= p.draw && p.home >= p.away {
      assert r == [Home, Draw, Away] || r == [Home, Away, Draw];
    } else if p.draw >= p.away {
      assert r == [Draw, Home, Away] || r == [Draw, Away, Home];
    } else {
      assert r == [Away, Home, Draw] || r == [Away, Draw, Home];
    }
    assert Home in r && Draw in r && Away in r;
    forall o ensures o in r {
      match o
      case Home =>
      case Draw =>
      case Away =>
    }
  }

  /** The two most probable outcomes (`slice(0, 2)` of the ranking). */
  function TopTwo(p: Triple): (r: seq<Outcome>)
    ensures |r| == 2 && r[0] != r[1]
    ensures forall o :: Get(p, o) <= Get(p, r[0])
    ensures forall o :: o != r[0] && o != r[1] ==> Get(p, o) <= Get(p, r[1])
  {
    RankedIsByCases(p);
    Ranked(p)[..2]
  }

  /** `[a, b, c].sort((x, y) => y - x)` on numbers. */
  function SortedValues(p: Triple): seq<real> {
    SortDesc([p.home, p.draw, p.away], x => x)
  }

  /** `sorted[0] - sorted[1]`: how far the most probable outcome is ahead of the second. */
  function Margin(p: Triple): (m: real)
    ensures m >= 0.0
    ensures m == Get(p, TopTwo(p)[0]) - Get(p, TopTwo(p)[1])
  {
    MarginByCases(p);
    SortedValues(p)[0] - SortedValues(p)[1]
  }

  lemma MarginByCases(p: Triple)
    ensures |SortedValues(p)| == 3
    ensures SortedValues(p)[0] - SortedValues(p)[1] == Get(p, TopTwo(p)[0]) - Get(p, TopTwo(p)[1])
  {
    RankedIsByCases(p);
    SortDescThree(p.home, p.draw, p.away, x => x);
  }

  /** For probabilities in [0, 1] the margin is in [0, 1]. */
  lemma MarginInUnit(p: Triple)
    ensures InUnit(p) ==> 0.0 <= Margin(p) <= 1.0
  {
    RankedIsByCases(p);
  }
}
