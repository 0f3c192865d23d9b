/**
 * Ranking of scored candidates as the AI does it: a stable sort by descending
 * score (JavaScript's `Array.prototype.sort` with `(a, b) => b.score - a.score`
 * is stable), then either the head of the ranking or, on the "suboptimal" roll,
 * a random index among the first few.
 *
 * `Math.random()` is modelled by a real in [0, 1) supplied by the caller.
 */
module Ranking {

  datatype Scored<T> = Scored(item: T, score: int)

  /** A value `Math.random()` can return. */
  type Random01 = r: real | 0.0 <= r < 1.0

  function Min(a: int, b: int): int {
    if a <= b then a else b
  }

  ghost predicate SortedDesc<T>(s: seq<Scored<T>>) {
    forall i, j :: 0 <= i < j < |s| ==> s[i].score >= s[j].score
  }

  /** Puts `x` in front of the first element whose score it reaches, so that
      among equal scores `x` (which came earlier in the input) stays first. */
  function Insert<T>(x: Scored<T>, s: seq<Scored<T>>): seq<Scored<T>> {
    if |s| == 0 || x.score >= s[0].score then [x] + s
    else [s[0]] + Insert(x, s[1..])
  }

  function SortByScore<T>(s: seq<Scored<T>>): seq<Scored<T>> {
    if |s| == 0 then [] else Insert(s[0], SortByScore(s[1..]))
  }

  lemma {:induction false} InsertKeepsElements<T>(x: Scored<T>, s: seq<Scored<T>>)
    ensures multiset(Insert(x, s)) == multiset(s) + multiset{x}
  {
    if |s| > 0 && x.score < s[0].score {
      InsertKeepsElements(x, s[1..]);
      assert s == [s[0]] + s[1..];
    }
  }

  lemma {:induction false} InsertKeepsOrder<T>(x: Scored<T>, s: seq<Scored<T>>)
    requires SortedDesc(s)
    ensures SortedDesc(Insert(x, s))
  {
    if |s| > 0 && x.score < s[0].score {
      InsertKeepsOrder(x, s[1..]);
      InsertKeepsElements(x, s[1..]);
      var t := Insert(x, s[1..]);
      forall k | 0 <= k < |t|
        ensures s[0].score >= t[k].score
      {
        assert t[k] in multiset(t);
        assert t[k] == x || t[k] in multiset(s[1..]);
        if t[k] != x {
          var m :| 0 <= m < |s[1..]| && s[1..][m] == t[k];
          assert s[1..][m] == s[m + 1];
        }
      }
    }
  }

  /** Sorting reorders the candidates and ranks them by descending score. */
  lemma {:induction false} SortByScoreCorrect<T>(s: seq<Scored<T>>)
    ensures multiset(SortByScore(s)) == multiset(s)
    ensures |SortByScore(s)| == |s|
    ensures SortedDesc(SortByScore(s))
  {
    if |s| > 0 {
      SortByScoreCorrect(s[1..]);
      InsertKeepsElements(s[0], SortByScore(s[1..]));
      InsertKeepsOrder(s[0], SortByScore(s[1..]));
      assert s == [s[0]] + s[1..];
    }
    assert |multiset(SortByScore(s))| == |multiset(s)|;
  }

  /** The position of the first candidate, in generation order, with the
      highest score. */
  function FirstBestIndex<T>(s: seq<Scored<T>>): (i: nat)
    requires |s| > 0
    ensures i < |s|
    ensures forall j :: 0 <= j < |s| ==> s[j].score <= s[i].score
    ensures forall j :: 0 <= j < i ==> s[j].score < s[i].score
  {
    if |s| == 1 then 0
    else
      var k := FirstBestIndex(s[1..]);
      assert s[1..][k] == s[k + 1];
      if s[0].score >= s[k + 1].score then 0 else k + 1
  }

  /** The sort keeps equal scores in input order, so the head of the ranking
      is the first best candidate, not just some best one. */
  lemma {:induction false} SortHeadIsFirstBest<T>(s: seq<Scored<T>>)
    requires |s| > 0
    ensures |SortByScore(s)| == |s|
    ensures SortByScore(s)[0] == s[FirstBestIndex(s)]
  {
    SortByScoreCorrect(s);
    if |s| > 1 {
      SortHeadIsFirstBest(s[1..]);
      var k := FirstBestIndex(s[1..]);
      assert s[1..][k] == s[k + 1];
    }
  }

  /** The index the AI takes from a ranking of `n` candidates: the head unless
      the suboptimal roll succeeded and there is more than one candidate, in
      which case `floor(r * min(n, width))`. */
  function ChoiceIndex(n: nat, suboptimal: bool, width: nat, r: Random01): (k: nat)
    requires n > 0 && width > 0
    ensures k < n
    ensures !(suboptimal && n > 1) ==> k == 0
    ensures suboptimal && n > 1 ==> k < Min(n, width)
  {
    if suboptimal && n > 1 then
      FloorOfScaledRandom(r, Min(n, width));
      (r * Min(n, width) as real).Floor
    else 0
  }

  /** `Math.floor(Math.random() * m)` lies in [0, m). */
  lemma FloorOfScaledRandom(r: Random01, m: nat)
    requires m > 0
    ensures 0 <= (r * m as real).Floor < m
  {
    var x := m as real;
    assert 0.0 <= r * x by {
      assert 0.0 <= r && 0.0 < x;
    }
    assert r * x < x by {
      assert (1.0 - r) * x > 0.0 by {
        assert 1.0 - r > 0.0 && x > 0.0;
      }
    }
  }

  /** Ranks the candidates and takes the chosen one; none when there are none. */
  function Pick<T>(candidates: seq<Scored<T>>, suboptimal: bool, width: nat, r: Random01): (c: Scored<T>)
    requires |candidates| > 0 && width > 0
    ensures c in candidates
    ensures !(suboptimal && |candidates| > 1) ==> forall d :: d in candidates ==> d.score <= c.score
    ensures !(suboptimal && |candidates| > 1) ==> c == candidates[FirstBestIndex(candidates)]
  {
    SortByScoreCorrect(candidates);
    SortHeadIsFirstBest(candidates);
    var ranked := SortByScore(candidates);
    var k := ChoiceIndex(|ranked|, suboptimal, width, r);
    assert ranked[k] in multiset(ranked);
    HeadIsBest(candidates);
    ranked[k]
  }

  /** Off the suboptimal branch the index draw plays no part: the pick is
      the head of the ranking whatever the draw. */
  lemma PickIgnoresDrawWhenOptimal<T>(candidates: seq<Scored<T>>, width: nat, r1: Random01, r2: Random01)
    requires |candidates| > 0 && width > 0
    ensures Pick(candidates, false, width, r1) == Pick(candidates, false, width, r2)
  {
    SortByScoreCorrect(candidates);
  }

  /** The head of the ranking scores at least as much as every candidate. */
  lemma HeadIsBest<T>(candidates: seq<Scored<T>>)
    requires |candidates| > 0
    ensures |SortByScore(candidates)| > 0
    ensures forall d :: d in candidates ==> d.score <= SortByScore(candidates)[0].score
  {
    SortByScoreCorrect(candidates);
    var ranked := SortByScore(candidates);
    forall d | d in candidates
      ensures d.score <= ranked[0].score
    {
      assert d in multiset(candidates);
      assert d in multiset(ranked);
      var m :| 0 <= m < |ranked| && ranked[m] == d;
    }
  }

  /** On the suboptimal branch the choice is one of the first `width` entries
      of the ranking. */
  lemma PickFromTop<T>(candidates: seq<Scored<T>>, width: nat, r: Random01)
    requires |candidates| > 1 && width > 0
    ensures |SortByScore(candidates)| == |candidates|
    ensures exists k :: 0 <= k < Min(|candidates|, width)
                        && SortByScore(candidates)[k] == Pick(candidates, true, width, r)
  {
    SortByScoreCorrect(candidates);
    var k := ChoiceIndex(|candidates|, true, width, r);
    assert SortByScore(candidates)[k] == Pick(candidates, true, width, r);
  }
}
