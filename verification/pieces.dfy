/**
 * The two list operations the game applies to its pieces: `filter` away the
 * pieces on a cell (a capture) and `map` the pieces on one cell to another
 * (a move). Both are stated by what they do to occupancy, which is what the
 * board invariant is about.
 */
module Pieces {
  import opened Rules

  /** No two pieces of `ps` share a cell. */
  predicate Distinct(ps: seq<Piece>) {
    forall i, j :: 0 <= i < j < |ps| ==> ps[i].pos != ps[j].pos
  }

  /** The pieces of `ps` that are not on `p`, in their original order. */
  function Without(ps: seq<Piece>, p: Position): (r: seq<Piece>)
    ensures forall q :: q in r <==> q in ps && q.pos != p
    ensures |r| <= |ps|
  {
    if |ps| == 0 then []
    else (if ps[0].pos == p then [] else [ps[0]]) + Without(ps[1..], p)
  }

  /** `ps` with the piece(s) on `from` moved to `to`. */
  function MoveFrom(ps: seq<Piece>, from: Position, to: Position): seq<Piece> {
    seq(|ps|, k requires 0 <= k < |ps| => if ps[k].pos == from then ps[k].(pos := to) else ps[k])
  }

  lemma DistinctCons(x: Piece, s: seq<Piece>)
    ensures Distinct([x] + s) <==> !PieceAt(x.pos, s) && Distinct(s)
  {
    var xs := [x] + s;
    if !PieceAt(x.pos, s) && Distinct(s) {
      forall i, j | 0 <= i < j < |xs|
        ensures xs[i].pos != xs[j].pos
      {
        if i == 0 {
          assert xs[j] == s[j - 1];
          assert s[j - 1] in s;
        } else {
          assert xs[i] == s[i - 1] && xs[j] == s[j - 1];
        }
      }
    }
    if Distinct(xs) {
      forall i, j | 0 <= i < j < |s|
        ensures s[i].pos != s[j].pos
      {
        assert xs[i + 1] == s[i] && xs[j + 1] == s[j];
      }
      forall q | q in s
        ensures q.pos != x.pos
      {
        var k :| 0 <= k < |s| && s[k] == q;
        assert xs[k + 1] == q && xs[0] == x;
      }
    }
  }

  /** Appending a piece keeps the cells distinct iff its cell was free. */
  lemma DistinctSnoc(s: seq<Piece>, x: Piece)
    ensures Distinct(s + [x]) <==> Distinct(s) && !PieceAt(x.pos, s)
  {
    var xs := s + [x];
    if Distinct(xs) {
      forall i, j | 0 <= i < j < |s|
        ensures s[i].pos != s[j].pos
      {
        assert xs[i] == s[i] && xs[j] == s[j];
      }
      forall q | q in s
        ensures q.pos != x.pos
      {
        var k :| 0 <= k < |s| && s[k] == q;
        assert xs[k] == q && xs[|s|] == x;
      }
    }
    if Distinct(s) && !PieceAt(x.pos, s) {
      forall i, j | 0 <= i < j < |xs|
        ensures xs[i].pos != xs[j].pos
      {
        if j == |s| {
          assert xs[i] == s[i];
          assert s[i] in s;
        } else {
          assert xs[i] == s[i] && xs[j] == s[j];
        }
      }
    }
  }

  lemma {:induction false} WithoutDistinct(ps: seq<Piece>, p: Position)
    requires Distinct(ps)
    ensures Distinct(Without(ps, p))
  {
    if |ps| > 0 {
      assert ps == [ps[0]] + ps[1..];
      DistinctCons(ps[0], ps[1..]);
      WithoutDistinct(ps[1..], p);
      if ps[0].pos != p {
        DistinctCons(ps[0], Without(ps[1..], p));
      }
    }
  }

  lemma {:induction false} WithoutAbsent(ps: seq<Piece>, p: Position)
    requires !PieceAt(p, ps)
    ensures Without(ps, p) == ps
  {
    if |ps| > 0 {
      assert ps[0] in ps;
      assert forall q :: q in ps[1..] ==> q in ps;
      WithoutAbsent(ps[1..], p);
      assert ps == [ps[0]] + ps[1..];
    }
  }

  /** Filtering a cell that holds exactly one piece removes exactly one piece. */
  lemma {:induction false} WithoutRemovesOne(ps: seq<Piece>, p: Position)
    requires Distinct(ps) && PieceAt(p, ps)
    ensures |Without(ps, p)| == |ps| - 1
  {
    assert ps == [ps[0]] + ps[1..];
    DistinctCons(ps[0], ps[1..]);
    if ps[0].pos == p {
      WithoutAbsent(ps[1..], p);
    } else {
      var q :| q in ps && q.pos == p;
      assert q in ps[1..];
      WithoutRemovesOne(ps[1..], p);
    }
  }

  /** Where the pieces are after a move onto a free cell. */
  lemma MoveFromOccupancy(ps: seq<Piece>, from: Position, to: Position, x: Position)
    requires Distinct(ps) && !PieceAt(to, ps)
    ensures PieceAt(x, MoveFrom(ps, from, to)) <==> (x != from && PieceAt(x, ps)) || (x == to && PieceAt(from, ps))
  {
    var r := MoveFrom(ps, from, to);
    if PieceAt(x, r) {
      var q :| q in r && q.pos == x;
      var k :| 0 <= k < |r| && r[k] == q;
      assert ps[k] in ps;
      if ps[k].pos == from {
        assert x == to;
      } else {
        assert x != from;
      }
    }
    if x != from && PieceAt(x, ps) {
      var q :| q in ps && q.pos == x;
      var k :| 0 <= k < |ps| && ps[k] == q;
      assert r[k] == q;
    }
    if x == to && PieceAt(from, ps) {
      var q :| q in ps && q.pos == from;
      var k :| 0 <= k < |ps| && ps[k] == q;
      assert r[k].pos == to;
      assert r[k] in r;
    }
  }

  lemma MoveFromDistinct(ps: seq<Piece>, from: Position, to: Position)
    requires Distinct(ps) && !PieceAt(to, ps)
    ensures Distinct(MoveFrom(ps, from, to))
  {
    var r := MoveFrom(ps, from, to);
    forall i, j | 0 <= i < j < |r|
      ensures r[i].pos != r[j].pos
    {
      assert ps[i] in ps && ps[j] in ps;
    }
  }

  /** Every moved piece keeps its kind, and ends on its old cell or on `to`. */
  lemma MoveFromElements(ps: seq<Piece>, from: Position, to: Position)
    ensures forall q :: q in MoveFrom(ps, from, to) ==>
              exists o :: o in ps && o.side == q.side && (q.pos == o.pos || q.pos == to)
  {
    var r := MoveFrom(ps, from, to);
    forall q | q in r
      ensures exists o :: o in ps && o.side == q.side && (q.pos == o.pos || q.pos == to)
    {
      var k :| 0 <= k < |r| && r[k] == q;
      assert ps[k] in ps;
    }
  }
}
