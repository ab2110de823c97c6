/** Rungs (`AmidaLine`) and the non-adjacency rule that a lattice must keep. */
module Rungs {

  /** A rung at height `row` joining column `col` to column `col + 1`. */
  datatype Line = Line(row: int, col: int)

  /** `Math.abs(a - b)`. */
  function Dist(a: int, b: int): nat {
    if a <= b then b - a else a - b
  }

  /** Two rungs may stand in one lattice: they are on different rows, or more than
      one column apart (so they share no vertical line at that height). A rung is
      never compatible with itself. */
  predicate Compatible(a: Line, b: Line) {
    a.row != b.row || Dist(a.col, b.col) > 1
  }

  /** `isValidLine`: no existing rung on the same row within column distance 1.
      Written as the source's `!lines.some(...)`, scanning from the front. */
  function IsValidLine(lines: seq<Line>, row: int, col: int): (ok: bool)
    ensures ok <==> forall l :: l in lines ==> Compatible(l, Line(row, col))
  {
    if lines == [] then true
    else
      var clash := lines[0].row == row && Dist(lines[0].col, col) <= 1;
      assert clash <==> !Compatible(lines[0], Line(row, col));
      assert forall l :: l in lines <==> l == lines[0] || l in lines[1..];
      !clash && IsValidLine(lines[1..], row, col)
  }

  /** The lattice invariant: no two rungs share a row with column distance <= 1. */
  predicate NonAdjacent(lines: seq<Line>) {
    forall i, j :: 0 <= i < j < |lines| ==> Compatible(lines[i], lines[j])
  }

  /** Every rung joins two of the `count` columns: `0 <= col <= count - 2`. */
  predicate ColsIn(lines: seq<Line>, count: int) {
    forall l :: l in lines ==> 0 <= l.col <= count - 2
  }

  /** Every rung lies on one of the `3 * count` rows. */
  predicate RowsIn(lines: seq<Line>, count: int) {
    forall l :: l in lines ==> 0 <= l.row < 3 * count
  }

  /** Appending a rung keeps the invariant exactly when the rung is compatible
      with every rung already present. */
  lemma {:induction false} NonAdjacentAppend(lines: seq<Line>, x: Line)
    ensures NonAdjacent(lines + [x]) <==>
            NonAdjacent(lines) && forall l :: l in lines ==> Compatible(l, x)
  {
    var s := lines + [x];
    if NonAdjacent(s) {
      forall l | l in lines ensures Compatible(l, x) {
        var i :| 0 <= i < |lines| && lines[i] == l;
        assert s[i] == l && s[|lines|] == x;
      }
      forall i, j | 0 <= i < j < |lines| ensures Compatible(lines[i], lines[j]) {
        assert s[i] == lines[i] && s[j] == lines[j];
      }
    }
    if NonAdjacent(lines) && forall l :: l in lines ==> Compatible(l, x) {
      forall i, j | 0 <= i < j < |s| ensures Compatible(s[i], s[j]) {
        if j < |lines| {
          assert s[i] == lines[i] && s[j] == lines[j];
        } else {
          assert s[i] == lines[i] && lines[i] in lines;
        }
      }
    }
  }
}
