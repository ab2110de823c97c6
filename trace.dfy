/** `traceRoute`: following one start column down the lattice. Each rung swaps
    the two columns it joins, so a trace is a fold of adjacent transpositions. */
module Trace {
  import opened Rungs

  /** The column a token on column `c` is on after passing a rung at column `k`:
      it moves, by one column, exactly when it is on one of the two columns the
      rung joins. */
  function Swap(c: int, k: int): (r: int)
    ensures Dist(r, c) <= 1
    ensures r != c <==> c == k || c == k + 1
  {
    if c == k then k + 1 else if c == k + 1 then k else c
  }

  /** The column reached from `c` after passing the rungs in order, top to
      bottom. Each rung moves the token by at most one column. */
  function Walk(c: int, lines: seq<Line>): (r: int)
    ensures Dist(r, c) <= |lines|
    decreases |lines|
  {
    if lines == [] then c else Walk(Swap(c, lines[0].col), lines[1..])
  }

  /** The column reached from `c` climbing the lattice back up, bottom to top. */
  function Climb(c: int, lines: seq<Line>): int
    decreases |lines|
  {
    if lines == [] then c
    else Climb(Swap(c, lines[|lines| - 1].col), lines[..|lines| - 1])
  }

  /** `traceRoute(startIndex, lines)`: a `for` loop over the rungs, moving right
      from a rung's left column and left from its right column. */
  method TraceRoute(start: int, lines: seq<Line>) returns (col: int)
    ensures col == Walk(start, lines)
  {
    col := start;
    for i := 0 to |lines|
      invariant Walk(col, lines[i..]) == Walk(start, lines)
    {
      assert lines[i..] == [lines[i]] + lines[i + 1..];
      var line := lines[i];
      if line.col == col {
        col := col + 1;
      } else if line.col == col - 1 {
        col := col - 1;
      }
    }
  }

  /** Passing the same rung twice brings a token back. */
  lemma SwapInvolutive(c: int, k: int)
    ensures Swap(Swap(c, k), k) == c
  {
  }

  /** Rungs more than one column apart commute. */
  lemma SwapCommute(c: int, k1: int, k2: int)
    requires Dist(k1, k2) > 1
    ensures Swap(Swap(c, k1), k2) == Swap(Swap(c, k2), k1)
  {
  }

  /** Tracing through two stacked parts of a lattice is tracing through one and
      then the other. */
  lemma {:induction false} WalkAppend(c: int, upper: seq<Line>, lower: seq<Line>)
    ensures Walk(c, upper + lower) == Walk(Walk(c, upper), lower)
    decreases |upper|
  {
    if upper == [] {
      assert upper + lower == lower;
    } else {
      assert (upper + lower)[1..] == upper[1..] + lower;
      WalkAppend(Swap(c, upper[0].col), upper[1..], lower);
    }
  }

  /** Climbing back up from where a trace ends gives its start. */
  lemma {:induction false} ClimbUndoesWalk(c: int, lines: seq<Line>)
    ensures Climb(Walk(c, lines), lines) == c
    decreases |lines|
  {
    if lines != [] {
      var init, last := lines[..|lines| - 1], lines[|lines| - 1];
      assert lines == init + [last];
      WalkAppend(c, init, [last]);
      SwapInvolutive(Walk(c, init), last.col);
      ClimbUndoesWalk(c, init);
    }
  }

  /** Tracing down from where a climb ends gives its start. */
  lemma {:induction false} WalkUndoesClimb(c: int, lines: seq<Line>)
    ensures Walk(Climb(c, lines), lines) == c
    decreases |lines|
  {
    if lines != [] {
      var init, last := lines[..|lines| - 1], lines[|lines| - 1];
      assert lines == init + [last];
      var u := Climb(Swap(c, last.col), init);
      WalkUndoesClimb(Swap(c, last.col), init);
      WalkAppend(u, init, [last]);
      SwapInvolutive(c, last.col);
    }
  }

  /** A trace started on one of `count` columns, through rungs that join two of
      those columns, ends on one of them. */
  lemma {:induction false} WalkInRange(c: int, lines: seq<Line>, count: int)
    requires 0 <= c < count && ColsIn(lines, count)
    ensures 0 <= Walk(c, lines) < count
    decreases |lines|
  {
    if lines != [] {
      assert lines[0] in lines;
      WalkInRange(Swap(c, lines[0].col), lines[1..], count);
    }
  }

  /** The same holds for climbing. */
  lemma {:induction false} ClimbInRange(c: int, lines: seq<Line>, count: int)
    requires 0 <= c < count && ColsIn(lines, count)
    ensures 0 <= Climb(c, lines) < count
    decreases |lines|
  {
    if lines != [] {
      assert lines[|lines| - 1] in lines;
      ClimbInRange(Swap(c, lines[|lines| - 1].col), lines[..|lines| - 1], count);
    }
  }

  /** Two adjacent rungs on one row that keep the non-adjacency rule can be listed
      in either order: the trace is the same, so the tie-break of the row sort
      does not matter. */
  lemma SameRowOrderIrrelevant(c: int, upper: seq<Line>, a: Line, b: Line, lower: seq<Line>)
    requires a.row == b.row && Compatible(a, b)
    ensures Walk(c, upper + [a, b] + lower) == Walk(c, upper + [b, a] + lower)
  {
    WalkAppend(c, upper + [a, b], lower);
    WalkAppend(c, upper + [b, a], lower);
    WalkAppend(c, upper, [a, b]);
    WalkAppend(c, upper, [b, a]);
    SwapCommute(Walk(c, upper), a.col, b.col);
  }
}
