/** `lines.sort((a, b) => a.row - b.row)`: ordering a lattice by row.
    The comparator looks at rows only; the model is a stable insertion sort, so
    rungs on one row keep the order in which they were drawn. */
module RowSort {
  import opened Rungs

  /** Rows never decrease from the top of the lattice to the bottom. */
  predicate SortedByRow(lines: seq<Line>) {
    forall i, j :: 0 <= i < j < |lines| ==> lines[i].row <= lines[j].row
  }

  /** Inserts `x` after every rung whose row is at most `x.row`. */
  function Insert(x: Line, lines: seq<Line>): (r: seq<Line>)
    ensures multiset(r) == multiset(lines) + multiset{x}
  {
    if lines == [] || lines[|lines| - 1].row <= x.row then
      lines + [x]
    else
      var init, last := lines[..|lines| - 1], lines[|lines| - 1];
      assert lines == init + [last];
      Insert(x, init) + [last]
  }

  /** Inserting into a row-ordered lattice keeps it row-ordered. */
  lemma {:induction false} InsertKeepsSorted(x: Line, lines: seq<Line>)
    requires SortedByRow(lines)
    ensures SortedByRow(Insert(x, lines))
  {
    if lines == [] || lines[|lines| - 1].row <= x.row {
      var r := lines + [x];
      forall i, j | 0 <= i < j < |r| ensures r[i].row <= r[j].row {
        if j < |lines| {
          assert r[i] == lines[i] && r[j] == lines[j];
        } else if i < |lines| - 1 {
          assert lines[i].row <= lines[|lines| - 1].row;
        }
      }
    } else {
      var init, last := lines[..|lines| - 1], lines[|lines| - 1];
      assert SortedByRow(init);
      InsertKeepsSorted(x, init);
      var ins := Insert(x, init);
      var r := ins + [last];
      assert r == Insert(x, lines);
      forall i, j | 0 <= i < j < |r| ensures r[i].row <= r[j].row {
        if j < |ins| {
          assert r[i] == ins[i] && r[j] == ins[j];
        } else {
          assert r[i] == ins[i] && r[j] == last;
          assert ins[i] in multiset(init) + multiset{x};
          if ins[i] != x {
            var k :| 0 <= k < |init| && init[k] == ins[i];
            assert lines[k] == init[k];
          }
        }
      }
    }
  }

  /** Insertion sort by row. */
  function SortByRow(lines: seq<Line>): (r: seq<Line>)
    ensures multiset(r) == multiset(lines)
    ensures SortedByRow(r)
  {
    if lines == [] then []
    else
      var init, last := lines[..|lines| - 1], lines[|lines| - 1];
      assert lines == init + [last];
      InsertKeepsSorted(last, SortByRow(init));
      Insert(last, SortByRow(init))
  }

  /** Sorting a lattice with one more rung at the bottom inserts that rung into
      the sorted rest. */
  lemma SortByRowSnoc(init: seq<Line>, last: Line)
    ensures SortByRow(init + [last]) == Insert(last, SortByRow(init))
  {
    var lines := init + [last];
    assert lines[..|lines| - 1] == init;
  }

  /** Sorting a lattice that is already ordered by row changes nothing, so
      sorting twice is the same as sorting once. */
  lemma {:induction false} SortSortedIsIdentity(lines: seq<Line>)
    requires SortedByRow(lines)
    ensures SortByRow(lines) == lines
  {
    if lines != [] {
      var init, last := lines[..|lines| - 1], lines[|lines| - 1];
      assert lines == init + [last];
      assert SortedByRow(init);
      SortSortedIsIdentity(init);
      SortByRowSnoc(init, last);
      assert init == [] || init[|init| - 1].row <= last.row;
    }
  }

  lemma SortIsIdempotent(lines: seq<Line>)
    ensures SortByRow(SortByRow(lines)) == SortByRow(lines)
  {
    SortSortedIsIdentity(SortByRow(lines));
  }

  /** Inserting a rung compatible with all the others keeps the non-adjacency
      invariant. */
  lemma {:induction false} InsertKeepsNonAdjacent(x: Line, lines: seq<Line>)
    requires NonAdjacent(lines)
    requires forall l :: l in lines ==> Compatible(l, x)
    ensures NonAdjacent(Insert(x, lines))
  {
    if lines == [] || lines[|lines| - 1].row <= x.row {
      NonAdjacentAppend(lines, x);
    } else {
      var init, last := lines[..|lines| - 1], lines[|lines| - 1];
      assert lines == init + [last];
      NonAdjacentAppend(init, last);
      InsertKeepsNonAdjacent(x, init);
      var ins := Insert(x, init);
      forall l | l in ins ensures Compatible(l, last) {
        assert l in multiset(init) + multiset{x};
        if l == x {
          assert Compatible(last, x);
        }
      }
      NonAdjacentAppend(ins, last);
    }
  }

  /** Sorting keeps the non-adjacency invariant. */
  lemma {:induction false} SortKeepsNonAdjacent(lines: seq<Line>)
    requires NonAdjacent(lines)
    ensures NonAdjacent(SortByRow(lines))
  {
    if lines != [] {
      var init, last := lines[..|lines| - 1], lines[|lines| - 1];
      assert lines == init + [last];
      NonAdjacentAppend(init, last);
      SortKeepsNonAdjacent(init);
      var sorted := SortByRow(init);
      forall l | l in sorted ensures Compatible(l, last) {
        assert l in multiset(init);
      }
      InsertKeepsNonAdjacent(last, sorted);
    }
  }
}
