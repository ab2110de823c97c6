/** `generateRoutes`: shuffle both label lists, generate one lattice with the
    default density, and trace every start column through it. */
module RouteSet {
  import opened Rungs
  import opened Sampling
  import opened RowSort
  import opened Generator
  import opened Trace
  import opened Shuffle

  /** `AmidaResult`. */
  datatype AmidaResult = AmidaResult(
    lines: seq<Line>,
    routes: seq<int>,
    shuffledStartItems: seq<string>,
    shuffledGoalItems: seq<string>)

  /** A finished lottery, or the report that the draws ran out first. */
  datatype Outcome = Built(result: AmidaResult) | GenerationExhausted

  /** `routes[i]` is the goal column of start column `i`. */
  function RouteTable(count: nat, lines: seq<Line>): seq<int> {
    seq(count, i => Walk(i, lines))
  }

  /** `routes` sends the columns 0 .. count - 1 one-to-one onto themselves. */
  predicate IsPermutation(routes: seq<int>, count: int) {
    && |routes| == count
    && (forall i :: 0 <= i < |routes| ==> 0 <= routes[i] < count)
    && (forall i, j :: 0 <= i < j < |routes| ==> routes[i] != routes[j])
    && (forall g :: 0 <= g < count ==> g in routes)
  }

  /** Every lattice whose rungs join columns of the lattice induces a
      permutation: distinct starts reach distinct goals (climbing back up tells
      the start), and every goal is reached (from where climbing up from it ends). */
  lemma RoutesArePermutation(count: nat, lines: seq<Line>)
    requires ColsIn(lines, count)
    ensures IsPermutation(RouteTable(count, lines), count)
  {
    var routes := RouteTable(count, lines);
    forall i | 0 <= i < count ensures 0 <= routes[i] < count {
      WalkInRange(i, lines, count);
    }
    forall i, j | 0 <= i < j < count ensures routes[i] != routes[j] {
      ClimbUndoesWalk(i, lines);
      ClimbUndoesWalk(j, lines);
    }
    forall g | 0 <= g < count ensures g in routes {
      var i := Climb(g, lines);
      ClimbInRange(g, lines, count);
      WalkUndoesClimb(g, lines);
      assert routes[i] == g;
    }
  }

  /** The two-column boundary case: one rung at column 0 exchanges the columns. */
  lemma TwoColumnsOneRung(row: int)
    ensures RouteTable(2, [Line(row, 0)]) == [1, 0]
  {
    assert Walk(0, [Line(row, 0)]) == 1;
    assert Walk(1, [Line(row, 0)]) == 0;
  }

  /** The worked example: rungs at (row 0, column 0) and (row 1, column 1) send
      0 to 2, 1 to 0 and 2 to 1. */
  lemma WorkedExample()
    ensures RouteTable(3, [Line(0, 0), Line(1, 1)]) == [2, 0, 1]
  {
    assert Walk(0, [Line(0, 0), Line(1, 1)]) == 2;
    assert Walk(1, [Line(0, 0), Line(1, 1)]) == 0;
    assert Walk(2, [Line(0, 0), Line(1, 1)]) == 1;
  }

  /** `generateRoutes(startItems, goalItems)` with its random draws supplied:
      `startSamples` and `goalSamples` drive the two shuffles and `draws` the
      lattice. When it builds a result, the lattice meets every guarantee of
      `GenerateLines` for the default density, the label lists are shuffled
      copies, and `routes` is the permutation the lattice induces. With two or
      three labels it always reports `GenerationExhausted`, where the source's
      call never returns. */
  method GenerateRoutes(startItems: seq<string>, goalItems: seq<string>,
                        startSamples: seq<real>, goalSamples: seq<real>,
                        draws: seq<Draw>) returns (r: Outcome)
    requires |startItems| == |goalItems| >= 2
    requires |startItems| - 1 <= |startSamples| && |goalItems| - 1 <= |goalSamples|
    requires forall u :: u in startSamples ==> IsSample(u)
    requires forall u :: u in goalSamples ==> IsSample(u)
    requires SamplesOk(draws)
    ensures var count := |startItems|;
            var target := Target(count, DEFAULT_RATIO);
      && (r.GenerationExhausted? <==> |Place(count, target, [], draws)| < target)
      && (count <= 3 ==> r.GenerationExhausted?)
    ensures r.Built? ==> |r.result.lines| == Target(|startItems|, DEFAULT_RATIO)
    ensures r.Built? ==>
      multiset(r.result.lines)
        == multiset(Place(|startItems|, Target(|startItems|, DEFAULT_RATIO), [], draws))
    ensures r.Built? ==> NonAdjacent(r.result.lines) && SortedByRow(r.result.lines)
    ensures r.Built? ==> ColsIn(r.result.lines, |startItems|) && RowsIn(r.result.lines, |startItems|)
    ensures r.Built? ==> r.result.routes == RouteTable(|startItems|, r.result.lines)
    ensures r.Built? ==> IsPermutation(r.result.routes, |startItems|)
    ensures r.Built? ==>
      && r.result.shuffledStartItems == FisherYates(startItems, |startItems| - 1, startSamples)
      && multiset(r.result.shuffledStartItems) == multiset(startItems)
    ensures r.Built? ==>
      && r.result.shuffledGoalItems == FisherYates(goalItems, |goalItems| - 1, goalSamples)
      && multiset(r.result.shuffledGoalItems) == multiset(goalItems)
  {
    var count := |startItems|;
    var shuffledStart := ShuffleArray(startItems, startSamples);
    var shuffledGoal := ShuffleArray(goalItems, goalSamples);
    var g := GenerateLines(count, DEFAULT_RATIO, draws);
    if count <= 3 {
      DefaultRatioStalls(count, draws);
    }
    if g.Exhausted? {
      return GenerationExhausted;
    }
    var lines := g.lines;
    var routes := seq(|shuffledStart|, i => Walk(i, lines));
    assert routes == RouteTable(count, lines);
    RoutesArePermutation(count, lines);
    r := Built(AmidaResult(lines, routes, shuffledStart, shuffledGoal));
  }
}
