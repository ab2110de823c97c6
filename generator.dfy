/** `generateAmidaLines`: rejection sampling of rungs until the target count is
    reached, then ordering by row.
    The source loops on `Math.random()` without bound; here the random draws are
    an input sequence, and running out of draws before the target is reached is
    reported as `Exhausted`. */
module Generator {
  import opened Rungs
  import opened Sampling
  import opened RowSort

  /** The density `ratio`, as the fraction `num / den`. */
  datatype Ratio = Ratio(num: int, den: int)

  /** The default density 4.5. */
  const DEFAULT_RATIO := Ratio(9, 2)

  /** One iteration's pair of `Math.random()` results: first the column, then the row. */
  datatype Draw = Draw(colSample: real, rowSample: real)

  datatype Generated = Lattice(lines: seq<Line>) | Exhausted

  /** `Math.ceil(count * ratio)`. Dafny's division rounds down for a positive
      divisor, so the ceiling is the negated quotient of the negated product. */
  function Target(count: int, ratio: Ratio): int
    requires ratio.den > 0
  {
    -((-(count * ratio.num)) / ratio.den)
  }

  /** `Target` is the ceiling of `count * num / den`: the least `t` with
      `count * num <= t * den`. */
  lemma TargetIsCeiling(count: int, ratio: Ratio)
    requires ratio.den > 0
    ensures var t := Target(count, ratio);
      (t - 1) * ratio.den < count * ratio.num <= t * ratio.den
  {
    var a := -(count * ratio.num);
    var q := a / ratio.den;
    assert a == q * ratio.den + a % ratio.den;
    assert (-q) * ratio.den == -(q * ratio.den);
    assert (-q - 1) * ratio.den == -(q * ratio.den) - ratio.den;
  }

  /** Draws whose samples the random source can produce. */
  predicate SamplesOk(draws: seq<Draw>) {
    forall d :: d in draws ==> IsSample(d.colSample) && IsSample(d.rowSample)
  }

  /** The rung one draw proposes: `col = floor(u * (count - 1))`,
      `row = floor(v * 3 * count)`. */
  function Candidate(count: int, d: Draw): (l: Line)
    ensures count >= 2 && IsSample(d.colSample) && IsSample(d.rowSample) ==>
            0 <= l.col <= count - 2 && 0 <= l.row < 3 * count
  {
    Line(Scale(d.rowSample, count * 3), Scale(d.colSample, count - 1))
  }

  /** The rungs the loop holds once it has consumed `draws`, starting from `lines`:
      it stops as soon as `target` rungs are held, and keeps a candidate only when
      `IsValidLine` accepts it. */
  function Place(count: int, target: int, lines: seq<Line>, draws: seq<Draw>): (r: seq<Line>)
    ensures lines <= r && |r| <= |lines| + |draws|
    decreases |draws|
  {
    if |lines| >= target || draws == [] then lines
    else
      var l := Candidate(count, draws[0]);
      var next := if IsValidLine(lines, l.row, l.col) then lines + [l] else lines;
      Place(count, target, next, draws[1..])
  }

  /** The most rungs a lattice of `count` columns can hold: `3 * count` rows with
      at most `count / 2` pairwise non-adjacent rungs on each. */
  function Capacity(count: int): int {
    3 * count * (count / 2)
  }

  /** One iteration of the loop, seen through `Place`. */
  lemma PlaceStep(count: int, target: int, lines: seq<Line>, draws: seq<Draw>)
    requires |lines| < target && draws != []
    ensures var l := Candidate(count, draws[0]);
      Place(count, target, lines, draws)
        == Place(count, target, if IsValidLine(lines, l.row, l.col) then lines + [l] else lines, draws[1..])
  {
  }

  /** What every lattice the loop holds satisfies: the non-adjacency invariant
      and, once there are at least two columns, rungs inside the lattice. */
  predicate Sound(lines: seq<Line>, count: int) {
    NonAdjacent(lines) && (count >= 2 ==> ColsIn(lines, count) && RowsIn(lines, count))
  }

  /** Pushing a candidate that `IsValidLine` accepts keeps the lattice sound. */
  lemma PushKeepsSound(lines: seq<Line>, count: int, d: Draw)
    requires Sound(lines, count) && IsSample(d.colSample) && IsSample(d.rowSample)
    requires var l := Candidate(count, d); IsValidLine(lines, l.row, l.col)
    ensures Sound(lines + [Candidate(count, d)], count)
  {
    NonAdjacentAppend(lines, Candidate(count, d));
  }

  /** Sorting keeps the lattice sound. */
  lemma SortKeepsSound(lines: seq<Line>, count: int)
    requires Sound(lines, count)
    ensures Sound(SortByRow(lines), count)
  {
    SortKeepsNonAdjacent(lines);
    var sorted := SortByRow(lines);
    forall l | l in sorted ensures l in lines {
      assert l in multiset(sorted);
    }
  }

  /** The loop's iteration on the `n`-th draw: the rungs it holds next lead to
      the same final lattice, and stay sound. */
  lemma LoopStep(count: int, target: int, lines: seq<Line>, draws: seq<Draw>, n: int)
    requires 0 <= n < |draws| && |lines| < target
    requires Sound(lines, count) && SamplesOk(draws)
    ensures var l := Candidate(count, draws[n]);
      var next := if IsValidLine(lines, l.row, l.col) then lines + [l] else lines;
      Place(count, target, next, draws[n + 1..]) == Place(count, target, lines, draws[n..])
        && Sound(next, count)
  {
    PlaceStep(count, target, lines, draws[n..]);
    assert draws[n..][0] == draws[n] && draws[n..][1..] == draws[n + 1..];
    var l := Candidate(count, draws[n]);
    if IsValidLine(lines, l.row, l.col) {
      assert draws[n] in draws;
      PushKeepsSound(lines, count, draws[n]);
    }
  }

  /** What the loop accepts keeps the non-adjacency invariant, stays within the
      lattice's rows and columns, and never exceeds the target. */
  lemma {:induction false} PlaceKeepsSound(count: int, target: int, lines: seq<Line>, draws: seq<Draw>)
    requires Sound(lines, count) && SamplesOk(draws)
    ensures var r := Place(count, target, lines, draws);
      Sound(r, count) && |lines| <= |r| && (|lines| <= target ==> |r| <= target)
    decreases |draws|
  {
    if |lines| < target && draws != [] {
      var l := Candidate(count, draws[0]);
      assert draws[0] in draws;
      if IsValidLine(lines, l.row, l.col) {
        PushKeepsSound(lines, count, draws[0]);
        PlaceKeepsSound(count, target, lines + [l], draws[1..]);
      } else {
        PlaceKeepsSound(count, target, lines, draws[1..]);
      }
    }
  }

  /** `generateAmidaLines(count, ratio)` with the random draws supplied. It returns
      `Exhausted` exactly when the draws run out before the target is met;
      otherwise the lattice holds `Math.ceil(count * ratio)` rungs, ordered by row,
      pairwise non-adjacent and inside the lattice, and is a reordering of the
      rungs the loop accepted. By `OverCapacityNeverReached`, a target beyond
      the lattice's capacity always ends in `Exhausted`, where the source would
      never return. */
  method GenerateLines(count: nat, ratio: Ratio, draws: seq<Draw>) returns (g: Generated)
    requires ratio.den > 0
    requires SamplesOk(draws)
    ensures var target := Target(count, ratio);
            var accepted := Place(count, target, [], draws);
      && (g.Exhausted? <==> |accepted| < target)
      && (g.Lattice? ==> multiset(g.lines) == multiset(accepted) && SortedByRow(g.lines))
    ensures g.Lattice? ==> |g.lines| == if Target(count, ratio) < 0 then 0 else Target(count, ratio)
    ensures g.Lattice? ==> Sound(g.lines, count)
  {
    var target := Target(count, ratio);
    var lines: seq<Line> := [];
    var maxRow := count * 3;
    var n := 0;
    while |lines| < target
      invariant 0 <= n <= |draws|
      invariant |lines| <= if target < 0 then 0 else target
      invariant Place(count, target, lines, draws[n..]) == Place(count, target, [], draws)
      invariant Sound(lines, count)
      decreases |draws| - n
    {
      if n == |draws| {
        return Exhausted;
      }
      var col := Scale(draws[n].colSample, count - 1);
      var row := Scale(draws[n].rowSample, maxRow);
      assert Line(row, col) == Candidate(count, draws[n]);
      LoopStep(count, target, lines, draws, n);
      if IsValidLine(lines, row, col) {
        lines := lines + [Line(row, col)];
      }
      n := n + 1;
    }
    SortKeepsSound(lines, count);
    g := Lattice(SortByRow(lines));
  }

  /** Keying a rung by its row and by its column halved is one-to-one on a
      non-adjacent lattice, and the keys fit below `Capacity(count)`. */
  function Key(count: int, l: Line): int {
    l.row * (count / 2) + l.col / 2
  }

  lemma MulMono(a: int, b: int, k: int)
    requires a <= b && k >= 0
    ensures a * k <= b * k
  {
    assert b * k - a * k == (b - a) * k;
  }

  lemma {:induction false} KeyBounds(count: int, l: Line)
    requires count >= 2 && 0 <= l.col <= count - 2 && 0 <= l.row < 3 * count
    ensures 0 <= Key(count, l) < Capacity(count)
  {
    var h := count / 2;
    MulMono(0, l.row, h);
    MulMono(l.row, 3 * count - 1, h);
    assert (3 * count - 1) * h == 3 * count * h - h;
  }

  lemma {:induction false} KeyInjective(count: int, a: Line, b: Line)
    requires count >= 2 && 0 <= a.col <= count - 2 && 0 <= b.col <= count - 2
    requires Compatible(a, b)
    ensures Key(count, a) != Key(count, b)
  {
    var h := count / 2;
    if a.row < b.row {
      MulMono(a.row + 1, b.row, h);
      assert (a.row + 1) * h == a.row * h + h;
    } else if b.row < a.row {
      MulMono(b.row + 1, a.row, h);
      assert (b.row + 1) * h == b.row * h + h;
    }
  }

  /** A sequence of distinct integers has as many elements as its set. */
  lemma {:induction false} DistinctCard(ks: seq<int>)
    requires forall i, j :: 0 <= i < j < |ks| ==> ks[i] != ks[j]
    ensures |set k | k in ks| == |ks|
  {
    if ks != [] {
      var init, last := ks[..|ks| - 1], ks[|ks| - 1];
      DistinctCard(init);
      assert ks == init + [last];
      assert (set k | k in ks) == (set k | k in init) + {last};
      assert last !in (set k | k in init);
    }
  }

  /** The integers in [0, n). */
  function Below(n: nat): (s: set<int>)
    ensures |s| == n
    ensures forall x :: x in s <==> 0 <= x < n
  {
    if n == 0 then {} else Below(n - 1) + {n - 1}
  }

  /** Pigeonhole: distinct integers in [0, n) number at most n. */
  lemma Pigeonhole(ks: seq<int>, n: nat)
    requires forall i :: 0 <= i < |ks| ==> 0 <= ks[i] < n
    requires forall i, j :: 0 <= i < j < |ks| ==> ks[i] != ks[j]
    ensures |ks| <= n
  {
    DistinctCard(ks);
    var s, r := (set k | k in ks), Below(n);
    assert s <= r;
    assert r == s + (r - s);
  }

  /** No lattice of `count >= 2` columns that keeps the invariants holds more
      than `Capacity(count)` rungs. */
  lemma CapacityBound(count: int, lines: seq<Line>)
    requires count >= 2
    requires NonAdjacent(lines) && ColsIn(lines, count) && RowsIn(lines, count)
    ensures |lines| <= Capacity(count)
  {
    var ks := seq(|lines|, i requires 0 <= i < |lines| => Key(count, lines[i]));
    forall i | 0 <= i < |ks| ensures 0 <= ks[i] < Capacity(count) {
      assert lines[i] in lines;
      KeyBounds(count, lines[i]);
    }
    forall i, j | 0 <= i < j < |ks| ensures ks[i] != ks[j] {
      assert lines[i] in lines && lines[j] in lines;
      KeyInjective(count, lines[i], lines[j]);
    }
    Pigeonhole(ks, Capacity(count));
  }

  /** A target above the capacity is never reached, whatever the draws: the
      source's loop would run forever, and the model reports `Exhausted`. */
  lemma OverCapacityNeverReached(count: int, target: int, draws: seq<Draw>)
    requires count >= 2 && target > Capacity(count) && SamplesOk(draws)
    ensures |Place(count, target, [], draws)| < target
  {
    PlaceKeepsSound(count, target, [], draws);
    CapacityBound(count, Place(count, target, [], draws));
  }

  /** With the default density, two or three columns ask for 9 and 14 rungs,
      against room for 6 and 9: no sequence of draws ever completes. */
  lemma DefaultRatioStalls(count: int, draws: seq<Draw>)
    requires count == 2 || count == 3
    requires SamplesOk(draws)
    ensures Target(count, DEFAULT_RATIO) > Capacity(count)
    ensures |Place(count, Target(count, DEFAULT_RATIO), [], draws)| < Target(count, DEFAULT_RATIO)
  {
    assert Target(2, DEFAULT_RATIO) == 9 && Capacity(2) == 6;
    assert Target(3, DEFAULT_RATIO) == 14 && Capacity(3) == 9;
    OverCapacityNeverReached(count, Target(count, DEFAULT_RATIO), draws);
  }

  /** From four columns on, the default target fits in the lattice. Fitting is
      necessary for the loop to finish but not sufficient: see
      `FourColumnsCanStall`. */
  lemma DefaultRatioFitsFromFour(count: int)
    requires count >= 4
    ensures Target(count, DEFAULT_RATIO) <= Capacity(count)
  {
    TargetIsCeiling(count, DEFAULT_RATIO);
    var h := count / 2;
    MulMono(2, h, 3 * count);
    assert Capacity(count) == h * (3 * count);
  }

  /** Consuming two runs of draws one after the other is consuming their
      concatenation. */
  lemma {:induction false} PlaceAppend(count: int, target: int, lines: seq<Line>, first: seq<Draw>, rest: seq<Draw>)
    ensures Place(count, target, lines, first + rest)
         == Place(count, target, Place(count, target, lines, first), rest)
    decreases |first|
  {
    if first == [] {
      assert first + rest == rest;
    } else if |lines| < target {
      assert (first + rest)[0] == first[0] && (first + rest)[1..] == first[1..] + rest;
      var l := Candidate(count, first[0]);
      var next := if IsValidLine(lines, l.row, l.col) then lines + [l] else lines;
      PlaceAppend(count, target, next, first[1..], rest);
    }
  }

  /** Seven rungs at column 1 on rows 0 to 6: on four columns each one blocks
      its whole row. */
  function Blocking(): seq<Line> {
    seq(7, k => Line(k, 1))
  }

  /** Draws that place the `Blocking` rungs: column sample 0.5 selects column 1
      of 3, row sample k/12 selects row k of 12. */
  function BlockingDraws(): seq<Draw> {
    seq(7, k => Draw(0.5, k as real / 12.0))
  }

  lemma BlockingDrawOk(k: int)
    requires 0 <= k < 7
    ensures IsSample(0.5) && IsSample(k as real / 12.0)
    ensures Candidate(4, Draw(0.5, k as real / 12.0)) == Line(k, 1)
  {
    assert 0.5 * 3.0 == 1.5;
    assert (k as real / 12.0) * 12.0 == k as real;
  }

  /** The `k`-th blocking rung is accepted after the ones above it. */
  lemma BlockingAccepted(k: int)
    requires 0 <= k < 7
    ensures IsValidLine(Blocking()[..k], k, 1)
  {
    var acc := Blocking()[..k];
    forall l | l in acc ensures Compatible(l, Line(k, 1)) {
      var i :| 0 <= i < |acc| && acc[i] == l;
    }
  }

  /** Each blocking draw, consumed after the ones before it, places its rung
      (for any target above the seven rungs placed so far). */
  lemma BlockingStep(k: int, t: int)
    requires 0 <= k < 7 && t >= 7
    ensures Place(4, t, Blocking()[..k], BlockingDraws()[k..])
         == Place(4, t, Blocking()[..k + 1], BlockingDraws()[k + 1..])
  {
    var d, acc, next := BlockingDraws(), Blocking()[..k], Blocking()[..k + 1];
    var rest := d[k..];
    assert rest[0] == d[k] && rest[1..] == d[k + 1..];
    BlockingDrawOk(k);
    BlockingAccepted(k);
    assert next == acc + [Line(k, 1)];
    PlaceStep(4, t, acc, rest);
  }

  lemma BlockingDrawsOk()
    ensures SamplesOk(BlockingDraws())
  {
    var d := BlockingDraws();
    forall x | x in d ensures IsSample(x.colSample) && IsSample(x.rowSample) {
      var k :| 0 <= k < 7 && d[k] == x;
      BlockingDrawOk(k);
    }
  }

  /** From the `k`-th blocking draw on, the loop completes the `Blocking` rungs. */
  lemma {:induction false} BlockingFrom(k: int, t: int)
    requires 0 <= k <= 7 && t >= 7
    ensures Place(4, t, Blocking()[..k], BlockingDraws()[k..]) == Blocking()
    decreases 7 - k
  {
    if k == 7 {
      assert Blocking()[..7] == Blocking() && BlockingDraws()[7..] == [];
    } else {
      BlockingStep(k, t);
      BlockingFrom(k + 1, t);
    }
  }

  /** The seven blocking draws place exactly the `Blocking` rungs. */
  lemma BlockingReached(t: int)
    requires t >= 7
    ensures Place(4, t, [], BlockingDraws()) == Blocking()
  {
    BlockingFrom(0, t);
    assert Blocking()[..0] == [] && BlockingDraws()[0..] == BlockingDraws();
  }

  /** The cell a rung of the blocked four-column lattice is counted in: rows 0 to
      6 have one cell each, rows 7 to 11 two each (by column halved). */
  function StallKey(l: Line): int {
    if l.row < 7 then l.row else 7 + 2 * (l.row - 7) + l.col / 2
  }

  /** In a sound four-column lattice that starts with the `Blocking` rungs, the
      only rung on a row below 7 is the blocking one. */
  lemma BlockedRowsHoldOne(r: seq<Line>, i: int)
    requires Sound(r, 4) && Blocking() <= r && 0 <= i < |r|
    ensures 0 <= StallKey(r[i]) < 17
    ensures r[i].row < 7 ==> i == r[i].row
  {
    assert r[i] in r;
    var j := r[i].row;
    if 0 <= j < 7 {
      assert r[j] == Blocking()[j];
      assert !Compatible(r[i], r[j]) && !Compatible(r[j], r[i]);
    }
  }

  /** Once the `Blocking` rungs are held, the loop never holds more than 17
      rungs, whatever the draws and the target. */
  lemma BlockedLatticeStalls(t: int, draws: seq<Draw>)
    requires SamplesOk(draws)
    ensures |Place(4, t, Blocking(), draws)| <= 17
  {
    var b := Blocking();
    forall i, j | 0 <= i < j < |b| ensures Compatible(b[i], b[j]) { }
    assert Sound(b, 4);
    var r := Place(4, t, b, draws);
    PlaceKeepsSound(4, t, b, draws);
    var ks := seq(|r|, i requires 0 <= i < |r| => StallKey(r[i]));
    forall i | 0 <= i < |r| ensures 0 <= ks[i] < 17 {
      BlockedRowsHoldOne(r, i);
    }
    forall i, j | 0 <= i < j < |r| ensures ks[i] != ks[j] {
      BlockedRowsHoldOne(r, i);
      BlockedRowsHoldOne(r, j);
      assert r[i] in r && r[j] in r;
      assert Compatible(r[i], r[j]);
    }
    Pigeonhole(ks, 17);
  }

  /** With four columns and the default density, the seven draws of
      `BlockingDraws` followed by any draws at all never complete the lattice:
      the source's loop can hang on four columns too. */
  lemma FourColumnsCanStall(draws: seq<Draw>)
    requires SamplesOk(draws)
    ensures Target(4, DEFAULT_RATIO) == 18 <= Capacity(4)
    ensures SamplesOk(BlockingDraws() + draws)
    ensures |Place(4, Target(4, DEFAULT_RATIO), [], BlockingDraws() + draws)| < Target(4, DEFAULT_RATIO)
  {
    var t := Target(4, DEFAULT_RATIO);
    assert t == 18;
    BlockingDrawsOk();
    BlockingReached(t);
    PlaceAppend(4, t, [], BlockingDraws(), draws);
    BlockedLatticeStalls(t, draws);
  }
}
