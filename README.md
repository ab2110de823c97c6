# Ghost-leg lottery (Amidakuji) core, modelled in Dafny

This project models the algorithmic core of an Amidakuji web app, `src/lib/amida.ts`.
A lattice has `count` vertical columns. Horizontal rungs (`AmidaLine`, a `{row, col}` record)
join column `col` to column `col + 1` at height `row`. The core has four parts:

- **Generator** (`generateAmidaLines`) draws random rungs by rejection sampling until
  `Math.ceil(count * ratio)` of them are placed. A candidate is dropped when `isValidLine`
  finds a rung on the same row within column distance 1. The rungs are then sorted by row.
- **Tracer** (`traceRoute`) follows one start column down through the rungs in order.
- **Shuffle** (`shuffleArray`) is a Fisher-Yates shuffle of a copied label list.
- **Route set builder** (`generateRoutes`) shuffles both label lists, generates one lattice
  with the default density 4.5, and traces every start column.

Modules, one per component:

| file | module | models |
|---|---|---|
| `sampling.dfy` | `Sampling` | `Math.floor(Math.random() * n)` with the sample as an input |
| `rungs.dfy` | `Rungs` | `AmidaLine`, `isValidLine`, the non-adjacency invariant |
| `row_sort.dfy` | `RowSort` | `lines.sort((a, b) => a.row - b.row)` |
| `generator.dfy` | `Generator` | `generateAmidaLines`, its capacity bound and its termination defect |
| `trace.dfy` | `Trace` | `traceRoute` and its inverse |
| `shuffle.dfy` | `Shuffle` | `shuffleArray` |
| `route_set.dfy` | `RouteSet` | `generateRoutes`, `AmidaResult` |

Each imperative source function is a Dafny `method` proved against a specification function:

- `GenerateLines` (a `while` loop) is proved against `Place`.
- `TraceRoute` (a `for` loop) is proved against `Walk`, which folds the adjacent transposition
  `Swap` over the rungs.
- `ShuffleArray` (a loop that swaps inside a fresh array) is proved against `FisherYates`.

The properties are lemmas about those functions.

Randomness is an input. Each `Math.random()` result is a real sample in [0, 1), and
`Math.floor(u * n)` is `Sampling.Scale`. The generator takes a finite sequence of draws,
one `(column sample, row sample)` pair per loop iteration. If that sequence runs out before
the target is reached, it returns `Exhausted`. The draws are the fuel that bounds the
source's unbounded loop.

## Model

| member | source | states |
|---|---|---|
| `Sampling.Scale` | src/lib/amida.ts:19-20 | for a sample in [0, 1) and `n >= 1`, `Math.floor(sample * n)` is an index in [0, n) |
| `Rungs.IsValidLine` | src/lib/amida.ts:30-37 | the candidate is accepted iff every existing rung is on another row or more than one column away |
| `Rungs.NonAdjacentAppend` | src/lib/amida.ts:22-24 | pushing a rung keeps the non-adjacency invariant iff the rung is compatible with every rung already held (both directions) |
| `RowSort.Insert` | src/lib/amida.ts:27 | inserting a rung adds exactly that rung to the multiset of rungs |
| `RowSort.InsertKeepsSorted` | src/lib/amida.ts:27 | inserting into a row-ordered lattice keeps it row-ordered |
| `RowSort.SortByRow` | src/lib/amida.ts:27 | the sorted lattice is non-decreasing by row and is a permutation (same multiset) of its input |
| `RowSort.SortSortedIsIdentity` | src/lib/amida.ts:27 | sorting a lattice that is already ordered by row returns it unchanged |
| `RowSort.SortIsIdempotent` | src/lib/amida.ts:27 | sorting twice gives the same lattice as sorting once |
| `RowSort.InsertKeepsNonAdjacent` | src/lib/amida.ts:27 | inserting a rung compatible with all others keeps the non-adjacency invariant |
| `RowSort.SortKeepsNonAdjacent` | src/lib/amida.ts:27 | sorting keeps the non-adjacency invariant |
| `Generator.Target` | src/lib/amida.ts:14 | computes `Math.ceil(count * ratio)` by Euclidean division; it carries no contract of its own, and `Generator.TargetIsCeiling` proves that it is the ceiling |
| `Generator.TargetIsCeiling` | src/lib/amida.ts:14 | the target rung count is the least `t` with `count * ratio <= t`, that is `Math.ceil(count * ratio)` |
| `Generator.Candidate` | src/lib/amida.ts:16-20 | for `count >= 2` a drawn rung has `0 <= col <= count - 2` and `0 <= row < 3 * count` |
| `Generator.Place` | src/lib/amida.ts:18-25 | the loop only ever appends: the rungs held at the start are a prefix of the result, and each draw adds at most one rung; `Generator.PlaceKeepsSound` and `Generator.OverCapacityNeverReached` state what it keeps and what it cannot reach |
| `Generator.PlaceAppend` | src/lib/amida.ts:18-25 | consuming two stretches of draws one after the other is consuming them as one stretch, so the loop can be followed stretch by stretch |
| `Generator.PushKeepsSound` | src/lib/amida.ts:22-24 | pushing an accepted candidate keeps the lattice non-adjacent and inside its rows and columns |
| `Generator.SortKeepsSound` | src/lib/amida.ts:27 | sorting keeps the lattice non-adjacent and inside its rows and columns |
| `Generator.PlaceKeepsSound` | src/lib/amida.ts:18-25 | whatever the draws, the accepted rungs stay non-adjacent and in range, and never exceed the target |
| `Generator.GenerateLines` | src/lib/amida.ts:13-28 | returns `Exhausted` iff the draws run out before the target; otherwise exactly `max(0, ceil(count * ratio))` rungs, sorted by row, a permutation of the accepted rungs, non-adjacent, and for `count >= 2` in range |
| `Generator.CapacityBound` | src/lib/amida.ts:16-24 | a non-adjacent, in-range lattice of `count >= 2` columns holds at most `3 * count * floor(count / 2)` rungs |
| `Generator.OverCapacityNeverReached` | src/lib/amida.ts:18-25 | when the target exceeds the capacity, no sequence of draws ever fills the lattice |
| `Generator.DefaultRatioStalls` | src/lib/amida.ts:13-18 | with ratio 4.5, two and three columns ask for 9 and 14 rungs, over capacities 6 and 9, so the loop never ends |
| `Generator.DefaultRatioFitsFromFour` | src/lib/amida.ts:13-16 | with ratio 4.5, from four columns on the target fits in the capacity, which is necessary for the loop to finish but not sufficient (see `Generator.FourColumnsCanStall`) |
| `Generator.BlockingReached` | src/lib/amida.ts:18-25 | on four columns, seven particular draws make the loop accept seven rungs at column 1 on rows 0 to 6 |
| `Generator.BlockedLatticeStalls` | src/lib/amida.ts:18-25 | once those seven rungs are held on four columns, no draws whatever bring the loop past 17 rungs, since each of rows 0 to 6 is full |
| `Generator.FourColumnsCanStall` | src/lib/amida.ts:13-25 | with four columns and ratio 4.5 the target 18 fits in the capacity 24, yet after those seven draws no further draws ever complete the lattice |
| `Trace.Swap` | src/lib/amida.ts:43-47 | passing a rung moves a token by at most one column, and moves it exactly when it is on one of the two columns the rung joins |
| `Trace.Walk` | src/lib/amida.ts:42-48 | following the rungs in order moves a token by at most one column per rung; `Trace.ClimbUndoesWalk` and `Trace.WalkInRange` state its inverse and its range |
| `Trace.TraceRoute` | src/lib/amida.ts:39-51 | the loop's result equals the fold `Walk` of the adjacent transposition over the rungs in order |
| `Trace.SwapInvolutive` | src/lib/amida.ts:43-47 | passing the same rung twice returns a token to its column |
| `Trace.SwapCommute` | src/lib/amida.ts:43-47 | rungs more than one column apart can be passed in either order |
| `Trace.WalkAppend` | src/lib/amida.ts:42-48 | tracing through stacked parts of a lattice traces through the upper part, then the lower |
| `Trace.ClimbUndoesWalk` | src/lib/amida.ts:39-51 | climbing back up (the rungs in reverse) from a trace's end gives its start |
| `Trace.WalkUndoesClimb` | src/lib/amida.ts:39-51 | tracing down from a climb's end gives its start, so the trace is onto |
| `Trace.WalkInRange` | src/lib/amida.ts:39-51 | a trace from a column in [0, count) through in-range rungs ends in [0, count) |
| `Trace.ClimbInRange` | src/lib/amida.ts:39-51 | a climb from a column in [0, count) through in-range rungs ends in [0, count) |
| `Trace.SameRowOrderIrrelevant` | src/lib/amida.ts:27 | two adjacent compatible rungs on one row can swap places without changing any trace |
| `Shuffle.SwapAt` | src/lib/amida.ts:57 | the destructuring swap exchanges the two positions, keeps all others and keeps the multiset |
| `Shuffle.FisherYates` | src/lib/amida.ts:55-58 | the shuffle's steps keep the length and the multiset of the list |
| `Shuffle.ShuffleArray` | src/lib/amida.ts:53-60 | the copy shuffled in place equals the Fisher-Yates order of the input, with the same length and multiset |
| `RouteSet.RouteTable` | src/lib/amida.ts:67 | `routes[i]` is the trace of start column `i`; it carries no contract of its own, and `RouteSet.RoutesArePermutation` proves that the table is a permutation |
| `RouteSet.RoutesArePermutation` | src/lib/amida.ts:62-67 | for any rungs inside the lattice, the routes send 0 .. count-1 one-to-one and onto 0 .. count-1 |
| `RouteSet.TwoColumnsOneRung` | src/lib/amida.ts:39-51 | two columns and one rung give routes `[1, 0]` |
| `RouteSet.WorkedExample` | src/__tests__/amida.test.ts:21-30 | rungs (0, 0) and (1, 1) send 0 to 2, 1 to 0 and 2 to 1 |
| `RouteSet.GenerateRoutes` | src/lib/amida.ts:62-70 | exhausted iff the generator is, and always exhausted for 2 or 3 labels; otherwise a sound sorted lattice of the target size that is a reordering of the rungs the loop accepts from the draws, routes that are its trace table and a permutation, and label lists that are the Fisher-Yates shuffles of the inputs |

## Left out

- `Math.random()` is not modelled. Its results are input samples in [0, 1). The fairness of the shuffle and the distribution of the rungs are statistical properties and are not stated.
- The two shuffles and the generator each take their own sequence of samples. The source draws them in order from one random stream; splitting that stream is equivalent and is not modelled.
- Floating point is not modelled. The density `ratio` is an exact fraction `num / den`, and the default 4.5 is `9 / 2`. `Math.ceil(count * ratio)` is computed exactly, and sample arithmetic is on reals.
- The unbounded loop of `generateAmidaLines` ends in the model when the supplied draws run out. That ending is reported as `Exhausted`, where the source keeps drawing.
- `Array.prototype.sort` is a library call whose algorithm is not visible. The model uses a stable insertion sort by row. Only its outcome is stated: ordered by row, a permutation, and the same as its input when already sorted. The source's engine sort is stable too, so equal rows keep their draw order in both.
- `Trace.SameRowOrderIrrelevant` covers one exchange of adjacent same-row rungs. The general claim, that every row-sorted order of a non-adjacent lattice traces alike, is not proved.
- `RouteSet.GenerateRoutes` requires `|startItems| == |goalItems| >= 2`. The source does not check this; its caller enforces it at src/App.tsx:41.
- `Generator.GenerateLines`: the range guarantee is stated for `count >= 2` only. With `count == 1` the source draws rungs at column 0, joining a column that does not exist. The model computes the same rungs but states no range for them.
- `RouteSet.GenerateRoutes` builds the routes with the function `Walk`, because a sequence comprehension cannot call a method. `Trace.TraceRoute` is proved equal to `Walk`.
- `shuffleArray` copies the caller's array. Label lists are values in the model, so the input is unchanged by construction; aliasing is not modelled.
- The source raises no errors: `traceRoute` accepts any start column, and `generateRoutes` checks neither the label count nor that the two lists match (its caller does, at src/App.tsx:41). `Walk` is defined for every integer.
- The presentation layer is not part of this model. That covers src/App.tsx, src/components/AmidaCanvas.tsx, src/components/ResultsTable.tsx, src/components/ItemList.tsx and src/components/ModeToggle.tsx (React, SVG, animation, localStorage).

## Findings

| source | as written | input that shows it | evidently intended | confidence | as-written member | corrected member |
|---|---|---|---|---|---|---|
| src/lib/amida.ts:13-25 | the loop redraws until `Math.ceil(count * 4.5)` rungs are placed, with no retry bound, but a non-adjacent lattice holds at most `3 * count * floor(count / 2)` rungs | `generateRoutes` with 2 or 3 items, which src/App.tsx:41 allows: 2 columns want 9 rungs with room for 6, and 3 columns want 14 with room for 9 | generation ends, with a lattice or with a reported failure | high; not executed | `Generator.DefaultRatioStalls` | `Generator.GenerateLines` |
| src/lib/amida.ts:18-25 | even when the target fits in the capacity, rungs placed early can block rows so that the remaining room is smaller than the target, and the loop then never ends | `generateRoutes` with 4 items: the target 18 fits in the capacity 24, but seven first rungs at column 1 on rows 0 to 6 leave room for only 17 | generation ends, with a lattice or with a reported failure | high; not executed | `Generator.FourColumnsCanStall` | `Generator.GenerateLines` |

`Generator.DefaultRatioStalls` is proved about `Generator.Place`, the loop as written. For 2 or 3 columns, no finite sequence of draws brings it to its target, so the source's loop never exits.
`Generator.FourColumnsCanStall` shows that fitting in the capacity does not save the loop either. On four columns, the draws `Generator.BlockingDraws` place a rung at column 1 on each of rows 0 to 6. Each of those rows is then full, and rows 7 to 11 hold at most two rungs each, so no later draws reach the target 18.
`Generator.GenerateLines` bounds the loop by the draws supplied and returns `Exhausted` instead of hanging. By `Generator.OverCapacityNeverReached`, it does so for every over-capacity target. `RouteSet.GenerateRoutes` uses it and states that 2 or 3 labels always give `GenerationExhausted`.
