# Instant Insanity solver (crazycubes.py), modelled in Dafny

`crazycubes.py` solves the "Instant Insanity" puzzle. The puzzle has six cubes whose faces carry the values 1..6. They must be stacked so that each of the four long sides of the stack (Front, Back, Left, Right) shows every value once.

The program has two parts, and this project models both without their printing.

- **Geometry engine, `get_valid_rotation`:**
  - A cube is the list of its six face values in slot order Top, Bottom, Front, Back, Left, Right.
  - Three quarter turns (`pitch`, `yaw`, `roll`) permute the slots.
  - A breadth-first search over the turned states returns the first state whose Front and Left show the requested values, or `None`.
- **Solver, `solve_specific_format`:**
  1. Takes each cube's three opposing value pairs, each sorted.
  2. Keeps every choice of one pair per cube, in `itertools.product` order, whose twelve values hold each of 1..6 exactly twice. These choices are the "configs".
  3. Collects every pair of configs, at positions `i < j`, that choose a different pair on every cube.
  4. Takes the first such pair as the Front/Back and Left/Right directions.
  5. For each direction, picks one value of every pair so that the six picks differ, using the first of the 64 flip tuples that works.
  6. Turns each original cube to show its picked front and left.

## Files and modules

- `product.dfy` (module `Product`)
  - `itertools.product(range(b), repeat=w)` is modelled as decoding an index into most-significant-first base-`b` digits (`Digits`).
  - Decoding reaches every tuple.
  - Decoding is strictly increasing in lexicographic order.
- `counting.dfy` (module `Counting`)
  - `Counter(s)[v]` is modelled as `Count`, and `set(s)` as `Elements`.
  - `len(set(s)) == len(s)` holds exactly when the entries differ.
- `cubes.dfy` (module `Cubes`)
  - Defines the cube type, the slot names, the sorted pair `tuple(sorted((a, b)))`, a cube's three pairs, and `all_numbers.extend(p)` (`Values`).
- `rotation.dfy` (module `Rotation`)
  - Defines the three turns and the reachability relation.
  - Lists the 24 orientations as slot maps and proves them closed under the turns and reachable.
  - Proves that the reachable states are exactly those 24, so at most 24 distinct states exist.
  - `RotateTo` is the search itself: a `while` loop over a growing `queue` sequence with a `seen` set.
- `solver.dfy` (module `Solver`)
  - Models pair extraction, enumeration, the compatibility search, `resolve_orientation` and the final loop, each as a method with loops and invariants.
  - `Solve` chains these steps.
  - Lemmas on a solved run show the following. The "Impossible Geometry" row never appears. For cubes whose six values differ, every side of the stack shows 1..6 once.

How the model reads the source:

- `Solve` returns an `Outcome`:
  - `NoSolution` for "NO SOLUTION FOUND.";
  - `Unresolvable` when `resolve_orientation` returns `[]` and so `final_fronts[i]` or `final_lefts[i]` raises `IndexError`;
  - `Solved(rows)` otherwise, with one `Row` per cube: `Placed(state)` for a rotated cube, or `ImpossibleGeometry(front, left)` for the error line.
- The ghost results of `Solve` name the direction sets and flip tuples the run used. The contract then says what they are:
  - the first solution, ordered by Front/Back axes and then by Left/Right axes;
  - the first distinct flip tuples.
- Where the source's call iterates over a list it extends while iterating (the search queue), the model keeps an explicit index into the sequence.
- `seen.add` runs before the match test in the source and after it in the model. `seen` is local and is discarded on return, so the two orders return the same result.
- The inner `for j` loop of the compatibility search is the method `ScanRow`, called once per row by `FindCompatible`.

Where the comments and the code differ, or the code's behaviour is easy to misread, the model follows the code:

- The comment beside `yaw` (crazycubes.py:38) gives the cycle in the direction opposite to the list expression. The model follows the expression: Left goes to Front.
- In the code, an empty `resolve_orientation` result ends in an `IndexError` (crazycubes.py:166-167). It is not reported as "no solution" or as impossible geometry. The model reports it as `Unresolvable`.
- The code takes a list of at least six cubes. It extracts the pairs of all of them but uses only the first six.

## Model

| member | source | states |
|---|---|---|
| Product.Digits | crazycubes.py:113 | the `n`-th tuple of the product has `w` entries, each below the base |
| Product.ValueBelowPow | crazycubes.py:113 | a tuple's index is below `b^w`, so it is one of the product's indices |
| Product.DigitsOfValue | crazycubes.py:113 | decoding a tuple's index gives the tuple back: every tuple is produced |
| Product.DigitsMonotone | crazycubes.py:113 | a smaller index decodes to a lexicographically smaller tuple: the product yields tuples in lexicographic order |
| Product.LexLessAsymmetric | crazycubes.py:113 | lexicographic order is irreflexive and asymmetric |
| Product.EarlierTuple | crazycubes.py:152 | a tuple lexicographically before the `n`-th is the tuple of a smaller index |
| Product.ProductSizes | crazycubes.py:113 | `product(range(3), repeat=6)` has 729 tuples; `product([0, 1], repeat=6)` has 64 |
| Counting.CountIsMultiplicity | crazycubes.py:121 | `Counter(nums)[k]` is the multiplicity of `k` in `nums` |
| Counting.Count | crazycubes.py:121 | `Counter(nums)[k]`: at most the length of the list, and 0 exactly when `k` does not occur |
| Counting.Elements | crazycubes.py:154 | `set(s)` holds exactly the entries of `s` and is no larger than `s` |
| Counting.DistinctIffFullSet | crazycubes.py:154 | `len(set(s)) == len(s)` exactly when no value occurs twice in `s` |
| Counting.DistinctMultiplicity | crazycubes.py:154 | a value occurs at most once in a list that passes the `len(set(...))` test |
| Cubes.SortedPair | crazycubes.py:105-107 | `tuple(sorted((a, b)))` is ascending and holds exactly `a` and `b` |
| Cubes.SortedPairSymmetric | crazycubes.py:105-107 | sorting makes the pair independent of the order of its two values |
| Cubes.Pairs | crazycubes.py:104-108 | a cube has exactly three pairs |
| Cubes.PairOfSlots | crazycubes.py:104-108 | pair `a` is ascending and holds the values of slots `2a` and `2a+1` |
| Cubes.PairsOfCube | crazycubes.py:102-109 | all three pairs are ascending and hold their slots' values, and together they hold the cube's six values as a multiset |
| Cubes.PairsHoldCube | crazycubes.py:102-109 | the values of the three pairs are the cube's six values as a multiset |
| Cubes.Values | crazycubes.py:118-119 | `all_numbers.extend(p)` per pair: entries `2i` and `2i+1` are the smaller and larger value of pair `i` |
| Rotation.Pitch | crazycubes.py:34-35 | the turn yields six slots (what it does to values and pairs is in `PitchPermutesFaces` and `PitchKeepsPairs`) |
| Rotation.Yaw | crazycubes.py:37-38 | the turn yields six slots (see `YawPermutesFaces`, `YawKeepsPairs`) |
| Rotation.Roll | crazycubes.py:40-41 | the turn yields six slots (see `RollPermutesFaces`, `RollKeepsPairs`) |
| Rotation.Perform | crazycubes.py:72 | the state after a sequence of pitch, yaw and roll turns, applied first to last; it has six slots |
| Rotation.Reachable | crazycubes.py:72 | a state is reachable when some finite sequence of turns produces it |
| Rotation.PitchPermutesFaces | crazycubes.py:34-35 | `pitch` lists the same six values in another order |
| Rotation.YawPermutesFaces | crazycubes.py:37-38 | `yaw` lists the same six values in another order |
| Rotation.RollPermutesFaces | crazycubes.py:40-41 | `roll` lists the same six values in another order |
| Rotation.PitchKeepsPairs | crazycubes.py:34-35 | `pitch` keeps the cube's three opposing value pairs |
| Rotation.YawKeepsPairs | crazycubes.py:37-38 | `yaw` keeps the cube's three opposing value pairs |
| Rotation.RollKeepsPairs | crazycubes.py:40-41 | `roll` keeps the cube's three opposing value pairs |
| Rotation.TurnPermutesFaces | crazycubes.py:34-41 | every turn permutes the six values |
| Rotation.TurnKeepsPairs | crazycubes.py:34-41 | every turn keeps the multiset of the three pairs |
| Rotation.PerformKeepsFaces | crazycubes.py:88-90 | any sequence of turns keeps the values and the opposing pairs |
| Rotation.Orbit | crazycubes.py:29 | a cube has 24 listed orientations |
| Rotation.OrientationsClosed | crazycubes.py:88-90 | each listed orientation turned by `pitch`, `yaw` or `roll` is again a listed orientation |
| Rotation.OrientationReachable | crazycubes.py:72 | every listed orientation is reached from the start by turns |
| Rotation.OrbitIsReachable | crazycubes.py:72 | every member of a cube's orbit is reachable from it |
| Rotation.OrbitClosed | crazycubes.py:88-90 | one more turn of an orbit member stays in the orbit |
| Rotation.ReachableIsInOrbit | crazycubes.py:72 | whatever turns make of a cube is in its orbit |
| Rotation.ReachableIffInOrbit | crazycubes.py:29 | the reachable states are exactly the orbit |
| Rotation.OrbitSize | crazycubes.py:87 | a cube has at most 24 distinct orientations |
| Rotation.States | crazycubes.py:87 | the set of reachable states has at most 24 members |
| Rotation.ClosedSetHoldsReachable | crazycubes.py:77-90 | a set holding the start and closed under the turns holds every reachable state |
| Rotation.FullSetIsOrbit | crazycubes.py:87 | 24 distinct reachable states are all reachable states |
| Rotation.ReachableKeepsPairs | crazycubes.py:22-26 | a reachable state permutes the cube's values, keeps its pairs, and shows an original pair on each axis |
| Rotation.FrontAndLeftDetermineState | crazycubes.py:83-84 | on a cube whose values differ, at most one reachable state shows a given Front and Left |
| Rotation.OppositeTargetsUnreachable | crazycubes.py:92 | on a cube whose values differ, two values of one pair are never Front and Left at once |
| Rotation.FrontLeftSlots | crazycubes.py:29 | for any two slots of different axes, some orientation puts the first at Front and the second at Left |
| Rotation.AdjacentSlotsReachable | crazycubes.py:92 | any face of one axis and any face of another can be shown at Front and Left together |
| Rotation.SearchSkip | crazycubes.py:79 | dequeuing a state already seen keeps the search invariant |
| Rotation.Shows | crazycubes.py:83 | the match test: Front shows the target front and Left shows the target left |
| Rotation.SearchVisit | crazycubes.py:80-90 | dequeuing a new non-matching state keeps the search invariant when its three successors are queued while fewer than 24 are seen |
| Rotation.SearchExhausted | crazycubes.py:87-90 | when the queue is used up, every reachable state was seen: the `len(seen) < 24` cutoff drops no orientation |
| Rotation.SearchDone | crazycubes.py:92 | a search that used up its queue found no reachable state that matches |
| Rotation.RotateTo | crazycubes.py:74-92 | a state it returns shows the targets and is reachable; the cube itself is returned when it already shows them (it is dequeued first); `None` only when no reachable state shows them |
| Solver.CubePairs | crazycubes.py:102-109 | entry `i` is the three pairs of cube `i` |
| Solver.Select | crazycubes.py:117 | `cube_pairs[i][pair_idx]` for each cube: one entry per chosen axis, each one of that cube's own pairs |
| Solver.ExtractPairs | crazycubes.py:102-109 | `cube_pairs` has one entry per cube, the three pairs of that cube |
| Solver.SelectPairs | crazycubes.py:114-119 | `selected_pairs` is pair `indices[i]` of cube `i`, and `all_numbers` is their values pair after pair |
| Solver.BalancedInRange | crazycubes.py:121 | twelve values that hold each of 1..6 twice hold nothing else |
| Solver.Balanced | crazycubes.py:121 | the acceptance test: each of 1..6 occurs exactly twice |
| Solver.SoundByIndex | crazycubes.py:121-122 | kept indices decode to valid choices carrying the pairs they select |
| Solver.SortedByIndex | crazycubes.py:113 | configs kept in index order are in strictly increasing lexicographic order of axes |
| Solver.CompleteByIndex | crazycubes.py:112-122 | after all 729 indices every valid choice has been kept |
| Solver.EnumerateKeep | crazycubes.py:121-122 | a valid index is kept, and the kept indices stay increasing and complete |
| Solver.EnumerateSkip | crazycubes.py:121 | an invalid index is not kept, and the kept indices stay complete |
| Solver.EnumerateConfigs | crazycubes.py:112-122 | `valid_configs` holds exactly the valid choices, with their pairs, in strictly increasing lexicographic order |
| Solver.AxesCollide | crazycubes.py:133-138 | `collision` is set exactly when the two configs share an axis on some cube |
| Solver.AxesDisjoint | crazycubes.py:134-137 | no `collision`: the two choices use a different axis on each of the six cubes |
| Solver.FoundVisit | crazycubes.py:133-140 | visiting `(i, j)` records it exactly when it does not collide |
| Solver.FoundKeep | crazycubes.py:140 | recording a compatible pair keeps the list complete and in visiting order |
| Solver.FoundSkip | crazycubes.py:139 | skipping a colliding pair keeps the list complete |
| Solver.ScanRow | crazycubes.py:129-140 | the inner loop records every compatible `(i, j)`, `j > i`, in order |
| Solver.FindCompatible | crazycubes.py:127-140 | `solutions` lists exactly the compatible pairs of positions `i < j`, in `(i, j)` order; it is empty exactly when no pair is compatible, and otherwise starts with the first compatible pair |
| Solver.FoundFirst | crazycubes.py:142-148 | a finished search is empty exactly when no two configs differ on every axis, and otherwise its first entry is the first such pair in loop order |
| Solver.PositionsFollowOrder | crazycubes.py:128-129 | two valid choices in lexicographic order sit in `valid_configs` in that order |
| Solver.FoundIsSolution | crazycubes.py:142 | a non-empty `solutions` means two valid choices with different axes everywhere exist |
| Solver.SolutionIsFound | crazycubes.py:142 | two such choices mean `solutions` is not empty |
| Solver.SolutionsIffSolvable | crazycubes.py:142-144 | `solutions` is empty exactly when no two valid choices differ on every axis |
| Solver.FirstFoundIsFirstSolution | crazycubes.py:147-148 | `solutions[0]` is the first solution, ordered by Front/Back axes then Left/Right axes, with the pairs its axes select |
| Solver.Pick | crazycubes.py:153 | each pick is one of the two values of its pair |
| Solver.FlipsFailStep | crazycubes.py:154 | a flip tuple whose picks fail the `len(set(...))` test adds one failed index |
| Solver.EarlierFlipsFail | crazycubes.py:152-154 | if no index below `n` works, no flip tuple before the `n`-th works |
| Solver.FirstFlipsFound | crazycubes.py:154-155 | the first index that works gives the first flip tuple with distinct picks |
| Solver.AllFlipsFail | crazycubes.py:156 | if none of the 64 indices works, no flip tuple does |
| Solver.ResolveOrientation | crazycubes.py:151-156 | returns `[]` exactly when no flip tuple gives six distinct picks; otherwise returns the picks of the first such tuple |
| Solver.PlaceCubes | crazycubes.py:165-179 | row `i` is a reachable state of cube `i` showing its targets, and the cube as given when it already shows them, or the error row when no reachable state does |
| Solver.Solve | crazycubes.py:98-181 | it reports no solution exactly when none exists; otherwise it uses the first solution; it fails at indexing exactly when a direction has no distinct picks; otherwise its six rows are the rotations for the first distinct picks |
| Solver.PairValueAtSlot | crazycubes.py:104-108 | a value of pair `a` sits in slot `2a` or `2a+1` |
| Solver.ValueInOnePair | crazycubes.py:104-108 | on a cube whose values differ, a value belongs to one pair only |
| Solver.RowPlaced | crazycubes.py:171-178 | in a solved run, row `i` is placed |
| Solver.SolvedRowsPlaced | crazycubes.py:171-178 | in a solved run the "Impossible Geometry" line never occurs |
| Solver.PlacedRowShowsPairs | crazycubes.py:168-171 | on a cube whose values differ, the placed row shows the chosen pairs on Front/Back and Left/Right |
| Solver.RowOpposites | crazycubes.py:168-175 | on such a cube, Front and Left are the picks and Back and Right are the other values of the chosen pairs |
| Solver.DistinctPickCoversValues | crazycubes.py:153-154 | six distinct picks from a valid config are exactly 1..6 |
| Solver.SolvedTargetsCoverValues | crazycubes.py:158-159 | in a solved run, `final_fronts` and `final_lefts` are each exactly 1..6 |
| Solver.PickAndOther | crazycubes.py:153 | the picks and the values not picked together hold the pairs' values |
| Solver.OtherCoversValues | crazycubes.py:121 | the values not picked from a valid config with distinct picks are also exactly 1..6, without repeats |
| Solver.SolvedStackShowsAllValues | crazycubes.py:165-179 | for cubes whose values differ, a solved run places every row, and the Front, Back, Left and Right sides each show 1..6 once |

## Left out

- Printing and table formatting are left out (crazycubes.py:99, 124, 143, 161-163, 177, 179, 181). The model returns the outcome and the rows.
- The `attempts` list is left out (crazycubes.py:44-64). It is built and never read.
- The `my_cubes` table and the `__main__` driver are left out (crazycubes.py:8-15, 184-185). The cube list is a parameter of `Solve`.
- The `IndexError` raised when `resolve_orientation` returns `[]` is the outcome `Unresolvable` (crazycubes.py:166-167). It is not modelled as an exception.
- Lists of fewer than six cubes are left out. In the source they fail with `IndexError` during the enumeration, so `Solve` requires at least six.
- Cubes that are not lists of six integers (`Cube` is a six-entry `seq<int>`) are left out.
- Rotation.RotateTo: when several reachable states match, it does not state which one is returned (the first in search order). It states that the returned state is reachable and matches, and that the start state is returned when it matches itself. On cubes whose values differ only one reachable state can match, by `FrontAndLeftDetermineState`.
- Solver.PlaceCubes: a placed row is specified through `Rotation.RotateTo`'s contract, so when several reachable states of a cube match, the row is not stated to be the first one in search order (only the start state is pinned, when it matches).
- Solver.Solve: its rows come from `Solver.PlaceCubes`, so the same weaker statement applies to which matching state a row holds.
- Solver.PlacedRowShowsPairs: proved only for cubes whose six values differ. With a repeated value, the search may show a face of another pair with the same value. Then Back is not that pair's partner.
