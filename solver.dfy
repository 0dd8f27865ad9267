/**
 * The solver `solve_specific_format` of crazycubes.py, without its printing.
 *
 * A "config" chooses, for each of the six cubes, one of its three opposing
 * pairs (its axis) such that the twelve chosen values hold each of 1..6
 * exactly twice: such a choice can show every value once on the front and
 * once on the back of the stack. Two configs whose axes differ on every cube
 * give the Front/Back and the Left/Right directions of a solution. The
 * solver takes the first such pair of configs, picks one value of each pair
 * so that the six picks differ (for the fronts and for the lefts), and turns
 * each original cube until it shows its picked front and left.
 */
module Solver {
  import opened Cubes
  import opened Counting
  import opened Product
  import opened Rotation

  // ---------------------------------------------------------------------------
  // Configurations
  // ---------------------------------------------------------------------------

  /** A kept choice: the axis chosen for each cube and the pair it selects. */
  datatype Config = Config(axes: seq<nat>, pairs: seq<Pair>)

  /** At least six cubes, each with its three pairs. */
  predicate PairTable(cp: seq<seq<Pair>>)
  {
    |cp| >= 6 && forall i :: 0 <= i < |cp| ==> |cp[i]| == 3
  }

  /** The pairs of the cubes, cube by cube. */
  function CubePairs(cubes: seq<Cube>): (cp: seq<seq<Pair>>)
    ensures |cp| == |cubes| && forall i :: 0 <= i < |cubes| ==> cp[i] == Pairs(cubes[i])
  {
    seq(|cubes|, (i: int) requires 0 <= i < |cubes| => Pairs(cubes[i]))
  }

  /** Pair `axes[i]` of cube `i`, for each position of `axes`. */
  function Select(cp: seq<seq<Pair>>, axes: seq<nat>): (sel: seq<Pair>)
    requires |axes| <= |cp| && forall i :: 0 <= i < |axes| ==> axes[i] < |cp[i]|
    ensures |sel| == |axes| && forall i :: 0 <= i < |axes| ==> sel[i] in cp[i]
  {
    seq(|axes|, (i: int) requires 0 <= i < |axes| => cp[i][axes[i]])
  }

  /** Each of 1..6 occurs exactly twice: `all(Counter(nums)[k] == 2 for k in range(1, 7))`. */
  predicate Balanced(nums: seq<int>)
  {
    forall k :: 1 <= k <= 6 ==> Count(nums, k) == 2
  }

  /** `axes` is one of the tuples of `product(range(3), repeat=6)` and its selected pairs are balanced. */
  predicate ValidChoice(cp: seq<seq<Pair>>, axes: seq<nat>)
    requires PairTable(cp)
  {
    IsTuple(axes, 3, 6) && Balanced(Values(Select(cp, axes)))
  }

  /** The two choices use a different axis on every one of the six cubes. */
  predicate AxesDisjoint(a: seq<nat>, b: seq<nat>)
  {
    |a| == 6 && |b| == 6 && forall k :: 0 <= k < 6 ==> a[k] != b[k]
  }

  /** A balanced list of twelve values holds nothing but 1..6. */
  lemma BalancedInRange(nums: seq<int>)
    requires |nums| == 12 && Balanced(nums)
    ensures forall i :: 0 <= i < |nums| ==> 1 <= nums[i] <= 6
  {
    CountsAndOutside(nums);
    OutsideZero(nums);
  }

  /** The entries of `s` outside 1..6. */
  function Outside(s: seq<int>): nat
  {
    if s == [] then 0 else (if 1 <= s[0] <= 6 then 0 else 1) + Outside(s[1..])
  }

  lemma {:induction false} CountsAndOutside(s: seq<int>)
    ensures |s| == Count(s, 1) + Count(s, 2) + Count(s, 3) + Count(s, 4) + Count(s, 5) + Count(s, 6) + Outside(s)
  {
    if s != [] {
      CountsAndOutside(s[1..]);
      assert Count(s, 1) == (if s[0] == 1 then 1 else 0) + Count(s[1..], 1);
      assert Count(s, 2) == (if s[0] == 2 then 1 else 0) + Count(s[1..], 2);
      assert Count(s, 3) == (if s[0] == 3 then 1 else 0) + Count(s[1..], 3);
      assert Count(s, 4) == (if s[0] == 4 then 1 else 0) + Count(s[1..], 4);
      assert Count(s, 5) == (if s[0] == 5 then 1 else 0) + Count(s[1..], 5);
      assert Count(s, 6) == (if s[0] == 6 then 1 else 0) + Count(s[1..], 6);
    }
  }

  lemma {:induction false} OutsideZero(s: seq<int>)
    requires Outside(s) == 0
    ensures forall i :: 0 <= i < |s| ==> 1 <= s[i] <= 6
  {
    if s != [] {
      OutsideZero(s[1..]);
      assert forall i :: 1 <= i < |s| ==> s[i] == s[1..][i - 1];
    }
  }

  // ---------------------------------------------------------------------------
  // Pair extraction and enumeration
  // ---------------------------------------------------------------------------

  /** `cube_pairs`: the three sorted opposing pairs of every cube, in cube order. */
  method ExtractPairs(cubes: seq<Cube>) returns (cp: seq<seq<Pair>>)
    ensures |cp| == |cubes|
    ensures forall i :: 0 <= i < |cubes| ==> cp[i] == Pairs(cubes[i])
  {
    cp := [];
    var i := 0;
    while i < |cubes|
      invariant 0 <= i <= |cubes|
      invariant |cp| == i
      invariant forall j :: 0 <= j < i ==> cp[j] == Pairs(cubes[j])
    {
      cp := cp + [Pairs(cubes[i])];
      i := i + 1;
    }
  }

  /**
   * The body of the enumeration for one index tuple: the selected pairs, one
   * per cube, and the twelve values they hold, pair after pair.
   */
  method SelectPairs(cp: seq<seq<Pair>>, indices: seq<nat>) returns (selected: seq<Pair>, numbers: seq<int>)
    requires PairTable(cp) && IsTuple(indices, 3, 6)
    ensures selected == Select(cp, indices)
    ensures numbers == Values(selected)
  {
    selected := [];
    numbers := [];
    var i := 0;
    while i < 6
      invariant 0 <= i <= 6
      invariant selected == Select(cp, indices[..i])
      invariant numbers == Values(selected)
    {
      var p := cp[i][indices[i]];
      assert indices[..i + 1] == indices[..i] + [indices[i]];
      assert (selected + [p])[..|selected|] == selected;
      selected := selected + [p];
      numbers := numbers + [p.lo, p.hi];
      i := i + 1;
    }
    assert indices[..6] == indices;
  }

  /** The indices below 729 whose tuple of `product(range(3), repeat=6)` is a valid choice. */
  ghost function ValidIndices(cp: seq<seq<Pair>>): (valid: set<nat>)
    requires PairTable(cp)
    ensures forall m :: m in valid <==> m < 729 && ValidChoice(cp, Digits(m, 3, 6))
  {
    set m: nat | m < 729 && ValidChoice(cp, Digits(m, 3, 6))
  }

  /** Configs decoded from strictly increasing indices are in strictly increasing lexicographic order. */
  lemma SortedByIndex(cp: seq<seq<Pair>>, src: seq<nat>)
    requires PairTable(cp) && KeptUpTo(src, 729, ValidIndices(cp))
    ensures var configs := ConfigsOf(cp, src);
            forall j, j' :: 0 <= j < j' < |configs| ==> LexLess(configs[j].axes, configs[j'].axes)
  {
    ProductSizes();
    var configs := ConfigsOf(cp, src);
    forall j, j' | 0 <= j < j' < |configs|
      ensures LexLess(configs[j].axes, configs[j'].axes)
    {
      DigitsMonotone(src[j], src[j'], 3, 6);
    }
  }

  /** Configs decoded from valid indices are valid choices carrying the pairs they select. */
  lemma SoundByIndex(cp: seq<seq<Pair>>, src: seq<nat>)
    requires PairTable(cp) && KeptUpTo(src, 729, ValidIndices(cp))
    ensures var configs := ConfigsOf(cp, src);
            forall j :: 0 <= j < |configs| ==>
              ValidChoice(cp, configs[j].axes) && configs[j].pairs == Select(cp, configs[j].axes)
  {
    var valid := ValidIndices(cp);
    assert forall j :: 0 <= j < |src| ==> src[j] in valid;
  }

  /** Once all 729 indices are tried, every valid choice has been kept. */
  lemma CompleteByIndex(cp: seq<seq<Pair>>, src: seq<nat>)
    requires PairTable(cp) && KeptUpTo(src, 729, ValidIndices(cp))
    ensures var configs := ConfigsOf(cp, src);
            forall axes :: ValidChoice(cp, axes) ==> exists j :: 0 <= j < |configs| && configs[j].axes == axes
  {
    ProductSizes();
    var configs := ConfigsOf(cp, src);
    forall axes | ValidChoice(cp, axes)
      ensures exists j :: 0 <= j < |configs| && configs[j].axes == axes
    {
      ValueBelowPow(axes, 3);
      DigitsOfValue(axes, 3);
      var m := Value(axes, 3);
      assert m in ValidIndices(cp);
      assert m in src;
      var j :| 0 <= j < |src| && src[j] == m;
      assert configs[j].axes == axes;
    }
  }

  /** The config of the `m`-th tuple of `product(range(3), repeat=6)`. */
  function ConfigAt(cp: seq<seq<Pair>>, m: nat): Config
    requires PairTable(cp)
  {
    var axes := Digits(m, 3, 6);
    Config(axes, Select(cp, axes))
  }

  function ConfigsOf(cp: seq<seq<Pair>>, src: seq<nat>): seq<Config>
    requires PairTable(cp)
  {
    seq(|src|, (j: int) requires 0 <= j < |src| => ConfigAt(cp, src[j]))
  }

  /**
   * The indices kept after trying the first `n`: strictly increasing, each
   * below `n` and valid, and every valid index below `n` among them.
   */
  ghost predicate KeptUpTo(src: seq<nat>, n: nat, valid: set<nat>)
  {
    && n <= 729
    && (forall j :: 0 <= j < |src| ==> src[j] < n && src[j] in valid)
    && (forall j, j' :: 0 <= j < j' < |src| ==> src[j] < src[j'])
    && (forall m :: 0 <= m < n && m in valid ==> m in src)
  }

  /** Trying a valid index keeps it. */
  lemma EnumerateKeep(src: seq<nat>, n: nat, valid: set<nat>)
    requires n < 729 && KeptUpTo(src, n, valid) && n in valid
    ensures KeptUpTo(src + [n], n + 1, valid)
  {
    var src' := src + [n];
    assert forall j :: 0 <= j < |src| ==> src'[j] == src[j];
    assert src'[|src|] == n;
  }

  /** Trying an invalid index keeps nothing. */
  lemma EnumerateSkip(src: seq<nat>, n: nat, valid: set<nat>)
    requires n < 729 && KeptUpTo(src, n, valid) && n !in valid
    ensures KeptUpTo(src, n + 1, valid)
  {
  }

  lemma ConfigsOfAppend(cp: seq<seq<Pair>>, src: seq<nat>, n: nat)
    requires PairTable(cp)
    ensures ConfigsOf(cp, src + [n]) == ConfigsOf(cp, src) + [ConfigAt(cp, n)]
  {
  }

  /**
   * `valid_configs`: every index tuple of `product(range(3), repeat=6)`, in
   * order, whose selected pairs hold each of 1..6 exactly twice.
   */
  method EnumerateConfigs(cp: seq<seq<Pair>>) returns (configs: seq<Config>)
    requires PairTable(cp)
    ensures forall j :: 0 <= j < |configs| ==>
              ValidChoice(cp, configs[j].axes) && configs[j].pairs == Select(cp, configs[j].axes)
    ensures forall axes :: ValidChoice(cp, axes) ==> exists j :: 0 <= j < |configs| && configs[j].axes == axes
    ensures forall j, j' :: 0 <= j < j' < |configs| ==> LexLess(configs[j].axes, configs[j'].axes)
  {
    configs := [];
    ghost var valid := ValidIndices(cp);
    ghost var src: seq<nat> := [];
    var n := 0;
    while n < 729
      invariant n <= 729
      invariant KeptUpTo(src, n, valid)
      invariant configs == ConfigsOf(cp, src)
    {
      var indices := Digits(n, 3, 6);
      var selected, numbers := SelectPairs(cp, indices);
      assert Balanced(numbers) <==> n in valid;
      ConfigsOfAppend(cp, src, n);
      if Balanced(numbers) {
        EnumerateKeep(src, n, valid);
        configs := configs + [Config(indices, selected)];
        src := src + [n];
      } else {
        EnumerateSkip(src, n, valid);
      }
      n := n + 1;
    }
    SoundByIndex(cp, src);
    SortedByIndex(cp, src);
    CompleteByIndex(cp, src);
  }

  // ---------------------------------------------------------------------------
  // Compatible pairs of configs
  // ---------------------------------------------------------------------------

  /** `(i, j)` comes before `(i', j')` in the order the nested loops visit them. */
  predicate PairBefore(p: (nat, nat), q: (nat, nat))
  {
    p.0 < q.0 || (p.0 == q.0 && p.1 < q.1)
  }

  /** The `collision` loop: whether the two axis choices agree on some cube. */
  method AxesCollide(a: seq<nat>, b: seq<nat>) returns (collision: bool)
    requires |a| == 6 && |b| == 6
    ensures collision <==> !AxesDisjoint(a, b)
  {
    collision := false;
    var k := 0;
    while k < 6
      invariant 0 <= k <= 6
      invariant forall q :: 0 <= q < k ==> a[q] != b[q]
    {
      if a[k] == b[k] {
        collision := true;
        break;
      }
      k := k + 1;
    }
  }

  /**
   * `solutions`: in the nested-loop order, every pair of configs at positions
   * `i < j` whose axes differ on every cube. The ghost `idx` holds the
   * positions each solution came from.
   */
  method FindCompatible(configs: seq<Config>) returns (solutions: seq<(Config, Config)>, ghost idx: seq<(nat, nat)>)
    requires forall j :: 0 <= j < |configs| ==> |configs[j].axes| == 6
    ensures |idx| == |solutions|
    ensures forall m :: 0 <= m < |idx| ==>
              idx[m].0 < idx[m].1 < |configs| &&
              solutions[m] == (configs[idx[m].0], configs[idx[m].1]) &&
              AxesDisjoint(configs[idx[m].0].axes, configs[idx[m].1].axes)
    ensures forall i, j :: 0 <= i < j < |configs| && AxesDisjoint(configs[i].axes, configs[j].axes) ==> (i, j) in idx
    ensures forall m, m' :: 0 <= m < m' < |idx| ==> PairBefore(idx[m], idx[m'])
    ensures solutions == [] <==> forall i, j :: 0 <= i < j < |configs| ==> !AxesDisjoint(configs[i].axes, configs[j].axes)
    ensures solutions != [] ==> FirstCompatible(configs, solutions[0])
  {
    solutions := [];
    idx := [];
    var i := 0;
    while i < |configs|
      invariant 0 <= i <= |configs|
      invariant Found(configs, solutions, idx, i, i + 1)
    {
      solutions, idx := ScanRow(configs, solutions, idx, i);
      FoundNextRow(configs, solutions, idx, i);
      i := i + 1;
    }
    FoundAll(configs, solutions, idx);
    FoundFirst(configs, solutions, idx);
  }

  /** The inner loop of the compatibility search: row `i` against every later config. */
  method ScanRow(configs: seq<Config>, solutions0: seq<(Config, Config)>, ghost idx0: seq<(nat, nat)>, i: nat)
    returns (solutions: seq<(Config, Config)>, ghost idx: seq<(nat, nat)>)
    requires forall j :: 0 <= j < |configs| ==> |configs[j].axes| == 6
    requires i < |configs| && Found(configs, solutions0, idx0, i, i + 1)
    ensures Found(configs, solutions, idx, i, |configs|)
  {
    solutions, idx := solutions0, idx0;
    var j := i + 1;
    while j < |configs|
      invariant i + 1 <= j <= |configs|
      invariant Found(configs, solutions, idx, i, j)
    {
      var c1, c2 := configs[i], configs[j];
      var collision := AxesCollide(c1.axes, c2.axes);
      FoundVisit(configs, solutions, idx, i, j, collision);
      if !collision {
        solutions := solutions + [(c1, c2)];
        idx := idx + [(i, j)];
      }
      j := j + 1;
    }
  }

  /**
   * The search state before visiting position pair `(i, j)` (rows before `i`
   * finished, row `i` done up to `j`): the solutions so far are the
   * compatible pairs visited, in visiting order.
   */
  ghost predicate Found(configs: seq<Config>, solutions: seq<(Config, Config)>, idx: seq<(nat, nat)>, i: nat, j: nat)
  {
    && |idx| == |solutions|
    && (forall m :: 0 <= m < |idx| ==>
          idx[m].0 < idx[m].1 < |configs| && PairBefore(idx[m], (i, j)) &&
          solutions[m] == (configs[idx[m].0], configs[idx[m].1]) &&
          AxesDisjoint(configs[idx[m].0].axes, configs[idx[m].1].axes))
    && (forall p, q ::
          (0 <= p < q < |configs| && PairBefore((p, q), (i, j)) && AxesDisjoint(configs[p].axes, configs[q].axes))
          ==> (p, q) in idx)
    && (forall m, m' :: 0 <= m < m' < |idx| ==> PairBefore(idx[m], idx[m']))
  }

  /** Visiting pair `(i, j)` records it exactly when it does not collide. */
  lemma FoundVisit(configs: seq<Config>, solutions: seq<(Config, Config)>, idx: seq<(nat, nat)>, i: nat, j: nat, collision: bool)
    requires i < j < |configs| && (collision <==> !AxesDisjoint(configs[i].axes, configs[j].axes))
    requires Found(configs, solutions, idx, i, j)
    ensures !collision ==> Found(configs, solutions + [(configs[i], configs[j])], idx + [(i, j)], i, j + 1)
    ensures collision ==> Found(configs, solutions, idx, i, j + 1)
  {
    if collision {
      FoundSkip(configs, solutions, idx, i, j);
    } else {
      FoundKeep(configs, solutions, idx, i, j);
    }
  }

  /** Visiting a compatible pair records it. */
  lemma FoundKeep(configs: seq<Config>, solutions: seq<(Config, Config)>, idx: seq<(nat, nat)>, i: nat, j: nat)
    requires i < j < |configs| && AxesDisjoint(configs[i].axes, configs[j].axes)
    requires Found(configs, solutions, idx, i, j)
    ensures Found(configs, solutions + [(configs[i], configs[j])], idx + [(i, j)], i, j + 1)
  {
    var idx' := idx + [(i, j)];
    var solutions' := solutions + [(configs[i], configs[j])];
    assert forall m :: 0 <= m < |idx| ==> idx'[m] == idx[m] && solutions'[m] == solutions[m];
    assert idx'[|idx|] == (i, j);
  }

  /** Visiting a colliding pair records nothing. */
  lemma FoundSkip(configs: seq<Config>, solutions: seq<(Config, Config)>, idx: seq<(nat, nat)>, i: nat, j: nat)
    requires i < j < |configs| && !AxesDisjoint(configs[i].axes, configs[j].axes)
    requires Found(configs, solutions, idx, i, j)
    ensures Found(configs, solutions, idx, i, j + 1)
  {
  }

  /** Finishing row `i` leaves all pairs `(i, j)` visited, which is all pairs before `(i + 1, i + 2)`. */
  lemma FoundNextRow(configs: seq<Config>, solutions: seq<(Config, Config)>, idx: seq<(nat, nat)>, i: nat)
    requires i < |configs|
    requires Found(configs, solutions, idx, i, |configs|)
    ensures Found(configs, solutions, idx, i + 1, i + 2)
  {
  }

  lemma FoundAll(configs: seq<Config>, solutions: seq<(Config, Config)>, idx: seq<(nat, nat)>)
    requires Found(configs, solutions, idx, |configs|, |configs| + 1)
    ensures Compatibles(configs, solutions, idx)
  {
  }

  /**
   * `sol` is the pair of configs at the first positions `i < j`, in the
   * nested-loop order, whose axes differ on every cube.
   */
  ghost predicate FirstCompatible(configs: seq<Config>, sol: (Config, Config))
  {
    exists i, j ::
      && 0 <= i < j < |configs|
      && sol == (configs[i], configs[j])
      && AxesDisjoint(configs[i].axes, configs[j].axes)
      && forall p, q :: 0 <= p < q < |configs| && AxesDisjoint(configs[p].axes, configs[q].axes) ==>
           (p, q) == (i, j) || PairBefore((i, j), (p, q))
  }

  /** The finished search is empty exactly when no pair is compatible, and otherwise starts with the first compatible pair. */
  lemma FoundFirst(configs: seq<Config>, solutions: seq<(Config, Config)>, idx: seq<(nat, nat)>)
    requires Found(configs, solutions, idx, |configs|, |configs| + 1)
    ensures solutions == [] <==> forall i, j :: 0 <= i < j < |configs| ==> !AxesDisjoint(configs[i].axes, configs[j].axes)
    ensures solutions != [] ==> FirstCompatible(configs, solutions[0])
  {
    if solutions != [] {
      var i, j := idx[0].0, idx[0].1;
      forall p, q | 0 <= p < q < |configs| && AxesDisjoint(configs[p].axes, configs[q].axes)
        ensures (p, q) == (i, j) || PairBefore((i, j), (p, q))
      {
        assert (p, q) in idx;
        var m :| 0 <= m < |idx| && idx[m] == (p, q);
        if m > 0 {
          assert PairBefore(idx[0], idx[m]);
        }
      }
    }
  }

  // ---------------------------------------------------------------------------
  // resolve_orientation
  // ---------------------------------------------------------------------------

  /** `[pairs_list[k][flips[k]] for k in range(6)]`: the smaller value of pair `k` where `flips[k]` is 0, the larger otherwise. */
  function Pick(pairs: seq<Pair>, flips: seq<nat>): (primary: seq<int>)
    requires |flips| == |pairs|
    ensures |primary| == |pairs|
    ensures forall k :: 0 <= k < |pairs| ==> InPair(primary[k], pairs[k])
  {
    seq(|pairs|, (k: int) requires 0 <= k < |pairs| => if flips[k] == 0 then pairs[k].lo else pairs[k].hi)
  }

  /** No tuple of `product([0, 1], repeat=6)` picks six different values. */
  ghost predicate NoDistinctPick(pairs: seq<Pair>)
    requires |pairs| == 6
  {
    forall flips :: IsTuple(flips, 2, 6) ==> !Distinct(Pick(pairs, flips))
  }

  /** `flips` picks six different values and is the first such tuple of `product([0, 1], repeat=6)`. */
  ghost predicate FirstDistinct(pairs: seq<Pair>, flips: seq<nat>)
    requires |pairs| == 6
  {
    && IsTuple(flips, 2, 6)
    && Distinct(Pick(pairs, flips))
    && forall e :: IsTuple(e, 2, 6) && LexLess(e, flips) ==> !Distinct(Pick(pairs, e))
  }

  /**
   * `resolve_orientation`: the picks of the first flip tuple whose six values
   * differ, or `[]` when there is none. The ghost `flips` is that tuple.
   */
  method ResolveOrientation(pairs: seq<Pair>) returns (primary: seq<int>, ghost flips: seq<nat>)
    requires |pairs| == 6
    ensures primary == [] <==> NoDistinctPick(pairs)
    ensures primary != [] ==> FirstDistinct(pairs, flips) && primary == Pick(pairs, flips)
  {
    ProductSizes();
    var n := 0;
    while n < 64
      invariant n <= 64
      invariant forall m :: 0 <= m < n ==> !Distinct(Pick(pairs, Digits(m, 2, 6)))
    {
      var candidate := Pick(pairs, Digits(n, 2, 6));
      DistinctIffFullSet(candidate);
      if |Elements(candidate)| == 6 {
        flips := Digits(n, 2, 6);
        FirstFlipsFound(pairs, n);
        return candidate, flips;
      }
      FlipsFailStep(pairs, n);
      n := n + 1;
    }
    AllFlipsFail(pairs);
    return [], [];
  }

  /** If no index below `n` picks distinct values, no tuple before the `n`-th does. */
  lemma EarlierFlipsFail(pairs: seq<Pair>, n: nat)
    requires |pairs| == 6 && n < 64
    requires forall m :: 0 <= m < n ==> !Distinct(Pick(pairs, Digits(m, 2, 6)))
    ensures forall e :: IsTuple(e, 2, 6) && LexLess(e, Digits(n, 2, 6)) ==> !Distinct(Pick(pairs, e))
  {
    ProductSizes();
    forall e | IsTuple(e, 2, 6) && LexLess(e, Digits(n, 2, 6))
      ensures !Distinct(Pick(pairs, e))
    {
      EarlierTuple(e, n, 2, 6);
    }
  }

  lemma FlipsFailStep(pairs: seq<Pair>, n: nat)
    requires |pairs| == 6
    requires forall m :: 0 <= m < n ==> !Distinct(Pick(pairs, Digits(m, 2, 6)))
    requires |Elements(Pick(pairs, Digits(n, 2, 6)))| != 6
    ensures forall m :: 0 <= m < n + 1 ==> !Distinct(Pick(pairs, Digits(m, 2, 6)))
  {
    DistinctIffFullSet(Pick(pairs, Digits(n, 2, 6)));
  }

  /** The first index whose picks differ gives the first such tuple, so some tuple does. */
  lemma FirstFlipsFound(pairs: seq<Pair>, n: nat)
    requires |pairs| == 6 && n < 64
    requires forall m :: 0 <= m < n ==> !Distinct(Pick(pairs, Digits(m, 2, 6)))
    requires Distinct(Pick(pairs, Digits(n, 2, 6)))
    ensures FirstDistinct(pairs, Digits(n, 2, 6)) && !NoDistinctPick(pairs)
  {
    EarlierFlipsFail(pairs, n);
  }

  /** If none of the 64 indices picks distinct values, no tuple does. */
  lemma AllFlipsFail(pairs: seq<Pair>)
    requires |pairs| == 6
    requires forall m :: 0 <= m < 64 ==> !Distinct(Pick(pairs, Digits(m, 2, 6)))
    ensures NoDistinctPick(pairs)
  {
    ProductSizes();
    forall e | IsTuple(e, 2, 6)
      ensures !Distinct(Pick(pairs, e))
    {
      ValueBelowPow(e, 2);
      DigitsOfValue(e, 2);
    }
  }

  // ---------------------------------------------------------------------------
  // solve_specific_format
  // ---------------------------------------------------------------------------

  /** What `EnumerateConfigs` promises about its result. */
  ghost predicate Enumerated(cp: seq<seq<Pair>>, configs: seq<Config>)
    requires PairTable(cp)
  {
    && (forall j :: 0 <= j < |configs| ==>
          ValidChoice(cp, configs[j].axes) && configs[j].pairs == Select(cp, configs[j].axes))
    && (forall axes :: ValidChoice(cp, axes) ==> exists j :: 0 <= j < |configs| && configs[j].axes == axes)
    && (forall j, j' :: 0 <= j < j' < |configs| ==> LexLess(configs[j].axes, configs[j'].axes))
  }

  /** What `FindCompatible` promises about its result. */
  ghost predicate Compatibles(configs: seq<Config>, solutions: seq<(Config, Config)>, idx: seq<(nat, nat)>)
  {
    && |idx| == |solutions|
    && (forall m :: 0 <= m < |idx| ==>
          idx[m].0 < idx[m].1 < |configs| &&
          solutions[m] == (configs[idx[m].0], configs[idx[m].1]) &&
          AxesDisjoint(configs[idx[m].0].axes, configs[idx[m].1].axes))
    && (forall i, j :: 0 <= i < j < |configs| && AxesDisjoint(configs[i].axes, configs[j].axes) ==> (i, j) in idx)
    && (forall m, m' :: 0 <= m < m' < |idx| ==> PairBefore(idx[m], idx[m']))
  }

  /** Two valid choices that use a different axis on every cube exist. */
  ghost predicate Solvable(cp: seq<seq<Pair>>)
    requires PairTable(cp)
  {
    exists a, b :: ValidChoice(cp, a) && ValidChoice(cp, b) && AxesDisjoint(a, b)
  }

  /**
   * `(a, b)` is a solution with `a` before `b`, and no other such solution
   * comes before it when solutions are ordered by `a`, then by `b`.
   */
  ghost predicate FirstSolution(cp: seq<seq<Pair>>, a: seq<nat>, b: seq<nat>)
    requires PairTable(cp)
  {
    && ValidChoice(cp, a) && ValidChoice(cp, b) && AxesDisjoint(a, b) && LexLess(a, b)
    && forall a', b' ::
         (ValidChoice(cp, a') && ValidChoice(cp, b') && AxesDisjoint(a', b') && LexLess(a', b'))
         ==> LexLess(a, a') || (a == a' && (b == b' || LexLess(b, b')))
  }

  /** In a sorted, complete list of configs, two valid choices in lexicographic order sit in that order. */
  lemma PositionsFollowOrder(cp: seq<seq<Pair>>, configs: seq<Config>, a: seq<nat>, b: seq<nat>) returns (p: nat, q: nat)
    requires PairTable(cp) && Enumerated(cp, configs)
    requires ValidChoice(cp, a) && ValidChoice(cp, b) && LexLess(a, b)
    ensures p < q < |configs| && configs[p].axes == a && configs[q].axes == b
  {
    p :| 0 <= p < |configs| && configs[p].axes == a;
    q :| 0 <= q < |configs| && configs[q].axes == b;
    LexLessAsymmetric(a, b);
    if q < p {
      LexLessAsymmetric(b, a);
    }
  }

  /** The search finds some pair of configs exactly when the cubes are solvable. */
  lemma SolutionsIffSolvable(cp: seq<seq<Pair>>, configs: seq<Config>, solutions: seq<(Config, Config)>, idx: seq<(nat, nat)>)
    requires PairTable(cp) && Enumerated(cp, configs) && Compatibles(configs, solutions, idx)
    ensures solutions == [] <==> !Solvable(cp)
  {
    if solutions != [] {
      FoundIsSolution(cp, configs, solutions, idx);
    }
    if Solvable(cp) {
      var a, b :| ValidChoice(cp, a) && ValidChoice(cp, b) && AxesDisjoint(a, b);
      SolutionIsFound(cp, configs, solutions, idx, a, b);
    }
  }

  lemma FoundIsSolution(cp: seq<seq<Pair>>, configs: seq<Config>, solutions: seq<(Config, Config)>, idx: seq<(nat, nat)>)
    requires PairTable(cp) && Enumerated(cp, configs) && Compatibles(configs, solutions, idx)
    requires solutions != []
    ensures Solvable(cp)
  {
    var a, b := configs[idx[0].0].axes, configs[idx[0].1].axes;
    assert ValidChoice(cp, a) && ValidChoice(cp, b) && AxesDisjoint(a, b);
  }

  lemma SolutionIsFound(cp: seq<seq<Pair>>, configs: seq<Config>, solutions: seq<(Config, Config)>, idx: seq<(nat, nat)>, a: seq<nat>, b: seq<nat>)
    requires PairTable(cp) && Enumerated(cp, configs) && Compatibles(configs, solutions, idx)
    requires ValidChoice(cp, a) && ValidChoice(cp, b) && AxesDisjoint(a, b)
    ensures solutions != []
  {
    var p :| 0 <= p < |configs| && configs[p].axes == a;
    var q :| 0 <= q < |configs| && configs[q].axes == b;
    assert a[0] != b[0];
    if p < q {
      assert (p, q) in idx;
    } else {
      assert AxesDisjoint(configs[q].axes, configs[p].axes);
      assert (q, p) in idx;
    }
  }

  /** The first pair found is the first solution, and its configs carry the pairs their axes select. */
  lemma FirstFoundIsFirstSolution(cp: seq<seq<Pair>>, configs: seq<Config>, solutions: seq<(Config, Config)>, idx: seq<(nat, nat)>)
    requires PairTable(cp) && Enumerated(cp, configs) && Compatibles(configs, solutions, idx)
    requires solutions != []
    ensures FirstSolution(cp, solutions[0].0.axes, solutions[0].1.axes)
    ensures solutions[0].0.pairs == Select(cp, solutions[0].0.axes)
    ensures solutions[0].1.pairs == Select(cp, solutions[0].1.axes)
  {
    var (i, j) := idx[0];
    var a, b := configs[i].axes, configs[j].axes;
    forall a', b' | ValidChoice(cp, a') && ValidChoice(cp, b') && AxesDisjoint(a', b') && LexLess(a', b')
      ensures LexLess(a, a') || (a == a' && (b == b' || LexLess(b, b')))
    {
      var p, q := PositionsFollowOrder(cp, configs, a', b');
      assert (p, q) in idx;
      var m :| 0 <= m < |idx| && idx[m] == (p, q);
      if m > 0 {
        assert PairBefore(idx[0], idx[m]);
      }
    }
  }

  /** One line of the printed table: the turned cube, or the "Impossible Geometry" error with its targets. */
  datatype Row = Placed(state: Cube) | ImpossibleGeometry(front: int, left: int)

  /**
   * How `solve_specific_format` ends: "NO SOLUTION FOUND.", an `IndexError`
   * from indexing an empty list of picks, or the table of six rows.
   */
  datatype Outcome = NoSolution | Unresolvable | Solved(rows: seq<Row>)

  /**
   * `row` is a reachable state of `cube` showing the targets (the cube as
   * given when it already shows them), or the error row when no reachable
   * state does.
   */
  ghost predicate RowFor(cube: Cube, front: int, left: int, row: Row)
  {
    match row
    case Placed(s) => Reachable(cube, s) && Shows(s, front, left) && (Shows(cube, front, left) ==> s == cube)
    case ImpossibleGeometry(f, l) => f == front && l == left && forall s :: Reachable(cube, s) ==> !Shows(s, front, left)
  }

  /** The final loop: each of the first six cubes turned to show its front and left targets, or the error row. */
  method PlaceCubes(cubes: seq<Cube>, fronts: seq<int>, lefts: seq<int>) returns (rows: seq<Row>)
    requires |cubes| >= 6 && |fronts| == 6 && |lefts| == 6
    ensures |rows| == 6
    ensures forall i :: 0 <= i < 6 ==> RowFor(cubes[i], fronts[i], lefts[i], rows[i])
  {
    rows := [];
    var i := 0;
    while i < 6
      invariant 0 <= i <= 6 && |rows| == i
      invariant forall k :: 0 <= k < i ==> RowFor(cubes[k], fronts[k], lefts[k], rows[k])
    {
      var rotated := RotateTo(cubes[i], fronts[i], lefts[i]);
      if rotated.Some? {
        rows := rows + [Placed(rotated.value)];
      } else {
        rows := rows + [ImpossibleGeometry(fronts[i], lefts[i])];
      }
      i := i + 1;
    }
  }

  /**
   * The table of a solved run: the front and left targets are the picks of
   * the first distinct flip tuples of the two configs' pairs, and each row
   * is the first six cubes' row for those targets.
   */
  ghost predicate SolvedBy(cubes: seq<Cube>, fb: seq<nat>, lr: seq<nat>, frontFlips: seq<nat>, leftFlips: seq<nat>, rows: seq<Row>)
    requires |cubes| >= 6 && IsTuple(fb, 3, 6) && IsTuple(lr, 3, 6)
  {
    var cp := CubePairs(cubes);
    var fbPairs, lrPairs := Select(cp, fb), Select(cp, lr);
    && FirstDistinct(fbPairs, frontFlips) && FirstDistinct(lrPairs, leftFlips)
    && |rows| == 6
    && forall i :: 0 <= i < 6 ==> RowFor(cubes[i], Pick(fbPairs, frontFlips)[i], Pick(lrPairs, leftFlips)[i], rows[i])
  }

  /**
   * `solve_specific_format`, without its printing. The ghost results name
   * the solution's Front/Back axes `fb` and Left/Right axes `lr` and the
   * flip tuples that resolved them.
   */
  method Solve(cubes: seq<Cube>) returns (outcome: Outcome, ghost fb: seq<nat>, ghost lr: seq<nat>, ghost frontFlips: seq<nat>, ghost leftFlips: seq<nat>)
    requires |cubes| >= 6
    ensures outcome.NoSolution? <==> !Solvable(CubePairs(cubes))
    ensures !outcome.NoSolution? ==> FirstSolution(CubePairs(cubes), fb, lr)
    ensures outcome.Unresolvable? <==>
              !outcome.NoSolution? && (NoDistinctPick(Select(CubePairs(cubes), fb)) || NoDistinctPick(Select(CubePairs(cubes), lr)))
    ensures outcome.Solved? ==> SolvedBy(cubes, fb, lr, frontFlips, leftFlips, outcome.rows)
  {
    var cp := ExtractPairs(cubes);
    assert cp == CubePairs(cubes);
    var configs := EnumerateConfigs(cp);
    var solutions;
    ghost var idx;
    solutions, idx := FindCompatible(configs);
    SolutionsIffSolvable(cp, configs, solutions, idx);
    if solutions == [] {
      outcome, fb, lr, frontFlips, leftFlips := NoSolution, [], [], [], [];
      return;
    }
    var solFb, solLr := solutions[0].0, solutions[0].1;
    FirstFoundIsFirstSolution(cp, configs, solutions, idx);
    fb, lr := solFb.axes, solLr.axes;
    var finalFronts, finalLefts;
    finalFronts, frontFlips := ResolveOrientation(solFb.pairs);
    finalLefts, leftFlips := ResolveOrientation(solLr.pairs);
    if finalFronts == [] || finalLefts == [] {
      outcome := Unresolvable;
      return;
    }
    var rows := PlaceCubes(cubes, finalFronts, finalLefts);
    outcome := Solved(rows);
  }

  // ---------------------------------------------------------------------------
  // What a solved run shows
  // ---------------------------------------------------------------------------

  /** A value of pair `a` of a cube sits in one of that pair's two slots. */
  lemma PairValueAtSlot(c: Cube, a: nat, v: int) returns (slot: Slot)
    requires a < 3 && InPair(v, Pairs(c)[a])
    ensures slot / 2 == a && c[slot] == v
  {
    assert Pairs(c)[a] == SortedPair(c[2 * a], c[2 * a + 1]) by {
      if a == 0 {} else if a == 1 {} else {}
    }
    slot := if v == c[2 * a] then 2 * a else 2 * a + 1;
  }

  /** On a cube whose six values differ, a value belongs to one pair only. */
  lemma ValueInOnePair(c: Cube, a: nat, a': nat, v: int)
    requires Distinct(c) && a < 3 && a' < 3
    requires InPair(v, Pairs(c)[a]) && InPair(v, Pairs(c)[a'])
    ensures a == a'
  {
    var slot := PairValueAtSlot(c, a, v);
    var slot' := PairValueAtSlot(c, a', v);
    SameValueSameSlot(c, slot, slot');
  }

  /**
   * Row `i` of a solved run is placed: its front target lies on one axis
   * of the cube and its left target on another, and two faces of different
   * axes can always be shown at Front and Left together.
   */
  lemma RowPlaced(cubes: seq<Cube>, fb: seq<nat>, lr: seq<nat>, frontFlips: seq<nat>, leftFlips: seq<nat>, rows: seq<Row>, i: nat)
    requires |cubes| >= 6 && FirstSolution(CubePairs(cubes), fb, lr)
    requires SolvedBy(cubes, fb, lr, frontFlips, leftFlips, rows)
    requires i < 6
    ensures rows[i].Placed?
  {
    var cp := CubePairs(cubes);
    var c := cubes[i];
    var front := Pick(Select(cp, fb), frontFlips)[i];
    var left := Pick(Select(cp, lr), leftFlips)[i];
    assert Select(cp, fb)[i] == Pairs(c)[fb[i]] && Select(cp, lr)[i] == Pairs(c)[lr[i]];
    var f := PairValueAtSlot(c, fb[i], front);
    var l := PairValueAtSlot(c, lr[i], left);
    assert fb[i] != lr[i];
    AdjacentSlotsReachable(c, f, l);
    var s :| Reachable(c, s) && s[Front] == c[f] && s[Left] == c[l];
    assert Shows(s, front, left);
  }

  /** The "Impossible Geometry" row never occurs in a solved run. */
  lemma SolvedRowsPlaced(cubes: seq<Cube>, fb: seq<nat>, lr: seq<nat>, frontFlips: seq<nat>, leftFlips: seq<nat>, rows: seq<Row>)
    requires |cubes| >= 6 && FirstSolution(CubePairs(cubes), fb, lr)
    requires SolvedBy(cubes, fb, lr, frontFlips, leftFlips, rows)
    ensures forall i :: 0 <= i < 6 ==> rows[i].Placed?
  {
    forall i | 0 <= i < 6
      ensures rows[i].Placed?
    {
      RowPlaced(cubes, fb, lr, frontFlips, leftFlips, rows, i);
    }
  }

  /**
   * On a cube whose six values differ, row `i` of a solved run shows the
   * chosen Front/Back pair on its Front and Back and the chosen Left/Right
   * pair on its Left and Right.
   */
  lemma PlacedRowShowsPairs(cubes: seq<Cube>, fb: seq<nat>, lr: seq<nat>, frontFlips: seq<nat>, leftFlips: seq<nat>, rows: seq<Row>, i: nat)
    requires |cubes| >= 6 && FirstSolution(CubePairs(cubes), fb, lr)
    requires SolvedBy(cubes, fb, lr, frontFlips, leftFlips, rows)
    requires i < 6 && Distinct(cubes[i])
    ensures rows[i].Placed?
    ensures SortedPair(rows[i].state[Front], rows[i].state[Back]) == Select(CubePairs(cubes), fb)[i]
    ensures SortedPair(rows[i].state[Left], rows[i].state[Right]) == Select(CubePairs(cubes), lr)[i]
  {
    RowPlaced(cubes, fb, lr, frontFlips, leftFlips, rows, i);
    var cp := CubePairs(cubes);
    var c, s := cubes[i], rows[i].state;
    assert Select(cp, fb)[i] == Pairs(c)[fb[i]] && Select(cp, lr)[i] == Pairs(c)[lr[i]];
    ReachableKeepsPairs(c, s);
    var fbPair, lrPair := SortedPair(s[Front], s[Back]), SortedPair(s[Left], s[Right]);
    var a :| 0 <= a < 3 && Pairs(c)[a] == fbPair;
    var a' :| 0 <= a' < 3 && Pairs(c)[a'] == lrPair;
    ValueInOnePair(c, a, fb[i], s[Front]);
    ValueInOnePair(c, a', lr[i], s[Left]);
  }

  /** Six different picks from the pairs of a valid choice are the values 1..6, each once. */
  lemma DistinctPickCoversValues(cp: seq<seq<Pair>>, axes: seq<nat>, flips: seq<nat>)
    requires PairTable(cp) && ValidChoice(cp, axes) && |flips| == 6
    requires Distinct(Pick(Select(cp, axes), flips))
    ensures Elements(Pick(Select(cp, axes), flips)) == FaceValues
  {
    var selected := Select(cp, axes);
    BalancedInRange(Values(selected));
    PicksInRange(selected, flips);
    SixDistinctInRange(Pick(selected, flips));
  }

  lemma PicksInRange(selected: seq<Pair>, flips: seq<nat>)
    requires |selected| == 6 && |flips| == 6
    requires forall i :: 0 <= i < 12 ==> 1 <= Values(selected)[i] <= 6
    ensures forall k :: 0 <= k < 6 ==> 1 <= Pick(selected, flips)[k] <= 6
  {
    var numbers := Values(selected);
    forall k | 0 <= k < 6
      ensures 1 <= Pick(selected, flips)[k] <= 6
    {
      assert numbers[2 * k] == selected[k].lo && numbers[2 * k + 1] == selected[k].hi;
    }
  }

  /** Six different values in 1..6 are all of 1..6. */
  lemma SixDistinctInRange(picks: seq<int>)
    requires |picks| == 6 && Distinct(picks)
    requires forall k :: 0 <= k < 6 ==> 1 <= picks[k] <= 6
    ensures Elements(picks) == FaceValues
  {
    DistinctIffFullSet(picks);
    FaceValuesShape();
    forall x | x in Elements(picks)
      ensures x in FaceValues
    {
      var k :| 0 <= k < 6 && picks[k] == x;
    }
    SubsetAsLargeIsEqual(Elements(picks), FaceValues);
  }

  /** The face values of the puzzle. */
  const FaceValues: set<int> := {1, 2, 3, 4, 5, 6}

  lemma FaceValuesShape()
    ensures |FaceValues| == 6
    ensures forall x :: x in FaceValues <==> 1 <= x <= 6
  {
  }

  /** In a solved run the fronts, and likewise the lefts, are the values 1..6, each once. */
  lemma SolvedTargetsCoverValues(cubes: seq<Cube>, fb: seq<nat>, lr: seq<nat>, frontFlips: seq<nat>, leftFlips: seq<nat>, rows: seq<Row>)
    requires |cubes| >= 6 && FirstSolution(CubePairs(cubes), fb, lr)
    requires SolvedBy(cubes, fb, lr, frontFlips, leftFlips, rows)
    ensures Elements(Pick(Select(CubePairs(cubes), fb), frontFlips)) == FaceValues
    ensures Elements(Pick(Select(CubePairs(cubes), lr), leftFlips)) == FaceValues
  {
    DistinctPickCoversValues(CubePairs(cubes), fb, frontFlips);
    DistinctPickCoversValues(CubePairs(cubes), lr, leftFlips);
  }

  /** The value of each pair that is not picked: what shows opposite the pick. */
  function Other(pairs: seq<Pair>, flips: seq<nat>): (rest: seq<int>)
    requires |flips| == |pairs|
    ensures |rest| == |pairs|
  {
    seq(|pairs|, (k: int) requires 0 <= k < |pairs| => if flips[k] == 0 then pairs[k].hi else pairs[k].lo)
  }

  /** The picks and the values left over hold together exactly the values of the pairs. */
  lemma {:induction false} PickAndOther(pairs: seq<Pair>, flips: seq<nat>)
    requires |flips| == |pairs|
    ensures multiset(Pick(pairs, flips)) + multiset(Other(pairs, flips)) == multiset(Values(pairs))
  {
    if pairs != [] {
      var n := |pairs| - 1;
      PickAndOther(pairs[..n], flips[..n]);
      LastPickAndOther(pairs, flips);
      var p, rest := Pick(pairs, flips)[n], Other(pairs, flips)[n];
      MultisetSnoc(Pick(pairs[..n], flips[..n]), Other(pairs[..n], flips[..n]), Values(pairs[..n]), p, rest, pairs[n]);
    }
  }

  /** Dropping the last pair drops the last pick and the last value left over; those two are that pair's values. */
  lemma LastPickAndOther(pairs: seq<Pair>, flips: seq<nat>)
    requires |flips| == |pairs| > 0
    ensures var n := |pairs| - 1;
            && Pick(pairs, flips) == Pick(pairs[..n], flips[..n]) + [Pick(pairs, flips)[n]]
            && Other(pairs, flips) == Other(pairs[..n], flips[..n]) + [Other(pairs, flips)[n]]
            && Values(pairs) == Values(pairs[..n]) + [pairs[n].lo, pairs[n].hi]
            && multiset{Pick(pairs, flips)[n], Other(pairs, flips)[n]} == multiset{pairs[n].lo, pairs[n].hi}
  {
    var n := |pairs| - 1;
    PickSnoc(pairs, flips);
    OtherSnoc(pairs, flips);
    if flips[n] != 0 {
      SwapTwo(pairs[n].lo, pairs[n].hi);
    }
  }

  lemma PickSnoc(pairs: seq<Pair>, flips: seq<nat>)
    requires |flips| == |pairs| > 0
    ensures var n := |pairs| - 1;
            Pick(pairs, flips) == Pick(pairs[..n], flips[..n]) + [Pick(pairs, flips)[n]]
  {
    var n := |pairs| - 1;
    var picks, picks' := Pick(pairs, flips), Pick(pairs[..n], flips[..n]);
    assert forall k :: 0 <= k < n ==> picks'[k] == picks[k];
  }

  lemma OtherSnoc(pairs: seq<Pair>, flips: seq<nat>)
    requires |flips| == |pairs| > 0
    ensures var n := |pairs| - 1;
            Other(pairs, flips) == Other(pairs[..n], flips[..n]) + [Other(pairs, flips)[n]]
  {
    var n := |pairs| - 1;
    var rest, rest' := Other(pairs, flips), Other(pairs[..n], flips[..n]);
    assert forall k :: 0 <= k < n ==> rest'[k] == rest[k];
  }

  lemma MultisetSnoc(picks: seq<int>, rest: seq<int>, values: seq<int>, p: int, r: int, last: Pair)
    requires multiset(picks) + multiset(rest) == multiset(values)
    requires multiset{p, r} == multiset{last.lo, last.hi}
    ensures multiset(picks + [p]) + multiset(rest + [r]) == multiset(values + [last.lo, last.hi])
  {
  }

  /** The values left over by six different picks from a valid choice are also the values 1..6, each once. */
  lemma OtherCoversValues(cp: seq<seq<Pair>>, axes: seq<nat>, flips: seq<nat>)
    requires PairTable(cp) && ValidChoice(cp, axes) && |flips| == 6
    requires Distinct(Pick(Select(cp, axes), flips))
    ensures Elements(Other(Select(cp, axes), flips)) == FaceValues
    ensures Distinct(Other(Select(cp, axes), flips))
  {
    var selected := Select(cp, axes);
    var picks, rest, numbers := Pick(selected, flips), Other(selected, flips), Values(selected);
    PickAndOther(selected, flips);
    BalancedInRange(numbers);
    BalancedMultiplicity(numbers);
    LeftoverCovers(picks, rest, numbers);
    SixCoveringDistinct(rest);
  }

  /** Six values among which each of 1..6 occurs, and nothing else, are 1..6 without repeats. */
  lemma SixCoveringDistinct(s: seq<int>)
    requires |s| == 6 && forall x :: x in s <==> x in FaceValues
    ensures Elements(s) == FaceValues && Distinct(s)
  {
    SameElements(s, FaceValues);
    FaceValuesShape();
    DistinctIffFullSet(s);
  }

  lemma SameElements(s: seq<int>, values: set<int>)
    requires forall x :: x in s <==> x in values
    ensures Elements(s) == values
  {
    var r := Elements(s);
    assert forall x :: x in r <==> x in values;
    assert r == values;
  }

  /** A balanced list holds each of 1..6 twice. */
  lemma BalancedMultiplicity(numbers: seq<int>)
    requires Balanced(numbers)
    ensures forall x :: x in FaceValues ==> multiset(numbers)[x] == 2
  {
    FaceValuesShape();
    forall x | x in FaceValues
      ensures multiset(numbers)[x] == 2
    {
      CountIsMultiplicity(numbers, x);
    }
  }

  /**
   * When values in 1..6, each twice, are split into picks without repeats and
   * the rest, the rest holds each of 1..6.
   */
  lemma LeftoverCovers(picks: seq<int>, rest: seq<int>, numbers: seq<int>)
    requires multiset(picks) + multiset(rest) == multiset(numbers)
    requires Distinct(picks)
    requires forall i :: 0 <= i < |numbers| ==> 1 <= numbers[i] <= 6
    requires forall x :: x in FaceValues ==> multiset(numbers)[x] == 2
    ensures forall x :: x in rest <==> x in FaceValues
  {
    FaceValuesShape();
    forall x
      ensures x in rest <==> x in FaceValues
    {
      if x in rest {
        assert x in multiset(numbers);
      }
      if x in FaceValues {
        DistinctMultiplicity(picks, x);
      }
    }
  }

  /**
   * On a cube whose six values differ, row `i` of a solved run shows at Back
   * the value its Front/Back pair leaves over and at Right the value its
   * Left/Right pair leaves over.
   */
  lemma RowOpposites(cubes: seq<Cube>, fb: seq<nat>, lr: seq<nat>, frontFlips: seq<nat>, leftFlips: seq<nat>, rows: seq<Row>, i: nat)
    requires |cubes| >= 6 && FirstSolution(CubePairs(cubes), fb, lr)
    requires SolvedBy(cubes, fb, lr, frontFlips, leftFlips, rows)
    requires i < 6 && Distinct(cubes[i])
    ensures rows[i].Placed?
    ensures rows[i].state[Front] == Pick(Select(CubePairs(cubes), fb), frontFlips)[i]
    ensures rows[i].state[Back] == Other(Select(CubePairs(cubes), fb), frontFlips)[i]
    ensures rows[i].state[Left] == Pick(Select(CubePairs(cubes), lr), leftFlips)[i]
    ensures rows[i].state[Right] == Other(Select(CubePairs(cubes), lr), leftFlips)[i]
  {
    PlacedRowShowsPairs(cubes, fb, lr, frontFlips, leftFlips, rows, i);
  }

  /** One side of the stack: the value each of the six placed rows shows at `slot`. */
  function Side(rows: seq<Row>, slot: Slot): (side: seq<int>)
    requires |rows| == 6 && forall i :: 0 <= i < 6 ==> rows[i].Placed?
    ensures |side| == 6
  {
    seq(6, (i: int) requires 0 <= i < 6 => rows[i].state[slot])
  }

  /**
   * For six cubes whose values differ within each cube, a solved run solves
   * the puzzle: every row is placed, and each of the Front, Back, Left and
   * Right sides of the stack shows each of 1..6 exactly once.
   */
  lemma SolvedStackShowsAllValues(cubes: seq<Cube>, fb: seq<nat>, lr: seq<nat>, frontFlips: seq<nat>, leftFlips: seq<nat>, rows: seq<Row>)
    requires |cubes| >= 6 && FirstSolution(CubePairs(cubes), fb, lr)
    requires SolvedBy(cubes, fb, lr, frontFlips, leftFlips, rows)
    requires forall i :: 0 <= i < 6 ==> Distinct(cubes[i])
    ensures forall i :: 0 <= i < 6 ==> rows[i].Placed?
    ensures Elements(Side(rows, Front)) == FaceValues && Distinct(Side(rows, Front))
    ensures Elements(Side(rows, Back)) == FaceValues && Distinct(Side(rows, Back))
    ensures Elements(Side(rows, Left)) == FaceValues && Distinct(Side(rows, Left))
    ensures Elements(Side(rows, Right)) == FaceValues && Distinct(Side(rows, Right))
  {
    var cp := CubePairs(cubes);
    SolvedRowsPlaced(cubes, fb, lr, frontFlips, leftFlips, rows);
    forall i | 0 <= i < 6
      ensures rows[i].state[Front] == Pick(Select(cp, fb), frontFlips)[i]
      ensures rows[i].state[Back] == Other(Select(cp, fb), frontFlips)[i]
      ensures rows[i].state[Left] == Pick(Select(cp, lr), leftFlips)[i]
      ensures rows[i].state[Right] == Other(Select(cp, lr), leftFlips)[i]
    {
      RowOpposites(cubes, fb, lr, frontFlips, leftFlips, rows, i);
    }
    assert Side(rows, Front) == Pick(Select(cp, fb), frontFlips);
    assert Side(rows, Back) == Other(Select(cp, fb), frontFlips);
    assert Side(rows, Left) == Pick(Select(cp, lr), leftFlips);
    assert Side(rows, Right) == Other(Select(cp, lr), leftFlips);
    DistinctPickCoversValues(cp, fb, frontFlips);
    DistinctPickCoversValues(cp, lr, leftFlips);
    OtherCoversValues(cp, fb, frontFlips);
    OtherCoversValues(cp, lr, leftFlips);
  }
}
