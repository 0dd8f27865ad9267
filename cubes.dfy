/**
 * Cubes of the "Instant Insanity" puzzle and their opposing face pairs.
 *
 * A cube is the list of its six face values in slot order
 * Top, Bottom, Front, Back, Left, Right; slots 0-1, 2-3 and 4-5 face each
 * other. A pair is the solver's `tuple(sorted((x, y)))` of two opposite values.
 */
module Cubes {

  datatype Option<T> = None | Some(value: T)

  /** Face values in slot order Top, Bottom, Front, Back, Left, Right. */
  type Cube = c: seq<int> | |c| == 6 witness [0, 0, 0, 0, 0, 0]

  const Top: nat := 0
  const Bottom: nat := 1
  const Front: nat := 2
  const Back: nat := 3
  const Left: nat := 4
  const Right: nat := 5

  /** Two opposite face values, smaller first. */
  datatype Pair = Pair(lo: int, hi: int)

  /** `tuple(sorted((a, b)))`. */
  function SortedPair(a: int, b: int): (p: Pair)
    ensures p.lo <= p.hi
    ensures (p.lo == a && p.hi == b) || (p.lo == b && p.hi == a)
  {
    if a <= b then Pair(a, b) else Pair(b, a)
  }

  lemma SortedPairSymmetric(a: int, b: int)
    ensures SortedPair(a, b) == SortedPair(b, a)
  {
  }

  /** Whether `v` is one of the two values of `p`. */
  predicate InPair(v: int, p: Pair)
  {
    v == p.lo || v == p.hi
  }

  /** The cube's three opposing pairs, from slots (0, 1), (2, 3) and (4, 5) of its given orientation. */
  function Pairs(c: Cube): (ps: seq<Pair>)
    ensures |ps| == 3
  {
    [SortedPair(c[0], c[1]), SortedPair(c[2], c[3]), SortedPair(c[4], c[5])]
  }

  /** Pair `a` of a cube is sorted and holds the values of slots `2a` and `2a+1`. */
  lemma PairOfSlots(c: Cube, a: nat)
    requires a < 3
    ensures Pairs(c)[a].lo <= Pairs(c)[a].hi
    ensures multiset{Pairs(c)[a].lo, Pairs(c)[a].hi} == multiset{c[2 * a], c[2 * a + 1]}
  {
    SortedPairHolds(c[2 * a], c[2 * a + 1]);
    assert Pairs(c)[a] == SortedPair(c[2 * a], c[2 * a + 1]);
  }

  lemma SortedPairHolds(x: int, y: int)
    ensures multiset{SortedPair(x, y).lo, SortedPair(x, y).hi} == multiset{x, y}
  {
    if y < x {
      SwapTwo(x, y);
    }
  }

  /**
   * Each of the three pairs is sorted and holds the values of its two slots;
   * together the pairs hold exactly the cube's six values.
   */
  lemma PairsOfCube(c: Cube)
    ensures forall a :: 0 <= a < 3 ==>
              Pairs(c)[a].lo <= Pairs(c)[a].hi &&
              multiset{Pairs(c)[a].lo, Pairs(c)[a].hi} == multiset{c[2 * a], c[2 * a + 1]}
    ensures multiset(Values(Pairs(c))) == multiset(c)
  {
    forall a | 0 <= a < 3
      ensures Pairs(c)[a].lo <= Pairs(c)[a].hi
      ensures multiset{Pairs(c)[a].lo, Pairs(c)[a].hi} == multiset{c[2 * a], c[2 * a + 1]}
    {
      PairOfSlots(c, a);
    }
    PairsHoldCube(c);
  }

  lemma PairsHoldCube(c: Cube)
    ensures multiset(Values(Pairs(c))) == multiset(c)
  {
    var ps := Pairs(c);
    PairOfSlots(c, 0);
    PairOfSlots(c, 1);
    PairOfSlots(c, 2);
    ValuesOfThree(ps);
    CubeBySlotPairs(c);
  }

  // SwapTwo and UnionReorder state single instances of multiset
  // commutativity; calling them hands the solver the instance it needs.

  lemma SwapTwo(a: int, b: int)
    ensures multiset{b, a} == multiset{a, b}
  {
  }

  lemma UnionReorder<T>(x: multiset<T>, y: multiset<T>, z: multiset<T>)
    ensures y + x + z == x + y + z && x + z + y == x + y + z && z + y + x == x + y + z
  {
  }

  lemma ReorderThree<T>(a: T, b: T, c: T)
    ensures multiset([b, a, c]) == multiset([a, b, c])
    ensures multiset([a, c, b]) == multiset([a, b, c])
    ensures multiset([c, b, a]) == multiset([a, b, c])
  {
    var x, y, z := multiset{a}, multiset{b}, multiset{c};
    MultisetOfThree(a, b, c);
    MultisetOfThree(b, a, c);
    MultisetOfThree(a, c, b);
    MultisetOfThree(c, b, a);
    UnionReorder(x, y, z);
  }

  lemma MultisetOfThree<T>(a: T, b: T, c: T)
    ensures multiset([a, b, c]) == multiset{a} + multiset{b} + multiset{c}
  {
    assert [a, b, c] == [a] + [b] + [c];
  }

  lemma CubeBySlotPairs(c: Cube)
    ensures multiset(c) == multiset{c[0], c[1]} + multiset{c[2], c[3]} + multiset{c[4], c[5]}
  {
    assert c == [c[0], c[1]] + [c[2], c[3]] + [c[4], c[5]];
  }

  lemma ValuesOfThree(ps: seq<Pair>)
    requires |ps| == 3
    ensures multiset(Values(ps)) == multiset{ps[0].lo, ps[0].hi} + multiset{ps[1].lo, ps[1].hi} + multiset{ps[2].lo, ps[2].hi}
  {
    var vs := Values(ps);
    assert vs == [ps[0].lo, ps[0].hi] + [ps[1].lo, ps[1].hi] + [ps[2].lo, ps[2].hi];
  }

  /** The values of `ps`, pair after pair, smaller first: what `all_numbers.extend(p)` collects. */
  function Values(ps: seq<Pair>): (vs: seq<int>)
    ensures |vs| == 2 * |ps|
    ensures forall i :: 0 <= i < |ps| ==> vs[2 * i] == ps[i].lo && vs[2 * i + 1] == ps[i].hi
  {
    if ps == [] then []
    else
      var last := ps[|ps| - 1];
      Values(ps[..|ps| - 1]) + [last.lo, last.hi]
  }
}
