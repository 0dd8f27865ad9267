/**
 * The geometry engine of crazycubes.py: three quarter turns of a cube and the
 * breadth-first search `get_valid_rotation` that turns a cube until its Front
 * and Left faces show the requested values.
 *
 * The turns act on positions, so they apply to any six-slot list: to a cube's
 * face values and equally to a "slot map" `p`, the list of original slots
 * that now sit at each position. The 24 orientations of a cube are the slot
 * maps of `Orientations`; `Orbit(c)` lists the cube `c` in each of them. The
 * lemmas show that the orbit is closed under the turns and that every member
 * of it is reached by a finite sequence of turns, so the orbit is exactly the
 * set of states reachable from `c`, and it has at most 24 members.
 */
module Rotation {
  import opened Cubes
  import opened Counting

  // ---------------------------------------------------------------------------
  // The three quarter turns
  // ---------------------------------------------------------------------------

  /** Quarter turn about the Left-Right axis: Front goes to Top, Bottom to Front, Top to Back, Back to Bottom. */
  function Pitch<T>(c: seq<T>): (r: seq<T>)
    requires |c| == 6
    ensures |r| == 6
  {
    [c[2], c[3], c[1], c[0], c[4], c[5]]
  }

  /** Quarter turn about the Top-Bottom axis: Left goes to Front, Back to Left, Right to Back, Front to Right. */
  function Yaw<T>(c: seq<T>): (r: seq<T>)
    requires |c| == 6
    ensures |r| == 6
  {
    [c[0], c[1], c[4], c[5], c[3], c[2]]
  }

  /** Quarter turn about the Front-Back axis: Left goes to Top, Right to Bottom, Bottom to Left, Top to Right. */
  function Roll<T>(c: seq<T>): (r: seq<T>)
    requires |c| == 6
    ensures |r| == 6
  {
    [c[4], c[5], c[2], c[3], c[1], c[0]]
  }

  datatype Turn = PitchTurn | YawTurn | RollTurn

  function Apply<T>(t: Turn, c: seq<T>): (r: seq<T>)
    requires |c| == 6
    ensures |r| == 6
  {
    match t
    case PitchTurn => Pitch(c)
    case YawTurn => Yaw(c)
    case RollTurn => Roll(c)
  }

  /** The state after performing `turns` on `c`, first turn first. */
  function Perform<T>(c: seq<T>, turns: seq<Turn>): (r: seq<T>)
    requires |c| == 6
    ensures |r| == 6
  {
    if turns == [] then c else Apply(turns[|turns| - 1], Perform(c, turns[..|turns| - 1]))
  }

  /** `s` is what some finite sequence of pitch, yaw and roll turns makes of `c`. */
  ghost predicate Reachable(c: Cube, s: Cube)
  {
    exists turns :: Perform(c, turns) == s
  }

  /** Each turn lists the same six values in another order. */
  lemma TurnPermutesFaces(t: Turn, c: Cube)
    ensures multiset(Apply(t, c)) == multiset(c)
  {
    match t
    case PitchTurn => PitchPermutesFaces(c);
    case YawTurn => YawPermutesFaces(c);
    case RollTurn => RollPermutesFaces(c);
  }

  lemma PitchPermutesFaces(c: Cube)
    ensures multiset(Pitch(c)) == multiset(c)
  {
    CubeBySlotPairs(c);
    CubeBySlotPairs(Pitch(c));
    SwapTwo(c[0], c[1]);
    UnionReorder(multiset{c[0], c[1]}, multiset{c[2], c[3]}, multiset{c[4], c[5]});
  }

  lemma YawPermutesFaces(c: Cube)
    ensures multiset(Yaw(c)) == multiset(c)
  {
    CubeBySlotPairs(c);
    CubeBySlotPairs(Yaw(c));
    SwapTwo(c[2], c[3]);
    UnionReorder(multiset{c[0], c[1]}, multiset{c[2], c[3]}, multiset{c[4], c[5]});
  }

  lemma RollPermutesFaces(c: Cube)
    ensures multiset(Roll(c)) == multiset(c)
  {
    CubeBySlotPairs(c);
    CubeBySlotPairs(Roll(c));
    SwapTwo(c[0], c[1]);
    UnionReorder(multiset{c[0], c[1]}, multiset{c[2], c[3]}, multiset{c[4], c[5]});
  }

  /**
   * Each turn moves opposite slots onto opposite slots, so the three
   * opposing value pairs of the cube are the same before and after the turn.
   */
  lemma TurnKeepsPairs(t: Turn, c: Cube)
    ensures multiset(Pairs(Apply(t, c))) == multiset(Pairs(c))
  {
    match t
    case PitchTurn => PitchKeepsPairs(c);
    case YawTurn => YawKeepsPairs(c);
    case RollTurn => RollKeepsPairs(c);
  }

  lemma PitchKeepsPairs(c: Cube)
    ensures multiset(Pairs(Pitch(c))) == multiset(Pairs(c))
  {
    var p0, p1, p2 := SortedPair(c[0], c[1]), SortedPair(c[2], c[3]), SortedPair(c[4], c[5]);
    SortedPairSymmetric(c[0], c[1]);
    assert Pairs(Pitch(c)) == [p1, p0, p2];
    ReorderThree(p0, p1, p2);
  }

  lemma YawKeepsPairs(c: Cube)
    ensures multiset(Pairs(Yaw(c))) == multiset(Pairs(c))
  {
    var p0, p1, p2 := SortedPair(c[0], c[1]), SortedPair(c[2], c[3]), SortedPair(c[4], c[5]);
    SortedPairSymmetric(c[2], c[3]);
    assert Pairs(Yaw(c)) == [p0, p2, p1];
    ReorderThree(p0, p1, p2);
  }

  lemma RollKeepsPairs(c: Cube)
    ensures multiset(Pairs(Roll(c))) == multiset(Pairs(c))
  {
    var p0, p1, p2 := SortedPair(c[0], c[1]), SortedPair(c[2], c[3]), SortedPair(c[4], c[5]);
    SortedPairSymmetric(c[0], c[1]);
    assert Pairs(Roll(c)) == [p2, p1, p0];
    ReorderThree(p0, p1, p2);
  }

  /** Any sequence of turns keeps the cube's values and its opposing pairs. */
  lemma {:induction false} PerformKeepsFaces(c: Cube, turns: seq<Turn>)
    ensures multiset(Perform(c, turns)) == multiset(c)
    ensures multiset(Pairs(Perform(c, turns))) == multiset(Pairs(c))
  {
    if turns != [] {
      var before: Cube := Perform(c, turns[..|turns| - 1]);
      PerformKeepsFaces(c, turns[..|turns| - 1]);
      TurnPermutesFaces(turns[|turns| - 1], before);
      TurnKeepsPairs(turns[|turns| - 1], before);
    }
  }

  // ---------------------------------------------------------------------------
  // The 24 orientations
  // ---------------------------------------------------------------------------

  type Slot = i: nat | i < 6
  type SlotMap = p: seq<Slot> | |p| == 6 witness [0, 0, 0, 0, 0, 0]
  type Index = k: nat | k < 24

  /** `c` seen in orientation `p`: position `i` shows the face that was at slot `p[i]`. */
  function Permute(c: Cube, p: SlotMap): Cube
  {
    [c[p[0]], c[p[1]], c[p[2]], c[p[3]], c[p[4]], c[p[5]]]
  }

  const Identity: SlotMap := [0, 1, 2, 3, 4, 5]

  /** The 24 orientations, in the order a breadth-first search from `Identity` discovers them. */
  const Orientations: seq<SlotMap> := [
    [0, 1, 2, 3, 4, 5], [2, 3, 1, 0, 4, 5], [0, 1, 4, 5, 3, 2], [4, 5, 2, 3, 1, 0],
    [1, 0, 3, 2, 4, 5], [2, 3, 4, 5, 0, 1], [4, 5, 1, 0, 3, 2], [0, 1, 3, 2, 5, 4],
    [3, 2, 4, 5, 1, 0], [2, 3, 5, 4, 1, 0], [1, 0, 2, 3, 5, 4], [3, 2, 0, 1, 4, 5],
    [1, 0, 4, 5, 2, 3], [4, 5, 3, 2, 0, 1], [2, 3, 0, 1, 5, 4], [1, 0, 5, 4, 3, 2],
    [3, 2, 1, 0, 5, 4], [0, 1, 5, 4, 2, 3], [5, 4, 3, 2, 1, 0], [5, 4, 2, 3, 0, 1],
    [4, 5, 0, 1, 2, 3], [3, 2, 5, 4, 0, 1], [5, 4, 0, 1, 3, 2], [5, 4, 1, 0, 2, 3]
  ]

  /** Orientation `k` turned once more is orientation `PitchNext[k]`, `YawNext[k]`, `RollNext[k]`. */
  const PitchNext: seq<Index> := [1, 4, 6, 9, 11, 13, 15, 16, 3, 18, 14, 0, 20, 21, 7, 22, 10, 23, 8, 5, 17, 19, 2, 12]
  const YawNext: seq<Index> := [2, 5, 7, 6, 12, 14, 13, 17, 16, 1, 15, 8, 10, 20, 9, 4, 21, 0, 23, 22, 3, 11, 18, 19]
  const RollNext: seq<Index> := [3, 6, 8, 10, 13, 2, 16, 18, 12, 15, 19, 20, 5, 7, 22, 21, 23, 9, 4, 0, 14, 17, 11, 1]

  /** Orientation `k > 0` is first found by the turn `Via[k]` from the earlier orientation `Parent[k]`. */
  const Parent: seq<Index> := [0, 0, 0, 0, 1, 1, 1, 2, 2, 3, 3, 4, 4, 4, 5, 6, 6, 7, 7, 10, 11, 13, 14, 16]
  const Via: seq<Turn> := [
    PitchTurn, PitchTurn, YawTurn, RollTurn, PitchTurn, YawTurn, RollTurn, YawTurn,
    RollTurn, PitchTurn, RollTurn, PitchTurn, YawTurn, RollTurn, YawTurn, PitchTurn,
    RollTurn, YawTurn, RollTurn, RollTurn, RollTurn, PitchTurn, RollTurn, RollTurn
  ]

  /** The orientation whose Front shows slot `f` and whose Left shows slot `l` (entries for opposite or equal slots are unused). */
  const FrontLeftIndex: seq<seq<Index>> := [
    [0, 0, 20, 22, 11, 14], [0, 0, 23, 6, 1, 16], [19, 3, 0, 0, 0, 10],
    [13, 18, 0, 0, 4, 7], [5, 8, 12, 2, 0, 0], [21, 9, 17, 15, 0, 0]
  ]

  /** The cube `c` in each of the 24 orientations. */
  function Orbit(c: Cube): (o: seq<Cube>)
    ensures |o| == 24
  {
    seq(24, (k: int) requires 0 <= k < 24 => Permute(c, Orientations[k]))
  }

  /** Turning then reading through a slot map equals reading through the turned slot map. */
  lemma TurnCommutes(t: Turn, c: Cube, p: SlotMap)
    ensures Apply(t, Permute(c, p)) == Permute(c, Apply(t, p))
  {
  }

  lemma {:induction false} PerformCommutes(c: Cube, p: SlotMap, turns: seq<Turn>)
    ensures Perform(Permute(c, p), turns) == Permute(c, Perform(p, turns))
  {
    if turns != [] {
      var t, rest := turns[|turns| - 1], turns[..|turns| - 1];
      PerformCommutes(c, p, rest);
      TurnCommutes(t, c, Perform(p, rest));
    }
  }

  /** The orientations are closed under each turn. */
  lemma OrientationsClosed(k: Index)
    ensures Pitch(Orientations[k]) == Orientations[PitchNext[k]]
    ensures Yaw(Orientations[k]) == Orientations[YawNext[k]]
    ensures Roll(Orientations[k]) == Orientations[RollNext[k]]
  {
    PitchClosed(k);
    YawClosed(k);
    RollClosed(k);
  }

  // The lemmas below check facts about the constant tables one entry at a
  // time: each empty branch of their `if k == 0 {} else if k == 1 {} ...`
  // chains fixes `k`, so the solver evaluates that single table entry instead
  // of reasoning about all 24 (or 6) at once.

  lemma PitchClosed(k: Index)
    ensures Pitch(Orientations[k]) == Orientations[PitchNext[k]]
  {
    if k == 0 {} else if k == 1 {} else if k == 2 {} else if k == 3 {}
    else if k == 4 {} else if k == 5 {} else if k == 6 {} else if k == 7 {}
    else if k == 8 {} else if k == 9 {} else if k == 10 {} else if k == 11 {}
    else if k == 12 {} else if k == 13 {} else if k == 14 {} else if k == 15 {}
    else if k == 16 {} else if k == 17 {} else if k == 18 {} else if k == 19 {}
    else if k == 20 {} else if k == 21 {} else if k == 22 {} else {}
  }

  lemma YawClosed(k: Index)
    ensures Yaw(Orientations[k]) == Orientations[YawNext[k]]
  {
    if k == 0 {} else if k == 1 {} else if k == 2 {} else if k == 3 {}
    else if k == 4 {} else if k == 5 {} else if k == 6 {} else if k == 7 {}
    else if k == 8 {} else if k == 9 {} else if k == 10 {} else if k == 11 {}
    else if k == 12 {} else if k == 13 {} else if k == 14 {} else if k == 15 {}
    else if k == 16 {} else if k == 17 {} else if k == 18 {} else if k == 19 {}
    else if k == 20 {} else if k == 21 {} else if k == 22 {} else {}
  }

  lemma RollClosed(k: Index)
    ensures Roll(Orientations[k]) == Orientations[RollNext[k]]
  {
    if k == 0 {} else if k == 1 {} else if k == 2 {} else if k == 3 {}
    else if k == 4 {} else if k == 5 {} else if k == 6 {} else if k == 7 {}
    else if k == 8 {} else if k == 9 {} else if k == 10 {} else if k == 11 {}
    else if k == 12 {} else if k == 13 {} else if k == 14 {} else if k == 15 {}
    else if k == 16 {} else if k == 17 {} else if k == 18 {} else if k == 19 {}
    else if k == 20 {} else if k == 21 {} else if k == 22 {} else {}
  }

  /** Every orientation other than the first is one turn away from an earlier one. */
  lemma OrientationsTree(k: Index)
    ensures k > 0 ==> Parent[k] < k && Apply(Via[k], Orientations[Parent[k]]) == Orientations[k]
  {
    if k == 0 {} else if k == 1 {} else if k == 2 {} else if k == 3 {}
    else if k == 4 {} else if k == 5 {} else if k == 6 {} else if k == 7 {}
    else if k == 8 {} else if k == 9 {} else if k == 10 {} else if k == 11 {}
    else if k == 12 {} else if k == 13 {} else if k == 14 {} else if k == 15 {}
    else if k == 16 {} else if k == 17 {} else if k == 18 {} else if k == 19 {}
    else if k == 20 {} else if k == 21 {} else if k == 22 {} else {}
  }

  /**
   * No orientation puts two slots of one axis at Front and Left, and each is
   * the only one with its Front and Left slots.
   */
  lemma OrientationsShape(k: Index)
    ensures Orientations[k][Front] / 2 != Orientations[k][Left] / 2
    ensures FrontLeftIndex[Orientations[k][Front]][Orientations[k][Left]] == k
  {
    if k == 0 {} else if k == 1 {} else if k == 2 {} else if k == 3 {}
    else if k == 4 {} else if k == 5 {} else if k == 6 {} else if k == 7 {}
    else if k == 8 {} else if k == 9 {} else if k == 10 {} else if k == 11 {}
    else if k == 12 {} else if k == 13 {} else if k == 14 {} else if k == 15 {}
    else if k == 16 {} else if k == 17 {} else if k == 18 {} else if k == 19 {}
    else if k == 20 {} else if k == 21 {} else if k == 22 {} else {}
  }

  // ---------------------------------------------------------------------------
  // The orbit is exactly the set of reachable states
  // ---------------------------------------------------------------------------

  /** Every orientation is reached from the identity by the turns of the search tree. */
  lemma {:induction false} OrientationReachable(k: Index)
    ensures exists turns :: Perform(Identity, turns) == Orientations[k]
    decreases k
  {
    OrientationsTree(k);
    if k == 0 {
      assert Perform(Identity, []) == Orientations[0];
    } else {
      OrientationReachable(Parent[k]);
      var turns :| Perform(Identity, turns) == Orientations[Parent[k]];
      var longer := turns + [Via[k]];
      assert longer[..|longer| - 1] == turns;
      assert Perform(Identity, longer) == Orientations[k];
    }
  }

  /** Each member of the orbit of `c` is reachable from `c`. */
  lemma OrbitIsReachable(c: Cube, s: Cube)
    requires s in Orbit(c)
    ensures Reachable(c, s)
  {
    var k :| 0 <= k < 24 && Orbit(c)[k] == s;
    OrientationReachable(k);
    var turns :| Perform(Identity, turns) == Orientations[k];
    PerformCommutes(c, Identity, turns);
    assert Permute(c, Identity) == c;
    assert Perform(c, turns) == s;
  }

  /** One more turn of a member of the orbit stays in the orbit. */
  lemma OrbitClosed(c: Cube, s: Cube)
    requires s in Orbit(c)
    ensures Pitch(s) in Orbit(c) && Yaw(s) in Orbit(c) && Roll(s) in Orbit(c)
  {
    var k :| 0 <= k < 24 && Orbit(c)[k] == s;
    var p := Orientations[k];
    OrientationsClosed(k);
    TurnCommutes(PitchTurn, c, p);
    TurnCommutes(YawTurn, c, p);
    TurnCommutes(RollTurn, c, p);
    assert Pitch(s) == Orbit(c)[PitchNext[k]];
    assert Yaw(s) == Orbit(c)[YawNext[k]];
    assert Roll(s) == Orbit(c)[RollNext[k]];
  }

  /** Whatever a sequence of turns makes of `c` is in the orbit of `c`. */
  lemma {:induction false} ReachableIsInOrbit(c: Cube, turns: seq<Turn>)
    ensures Perform(c, turns) in Orbit(c)
  {
    if turns == [] {
      assert Orbit(c)[0] == c;
    } else {
      var before: Cube := Perform(c, turns[..|turns| - 1]);
      ReachableIsInOrbit(c, turns[..|turns| - 1]);
      OrbitClosed(c, before);
    }
  }

  /** The states reachable from `c` by turns are exactly the 24 listed in its orbit. */
  lemma ReachableIffInOrbit(c: Cube, s: Cube)
    ensures Reachable(c, s) <==> s in Orbit(c)
  {
    if Reachable(c, s) {
      var turns :| Perform(c, turns) == s;
      ReachableIsInOrbit(c, turns);
    }
    if s in Orbit(c) {
      OrbitIsReachable(c, s);
    }
  }

  /** A cube has at most 24 orientations. */
  lemma OrbitSize(c: Cube)
    ensures |Elements(Orbit(c))| <= 24
  {
  }

  /** A set that holds `c` and is closed under the turns holds every state reachable from `c`. */
  lemma {:induction false} ClosedSetHoldsReachable(seen: set<Cube>, c: Cube, turns: seq<Turn>)
    requires c in seen
    requires forall t: Turn, s :: s in seen ==> Apply(t, s) in seen
    ensures Perform(c, turns) in seen
  {
    if turns != [] {
      ClosedSetHoldsReachable(seen, c, turns[..|turns| - 1]);
    }
  }

  // ---------------------------------------------------------------------------
  // What the orientations of one cube have in common
  // ---------------------------------------------------------------------------

  /**
   * Every reachable state is a permutation of the cube's values with the same
   * three opposing value pairs; in particular its Top/Bottom, Front/Back and
   * Left/Right are opposing pairs of the original cube.
   */
  lemma ReachableKeepsPairs(c: Cube, s: Cube)
    requires Reachable(c, s)
    ensures multiset(s) == multiset(c)
    ensures multiset(Pairs(s)) == multiset(Pairs(c))
    ensures SortedPair(s[Top], s[Bottom]) in Pairs(c)
    ensures SortedPair(s[Front], s[Back]) in Pairs(c)
    ensures SortedPair(s[Left], s[Right]) in Pairs(c)
  {
    var turns :| Perform(c, turns) == s;
    PerformKeepsFaces(c, turns);
    assert Pairs(s)[0] in multiset(Pairs(s));
    assert Pairs(s)[1] in multiset(Pairs(s));
    assert Pairs(s)[2] in multiset(Pairs(s));
  }

  /**
   * On a cube whose six values differ, the Front and Left values fix the
   * orientation: at most one reachable state shows them.
   */
  lemma FrontAndLeftDetermineState(c: Cube, s: Cube, t: Cube)
    requires Distinct(c)
    requires Reachable(c, s) && Reachable(c, t)
    requires s[Front] == t[Front] && s[Left] == t[Left]
    ensures s == t
  {
    ReachableIffInOrbit(c, s);
    ReachableIffInOrbit(c, t);
    var k :| 0 <= k < 24 && Orbit(c)[k] == s;
    var j :| 0 <= j < 24 && Orbit(c)[j] == t;
    OrientationsShape(k);
    OrientationsShape(j);
    SameValueSameSlot(c, Orientations[k][Front], Orientations[j][Front]);
    SameValueSameSlot(c, Orientations[k][Left], Orientations[j][Left]);
  }

  lemma SameValueSameSlot(c: Cube, i: Slot, j: Slot)
    requires Distinct(c) && c[i] == c[j]
    ensures i == j
  {
  }

  /**
   * On a cube whose six values differ, two values of one opposing pair are
   * never Front and Left at once: no reachable state matches such a target.
   */
  lemma OppositeTargetsUnreachable(c: Cube, a: nat, front: int, left: int)
    requires Distinct(c) && a < 3
    requires (front == c[2 * a] && left == c[2 * a + 1]) || (front == c[2 * a + 1] && left == c[2 * a])
    ensures forall s :: Reachable(c, s) ==> !(s[Front] == front && s[Left] == left)
  {
    forall s | Reachable(c, s) && s[Front] == front
      ensures s[Left] != left
    {
      ReachableIffInOrbit(c, s);
      var k :| 0 <= k < 24 && Orbit(c)[k] == s;
      OrientationsShape(k);
      var f, l := Orientations[k][Front], Orientations[k][Left];
      assert c[f] == front;
      assert f / 2 == a by {
        if front == c[2 * a] { SameValueSameSlot(c, f, 2 * a); } else { SameValueSameSlot(c, f, 2 * a + 1); }
      }
      if s[Left] == left {
        assert false;
      }
    }
  }

  /** `FrontLeftIndex[f][l]` is an orientation with slot `f` at Front and slot `l` at Left, for slots of different axes (the case split on `f` fixes one table row at a time). */
  lemma FrontLeftSlots(f: Slot, l: Slot)
    requires f / 2 != l / 2
    ensures Orientations[FrontLeftIndex[f][l]][Front] == f && Orientations[FrontLeftIndex[f][l]][Left] == l
  {
    if f == 0 {} else if f == 1 {} else if f == 2 {} else if f == 3 {} else if f == 4 {} else {}
  }

  /** Any face of one axis can be turned to Front while any face of another axis is at Left. */
  lemma AdjacentSlotsReachable(c: Cube, f: Slot, l: Slot)
    requires f / 2 != l / 2
    ensures exists s :: Reachable(c, s) && s[Front] == c[f] && s[Left] == c[l]
  {
    FrontLeftSlots(f, l);
    var s := Orbit(c)[FrontLeftIndex[f][l]];
    OrbitIsReachable(c, s);
  }

  // ---------------------------------------------------------------------------
  // get_valid_rotation
  // ---------------------------------------------------------------------------

  /** A cube is reachable from itself, and one more turn of a reachable state is reachable. */
  lemma ReachableStart(c: Cube)
    ensures Reachable(c, c)
  {
    assert Perform(c, []) == c;
  }

  lemma ReachableStep(c: Cube, s: Cube)
    requires Reachable(c, s)
    ensures forall t :: Reachable(c, Apply(t, s))
  {
    var turns :| Perform(c, turns) == s;
    var p, y, r := turns + [PitchTurn], turns + [YawTurn], turns + [RollTurn];
    assert p[..|p| - 1] == turns && y[..|y| - 1] == turns && r[..|r| - 1] == turns;
    assert Perform(c, p) == Pitch(s);
    assert Perform(c, y) == Yaw(s);
    assert Perform(c, r) == Roll(s);
  }

  /**
   * When the search has dequeued every queued state, it has seen every
   * reachable state: either fewer than 24 were seen, and then every successor
   * of a seen state was queued, so the seen states are closed under the turns;
   * or 24 were seen, and then they are all the orientations there are.
   */
  lemma SearchExhausted(cube: Cube, queue: seq<Cube>, seen: set<Cube>)
    requires cube in seen
    requires forall j :: 0 <= j < |queue| ==> queue[j] in seen
    requires forall s :: s in seen ==> Reachable(cube, s)
    requires |seen| < 24 ==>
               forall t: Turn, s :: s in seen ==> Apply(t, s) in queue
    ensures forall s :: Reachable(cube, s) ==> s in seen
  {
    if |seen| < 24 {
      QueuedSuccessorsSeen(queue, seen);
      forall s | Reachable(cube, s)
        ensures s in seen
      {
        var turns :| Perform(cube, turns) == s;
        ClosedSetHoldsReachable(seen, cube, turns);
      }
    } else {
      FullSetIsOrbit(cube, seen);
    }
  }

  lemma QueuedSuccessorsSeen(queue: seq<Cube>, seen: set<Cube>)
    requires forall j :: 0 <= j < |queue| ==> queue[j] in seen
    requires forall t: Turn, s :: s in seen ==> Apply(t, s) in queue
    ensures forall t: Turn, s :: s in seen ==> Apply(t, s) in seen
  {
  }

  /** The set of states reachable from `c`; there are at most 24. */
  ghost function States(c: Cube): (r: set<Cube>)
    ensures |r| <= 24
    ensures forall s :: s in r <==> Reachable(c, s)
  {
    AllReachableInOrbit(c);
    OrbitSize(c);
    Elements(Orbit(c))
  }

  lemma AllReachableInOrbit(c: Cube)
    ensures forall s :: Reachable(c, s) <==> s in Orbit(c)
  {
    forall s
      ensures Reachable(c, s) <==> s in Orbit(c)
    {
      ReachableIffInOrbit(c, s);
    }
  }

  /** 24 different states reachable from `cube` are all the states reachable from it. */
  lemma FullSetIsOrbit(cube: Cube, seen: set<Cube>)
    requires |seen| >= 24
    requires forall x :: x in seen ==> Reachable(cube, x)
    ensures forall s :: Reachable(cube, s) ==> s in seen
  {
    var all := States(cube);
    SubsetAsLargeIsEqual(seen, all);
  }

  /** `s` shows `front` at Front and `left` at Left. */
  predicate Shows(s: Cube, front: int, left: int)
  {
    s[Front] == front && s[Left] == left
  }

  /**
   * What holds before each dequeue of the search: `i` states have been
   * dequeued and are in `seen`; every queued state is reachable and none
   * seen matches; the queue is the start state followed by three successors
   * of each newly seen state, as long as fewer than 24 had been seen.
   */
  ghost predicate Searching(cube: Cube, front: int, left: int, queue: seq<Cube>, seen: set<Cube>, i: nat)
  {
    && i <= |queue|
    && |seen| <= i
    && |queue| == 1 + 3 * (if |seen| < 23 then |seen| else 23)
    && queue[0] == cube
    && (forall j :: 0 <= j < |queue| ==> Reachable(cube, queue[j]))
    && (forall j :: 0 <= j < i ==> queue[j] in seen)
    && (forall s :: s in seen ==> Reachable(cube, s) && !Shows(s, front, left))
    && (|seen| < 24 ==> forall t: Turn, s :: s in seen ==> Apply(t, s) in queue)
  }

  lemma SearchStart(cube: Cube, front: int, left: int)
    ensures Searching(cube, front, left, [cube], {}, 0)
  {
    ReachableStart(cube);
  }

  /** Dequeuing a state already seen changes nothing else. */
  lemma SearchSkip(cube: Cube, front: int, left: int, queue: seq<Cube>, seen: set<Cube>, i: nat)
    requires Searching(cube, front, left, queue, seen, i)
    requires i < |queue| && queue[i] in seen
    ensures Searching(cube, front, left, queue, seen, i + 1)
  {
  }

  /** Dequeuing a new state that does not match marks it seen and queues its successors while fewer than 24 are seen. */
  lemma SearchVisit(cube: Cube, front: int, left: int, queue: seq<Cube>, seen: set<Cube>, i: nat)
    requires Searching(cube, front, left, queue, seen, i)
    requires i < |queue| && queue[i] !in seen && !Shows(queue[i], front, left)
    ensures var state := queue[i];
            var seen' := seen + {state};
            var queue' := if |seen'| < 24 then queue + [Pitch(state), Yaw(state), Roll(state)] else queue;
            Searching(cube, front, left, queue', seen', i + 1)
  {
    var state := queue[i];
    var seen' := seen + {state};
    assert |seen'| == |seen| + 1;
    if |seen'| < 24 {
      ReachableStep(cube, state);
      assert Reachable(cube, Apply(PitchTurn, state)) && Reachable(cube, Apply(YawTurn, state)) && Reachable(cube, Apply(RollTurn, state));
      var queue' := queue + [Pitch(state), Yaw(state), Roll(state)];
      assert forall j :: 0 <= j < |queue| ==> queue'[j] == queue[j];
      assert queue'[|queue|] == Pitch(state) && queue'[|queue| + 1] == Yaw(state) && queue'[|queue| + 2] == Roll(state);
      forall t: Turn
        ensures Apply(t, state) in queue'
      {
        match t
        case PitchTurn => assert Apply(t, state) == queue'[|queue|];
        case YawTurn => assert Apply(t, state) == queue'[|queue| + 1];
        case RollTurn => assert Apply(t, state) == queue'[|queue| + 2];
      }
    }
  }

  /** A search that has dequeued its whole queue has seen every reachable state, so none matches. */
  lemma SearchDone(cube: Cube, front: int, left: int, queue: seq<Cube>, seen: set<Cube>)
    requires Searching(cube, front, left, queue, seen, |queue|)
    ensures forall s :: Reachable(cube, s) ==> !Shows(s, front, left)
  {
    SearchExhausted(cube, queue, seen);
  }

  /**
   * Breadth-first search over the orientations of `cube`, in the order the
   * turns pitch, yaw, roll are tried, for a state whose Front is `front` and
   * whose Left is `left`. The queue is only extended while fewer than 24
   * states have been seen.
   */
  method RotateTo(cube: Cube, front: int, left: int) returns (r: Option<Cube>)
    ensures r.Some? ==> Shows(r.value, front, left) && Reachable(cube, r.value)
    ensures r.None? ==> forall s :: Reachable(cube, s) ==> !Shows(s, front, left)
    ensures Shows(cube, front, left) ==> r == Some(cube)
  {
    var queue: seq<Cube> := [cube];
    var seen: set<Cube> := {};
    var i := 0;
    SearchStart(cube, front, left);
    while i < |queue|
      invariant Searching(cube, front, left, queue, seen, i)
      invariant |queue| <= 70
      decreases 70 - i
    {
      var state := queue[i];
      if state in seen {
        SearchSkip(cube, front, left, queue, seen, i);
      } else {
        if Shows(state, front, left) {
          assert Shows(cube, front, left) ==> i == 0 by {
            if i > 0 {
              assert queue[0] in seen;
            }
          }
          return Some(state);
        }
        SearchVisit(cube, front, left, queue, seen, i);
        seen := seen + {state};
        if |seen| < 24 {
          queue := queue + [Pitch(state), Yaw(state), Roll(state)];
        }
      }
      i := i + 1;
    }
    SearchDone(cube, front, left, queue, seen);
    return None;
  }
}
