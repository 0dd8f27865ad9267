/**
 * Occurrence counts and distinctness over sequences: the solver's uses of
 * `collections.Counter` (how often a value occurs) and of `len(set(...))`
 * (how many different values occur).
 */
module Counting {

  /** How often `v` occurs in `s`: `Counter(s)[v]`, which is 0 for an absent value. */
  function Count<T(==)>(s: seq<T>, v: T): (r: nat)
    ensures r <= |s|
    ensures r == 0 <==> v !in s
  {
    if s == [] then 0 else (if s[0] == v then 1 else 0) + Count(s[1..], v)
  }

  /** `Count` is the multiplicity of `v` in the multiset of `s`. */
  lemma {:induction false} CountIsMultiplicity<T>(s: seq<T>, v: T)
    ensures Count(s, v) == multiset(s)[v]
  {
    if s != [] {
      CountIsMultiplicity(s[1..], v);
      assert s == [s[0]] + s[1..];
    }
  }

  /** The set of values occurring in `s`: `set(s)`. */
  function Elements<T(==,!new)>(s: seq<T>): (r: set<T>)
    ensures forall x :: x in r <==> x in s
    ensures |r| <= |s|
  {
    if s == [] then {} else {s[0]} + Elements(s[1..])
  }

  /** No value occurs twice in `s`. */
  predicate Distinct<T(==)>(s: seq<T>)
  {
    forall i, j :: 0 <= i < j < |s| ==> s[i] != s[j]
  }

  /** `len(set(s)) == len(s)` holds exactly when the entries of `s` are pairwise distinct. */
  lemma {:induction false} DistinctIffFullSet<T(!new)>(s: seq<T>)
    ensures Distinct(s) <==> |Elements(s)| == |s|
  {
    if s != [] {
      var t := s[1..];
      DistinctIffFullSet(t);
      assert Elements(s) == {s[0]} + Elements(t);
      if s[0] in t {
        var j :| 0 <= j < |t| && t[j] == s[0];
        assert s[j + 1] == s[0];
      } else {
        assert s[0] !in Elements(t);
        if Distinct(s) {
          DistinctTail(s);
        }
        if Distinct(t) {
          DistinctCons(s);
        }
      }
    }
  }

  /** Dropping the head keeps the entries distinct. */
  lemma DistinctTail<T>(s: seq<T>)
    requires s != [] && Distinct(s)
    ensures Distinct(s[1..])
  {
    var t := s[1..];
    forall i, j | 0 <= i < j < |t|
      ensures t[i] != t[j]
    {
      assert t[i] == s[i + 1] && t[j] == s[j + 1];
    }
  }

  /** A head that is not in a distinct tail keeps the whole sequence distinct. */
  lemma DistinctCons<T>(s: seq<T>)
    requires s != [] && s[0] !in s[1..] && Distinct(s[1..])
    ensures Distinct(s)
  {
    var t := s[1..];
    forall i, j | 0 <= i < j < |s|
      ensures s[i] != s[j]
    {
      assert s[j] == t[j - 1];
      if i > 0 {
        assert s[i] == t[i - 1];
      }
    }
  }

  /** Removing a subset removes its size. */
  lemma CardOfDifference<T>(small: set<T>, big: set<T>)
    requires small <= big
    ensures |big - small| == |big| - |small|
  {
    assert big == small + (big - small);
  }

  /** A subset at least as large as the whole set is the whole set. */
  lemma SubsetAsLargeIsEqual<T>(small: set<T>, big: set<T>)
    requires small <= big && |big| <= |small|
    ensures small == big
  {
    CardOfDifference(small, big);
    assert big - small == {};
  }

  /** A value occurs at most once in a sequence without repeats. */
  lemma {:induction false} DistinctMultiplicity<T>(s: seq<T>, v: T)
    requires Distinct(s)
    ensures multiset(s)[v] <= 1
  {
    if s != [] {
      var t := s[1..];
      assert s == [s[0]] + t;
      DistinctTail(s);
      DistinctMultiplicity(t, v);
      if s[0] == v {
        assert v !in t by {
          forall j | 0 <= j < |t|
            ensures t[j] != v
          {
            assert t[j] == s[j + 1];
          }
        }
      }
    }
  }
}
