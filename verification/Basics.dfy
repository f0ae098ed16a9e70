/** What several modules share: times, bounds, and sequences without repetition. */
module Basics {

  /** Nanoseconds; a duration is their difference. */
  type Time = int

  const SECOND: int := 1_000_000_000
  const MINUTE: int := 60 * SECOND

  function Max(a: int, b: int): int { if a >= b then a else b }

  function Min(a: int, b: int): int { if a <= b then a else b }

  ghost predicate Distinct<T>(s: seq<T>) { forall i, j | 0 <= i < j < |s| :: s[i] != s[j] }

  lemma {:induction false} DistinctIsOnce<T>(s: seq<T>, x: T)
    requires Distinct(s)
    ensures multiset(s)[x] <= 1
  {
    if s != [] {
      var front, last := s[..|s| - 1], s[|s| - 1];
      assert s == front + [last] && last !in front;
      DistinctIsOnce(front, x);
    }
  }

  lemma OnceIsDistinct<T>(s: seq<T>)
    requires forall x <- s :: multiset(s)[x] <= 1
    ensures Distinct(s)
  {
    forall i, j | 0 <= i < j < |s| ensures s[i] != s[j] {
      assert s == s[..j] + [s[j]] + s[j + 1..];
      assert s[i] in s[..j];
      assert multiset(s)[s[j]] <= 1;
    }
  }

  /** A rearrangement of a sequence without repetition repeats nothing and holds the same. */
  lemma RearrangedIsDistinct<T>(s: seq<T>, r: seq<T>)
    requires Distinct(s) && multiset(r) == multiset(s)
    ensures Distinct(r) && |r| == |s| && forall x :: x in r <==> x in s
  {
    forall x ensures (x in r <==> x in s) && multiset(r)[x] <= 1 {
      DistinctIsOnce(s, x);
      assert (x in r <==> x in multiset(r)) && (x in s <==> x in multiset(s));
    }
    OnceIsDistinct(r);
    assert |multiset(r)| == |r| && |multiset(s)| == |s|;
  }

  /** The elements of `s` that satisfy `p`, in order. */
  function Filter<T>(s: seq<T>, p: T -> bool): seq<T> {
    if s == [] then [] else Filter(s[..|s| - 1], p) + if p(s[|s| - 1]) then [s[|s| - 1]] else []
  }

  /** `at` are places of `s`, from the left, where the elements of `r` stand. */
  ghost predicate StandAt<T>(r: seq<T>, s: seq<T>, at: seq<nat>) {
    && |at| == |r| && (forall k | 0 <= k < |at| :: at[k] < |s| && s[at[k]] == r[k])
    && forall j, k | 0 <= j < k < |at| :: at[j] < at[k]
  }

  lemma StandBefore<T>(r: seq<T>, s: seq<T>, at: seq<nat>, x: T)
    requires StandAt(r, s, at)
    ensures StandAt(r, s + [x], at) && StandAt(r + [x], s + [x], at + [|s|]) && |s| !in at
  {
  }

  /** A filter keeps each element that qualifies, where it stood among the others, and nothing else. */
  lemma {:induction false} FilterInOrder<T>(s: seq<T>, p: T -> bool) returns (at: seq<nat>)
    ensures StandAt(Filter(s, p), s, at)
    ensures forall i: nat | i < |s| :: p(s[i]) <==> i in at
  {
    if s == [] {
      at := [];
    } else {
      hide StandAt;
      var front, x := s[..|s| - 1], s[|s| - 1];
      assert s == front + [x];
      at := FilterInOrder(front, p);
      StandBefore(Filter(front, p), front, at, x);
      assert forall i: nat | i < |front| :: s[i] == front[i];
      if p(x) {
        assert forall i :: i in at + [|front|] <==> i in at || i == |front|;
        at := at + [|front|];
      }
    }
  }
}
