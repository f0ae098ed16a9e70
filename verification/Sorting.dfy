/** Names in the order `sort.Strings` and `slices.Sort` put them: byte by byte, a prefix first. */
module Sorting {

  predicate Leq(a: string, b: string) {
    a == "" || (b != "" && (a[0] < b[0] || (a[0] == b[0] && Leq(a[1..], b[1..]))))
  }

  /** One name comes before another if it is the start of it, or smaller at the first byte that differs. */
  lemma {:induction false} LeqIsByteOrder(a: string, b: string)
    ensures Leq(a, b) <==> a <= b || exists i | 0 <= i < |a| && i < |b| :: a[..i] == b[..i] && a[i] < b[i]
  {
    if a != "" && b != "" {
      var (x, y) := (a[1..], b[1..]);
      assert a == [a[0]] + x && b == [b[0]] + y;
      LeqIsByteOrder(x, y);
      if i :| 0 <= i < |a| && i < |b| && a[..i] == b[..i] && a[i] < b[i] {
        if i > 0 {
          assert a[..i][0] == a[0] && b[..i][0] == b[0] && x[..i - 1] == a[..i][1..] && y[..i - 1] == b[..i][1..];
          assert x[i - 1] < y[i - 1];
        }
      }
      if i :| a[0] == b[0] && 0 <= i < |x| && i < |y| && x[..i] == y[..i] && x[i] < y[i] {
        assert a[..i + 1] == [a[0]] + x[..i] && b[..i + 1] == [b[0]] + y[..i];
        assert a[i + 1] < b[i + 1];
      }
      if a[0] < b[0] {
        assert a[..0] == b[..0];
      }
    }
  }

  lemma {:induction false} LeqIsTotal(a: string, b: string)
    ensures Leq(a, b) || Leq(b, a)
  {
    if a != "" && b != "" && a[0] == b[0] {
      LeqIsTotal(a[1..], b[1..]);
    }
  }

  lemma {:induction false} LeqIsTransitive(a: string, b: string, c: string)
    requires Leq(a, b) && Leq(b, c)
    ensures Leq(a, c)
  {
    if a != "" && a[0] == b[0] == c[0] {
      LeqIsTransitive(a[1..], b[1..], c[1..]);
    }
  }

  predicate IsSorted(s: seq<string>) { forall i, j | 0 <= i < j < |s| :: Leq(s[i], s[j]) }

  function Inserted(s: seq<string>, x: string): (r: seq<string>)
    ensures multiset(r) == multiset(s) + multiset{x}
  {
    if s == [] then [x]
    else
      var front, last := s[..|s| - 1], s[|s| - 1];
      assert s == front + [last];
      if Leq(last, x) then s + [x] else Inserted(front, x) + [last]
  }

  /** The names in order. */
  function Sorted(s: seq<string>): (r: seq<string>)
    ensures multiset(r) == multiset(s)
  {
    if s == [] then []
    else
      assert s == s[..|s| - 1] + [s[|s| - 1]];
      Inserted(Sorted(s[..|s| - 1]), s[|s| - 1])
  }

  lemma AppendKeepsSorted(s: seq<string>, x: string)
    requires IsSorted(s) && forall y <- s :: Leq(y, x)
    ensures IsSorted(s + [x])
  {
    forall i, j | 0 <= i < j < |s + [x]| ensures Leq((s + [x])[i], (s + [x])[j]) {
      assert (s + [x])[i] in s;
    }
  }

  lemma {:induction false} InsertedIsSorted(s: seq<string>, x: string)
    requires IsSorted(s)
    ensures IsSorted(Inserted(s, x))
  {
    if s != [] {
      hide Leq;
      var front, last := s[..|s| - 1], s[|s| - 1];
      assert s == front + [last];
      if Leq(last, x) {
        forall y <- s ensures Leq(y, x) {
          if y != last {
            LeqIsTransitive(y, last, x);
          }
        }
        AppendKeepsSorted(s, x);
      } else {
        LeqIsTotal(last, x);
        InsertedIsSorted(front, x);
        forall y <- Inserted(front, x) ensures Leq(y, last) {
          assert y in multiset(Inserted(front, x));
          assert y == x || y in multiset(front);
        }
        AppendKeepsSorted(Inserted(front, x), last);
      }
    }
  }

  lemma {:induction false} SortedIsSorted(s: seq<string>)
    ensures IsSorted(Sorted(s))
  {
    if s != [] {
      SortedIsSorted(s[..|s| - 1]);
      InsertedIsSorted(Sorted(s[..|s| - 1]), s[|s| - 1]);
    }
  }
}
