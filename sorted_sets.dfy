/**
 This module models `sorted(set(xs))` on integers: the distinct elements of a
 sequence in ascending order.
 */
module SortedSets {

  /** Each element is smaller than the next, so the sequence is sorted and duplicate-free. */
  predicate StrictlyIncreasing(s: seq<int>)
  {
    forall i, j :: 0 <= i < j < |s| ==> s[i] < s[j]
  }

  /** Inserts `x` into a strictly increasing sequence, keeping it strictly increasing. */
  function InsertSorted(s: seq<int>, x: int): (r: seq<int>)
    requires StrictlyIncreasing(s)
    ensures StrictlyIncreasing(r)
    ensures forall y :: y in r <==> y in s || y == x
  {
    if s == [] then [x]
    else if x < s[0] then [x] + s
    else if x == s[0] then s
    else
      var rest := InsertSorted(s[1..], x);
      assert forall k :: 0 <= k < |rest| ==> s[0] < rest[k] by {
        forall k | 0 <= k < |rest| ensures s[0] < rest[k] {
          var y := rest[k];
          if y in s[1..] {
            var m :| 0 <= m < |s[1..]| && s[1..][m] == y;
            assert s[m + 1] == y;
          }
        }
      }
      [s[0]] + rest
  }

  /** `sorted(set(xs))`: the distinct elements of `xs`, ascending. */
  function SortedSet(xs: seq<int>): (r: seq<int>)
    ensures StrictlyIncreasing(r)
    ensures forall y :: y in r <==> y in xs
  {
    if xs == [] then []
    else InsertSorted(SortedSet(xs[..|xs| - 1]), xs[|xs| - 1])
  }

  /** A strictly increasing sequence is determined by the set of its elements. */
  lemma {:induction false} StrictlyIncreasingUnique(a: seq<int>, b: seq<int>)
    requires StrictlyIncreasing(a) && StrictlyIncreasing(b)
    requires forall y :: y in a <==> y in b
    ensures a == b
  {
    // one is empty exactly when the other is
    if a != [] { assert a[0] in a; }
    if b != [] { assert b[0] in b; }
    if a != [] && b != [] {
      // both heads are the least element of the common set
      HeadIsLeast(a, b[0]);
      HeadIsLeast(b, a[0]);
      forall y ensures y in a[1..] <==> y in b[1..] {
        assert y in a <==> y in b;
        TailMembers(a, y);
        TailMembers(b, y);
      }
      StrictlyIncreasingUnique(a[1..], b[1..]);
      assert a == [a[0]] + a[1..] && b == [b[0]] + b[1..];
    }
  }

  /** The head of a strictly increasing sequence is at most each of its elements. */
  lemma HeadIsLeast(s: seq<int>, y: int)
    requires StrictlyIncreasing(s) && y in s
    ensures s[0] <= y
  {
  }

  /** An element of a strictly increasing sequence is in its tail exactly when it is not the head. */
  lemma TailMembers(s: seq<int>, y: int)
    requires StrictlyIncreasing(s) && s != []
    ensures y in s[1..] <==> y in s && y != s[0]
  {
    if y in s && y != s[0] {
      var k :| 0 <= k < |s| && s[k] == y;
      assert s[1..][k - 1] == y;
    }
  }

  /** `sorted(set(xs))` depends only on which values occur in `xs`, not on order or repetition. */
  lemma SortedSetOfSameElements(xs: seq<int>, ys: seq<int>)
    requires forall y :: y in xs <==> y in ys
    ensures SortedSet(xs) == SortedSet(ys)
  {
    StrictlyIncreasingUnique(SortedSet(xs), SortedSet(ys));
  }
}
