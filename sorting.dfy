/**
 * `Array.prototype.sort` with a comparator, which the application calls with a consistent
 * comparator: the sort is stable (ECMAScript 2019 on), so its result is fixed by the order
 * `le` (`cmp(a, b) <= 0`) and the input order. The result is modelled by insertion from the
 * back, which is stable; the in-place method sorts an array to exactly that result.
 */
module Sorting {
  /** Any two elements compare one way or the other. */
  ghost predicate Total<T(!new)>(le: (T, T) -> bool) {
    forall a, b :: le(a, b) || le(b, a)
  }

  ghost predicate Transitive<T(!new)>(le: (T, T) -> bool) {
    forall a, b, c :: le(a, b) && le(b, c) ==> le(a, c)
  }

  /** `le` is total and transitive: the comparator is consistent. */
  ghost predicate IsTotalPreorder<T(!new)>(le: (T, T) -> bool) {
    Total(le) && Transitive(le)
  }

  predicate Sorted<T>(s: seq<T>, le: (T, T) -> bool) {
    forall i, j :: 0 <= i < j < |s| ==> le(s[i], s[j])
  }

  /** `x` inserted into `s` after every element not above it, scanning from the back. */
  function Insert<T>(s: seq<T>, x: T, le: (T, T) -> bool): (r: seq<T>)
    ensures |r| == |s| + 1
  {
    if s == [] then [x]
    else if le(s[|s| - 1], x) then s + [x]
    else Insert(s[..|s| - 1], x, le) + [s[|s| - 1]]
  }

  /** The stable sort of `s` under `le`. */
  function InsertionSort<T>(s: seq<T>, le: (T, T) -> bool): (r: seq<T>)
    ensures |r| == |s|
  {
    if s == [] then []
    else Insert(InsertionSort(s[..|s| - 1], le), s[|s| - 1], le)
  }

  // ---------------------------------------------------------------- permutation

  lemma {:induction false} InsertPermutes<T>(s: seq<T>, x: T, le: (T, T) -> bool)
    ensures multiset(Insert(s, x, le)) == multiset(s) + multiset{x}
    decreases |s|
  {
    if s != [] && !le(s[|s| - 1], x) {
      InsertPermutes(s[..|s| - 1], x, le);
      assert s == s[..|s| - 1] + [s[|s| - 1]];
    }
  }

  /** The sort rearranges its input: same elements, same multiplicities. */
  lemma {:induction false} SortPermutes<T>(s: seq<T>, le: (T, T) -> bool)
    ensures multiset(InsertionSort(s, le)) == multiset(s)
    decreases |s|
  {
    if s != [] {
      SortPermutes(s[..|s| - 1], le);
      InsertPermutes(InsertionSort(s[..|s| - 1], le), s[|s| - 1], le);
      assert s == s[..|s| - 1] + [s[|s| - 1]];
    }
  }

  /** `a` and `b` compare equal under `le`. */
  predicate Tied<T>(le: (T, T) -> bool, a: T, b: T) { le(a, b) && le(b, a) }

  /** The elements of `s` tied with `e`, in order. */
  function TiedWith<T>(s: seq<T>, le: (T, T) -> bool, e: T): (r: seq<T>)
    ensures |r| <= |s|
  {
    if s == [] then []
    else TiedWith(s[..|s| - 1], le, e) + (if Tied(le, s[|s| - 1], e) then [s[|s| - 1]] else [])
  }

  lemma {:induction false} TiedWithAppend<T>(a: seq<T>, b: seq<T>, le: (T, T) -> bool, e: T)
    ensures TiedWith(a + b, le, e) == TiedWith(a, le, e) + TiedWith(b, le, e)
    decreases |b|
  {
    if b != [] {
      var b' := b[..|b| - 1];
      assert (a + b)[..|a + b| - 1] == a + b';
      assert (a + b)[|a + b| - 1] == b[|b| - 1];
      TiedWithAppend(a, b', le, e);
    } else {
      assert a + b == a;
    }
  }

  lemma TiedWithOne<T>(x: T, le: (T, T) -> bool, e: T)
    ensures TiedWith([x], le, e) == if Tied(le, x, e) then [x] else []
  {
    assert [x][..0] == [];
  }

  // ---------------------------------------------------------------- sortedness

  lemma {:induction false} InsertSorted<T(!new)>(s: seq<T>, x: T, le: (T, T) -> bool)
    requires IsTotalPreorder(le) && Sorted(s, le)
    ensures Sorted(Insert(s, x, le), le)
    decreases |s|
  {
    if s == [] {
    } else if le(s[|s| - 1], x) {
      forall i | 0 <= i < |s|
        ensures le(s[i], x)
      {
        if i < |s| - 1 {
          assert le(s[i], s[|s| - 1]);
        }
      }
      SortedAppend(s, x, le);
    } else {
      var front := s[..|s| - 1];
      var last := s[|s| - 1];
      assert Sorted(front, le) by {
        forall i, j | 0 <= i < j < |front|
          ensures le(front[i], front[j])
        {
          assert front[i] == s[i] && front[j] == s[j];
        }
      }
      InsertSorted(front, x, le);
      var r := Insert(front, x, le);
      InsertPermutes(front, x, le);
      assert le(x, last);
      forall i | 0 <= i < |r|
        ensures le(r[i], last)
      {
        assert r[i] in multiset(r);
        if r[i] != x {
          assert r[i] in multiset(front);
          var k :| 0 <= k < |front| && front[k] == r[i];
          assert s[k] == r[i];
        }
      }
      SortedAppend(r, last, le);
    }
  }

  lemma SortedAppend<T>(s: seq<T>, x: T, le: (T, T) -> bool)
    requires Sorted(s, le) && forall i :: 0 <= i < |s| ==> le(s[i], x)
    ensures Sorted(s + [x], le)
  {
    var q := s + [x];
    forall i, j | 0 <= i < j < |q|
      ensures le(q[i], q[j])
    {
      if j < |s| {
        assert q[i] == s[i] && q[j] == s[j];
      } else {
        assert q[i] == s[i] && q[j] == x;
      }
    }
  }

  /** The sort's result is ordered by `le`. */
  lemma {:induction false} SortSorted<T(!new)>(s: seq<T>, le: (T, T) -> bool)
    requires IsTotalPreorder(le)
    ensures Sorted(InsertionSort(s, le), le)
    decreases |s|
  {
    if s != [] {
      SortSorted(s[..|s| - 1], le);
      InsertSorted(InsertionSort(s[..|s| - 1], le), s[|s| - 1], le);
    }
  }

  // ---------------------------------------------------------------- stability

  /** Two elements tied with the same `e` are ordered both ways. */
  ghost predicate TiesAgree<T(!new)>(le: (T, T) -> bool, e: T) {
    forall y, z :: Tied(le, y, e) && Tied(le, z, e) ==> le(y, z)
  }

  lemma TransitiveTiesAgree<T(!new)>(le: (T, T) -> bool, e: T)
    requires Transitive(le)
    ensures TiesAgree(le, e)
  {
  }

  lemma {:induction false} InsertStable<T(!new)>(s: seq<T>, x: T, le: (T, T) -> bool, e: T)
    requires TiesAgree(le, e)
    ensures TiedWith(Insert(s, x, le), le, e) == TiedWith(s, le, e) + TiedWith([x], le, e)
    decreases |s|
  {
    TiedWithOne(x, le, e);
    if s == [] {
      assert [] + [x] == [x];
    } else if le(s[|s| - 1], x) {
      TiedWithAppend(s, [x], le, e);
    } else {
      var front := s[..|s| - 1];
      var last := s[|s| - 1];
      var inserted := Insert(front, x, le);
      assert Insert(s, x, le) == inserted + [last];
      InsertStable(front, x, le, e);
      TiedWithAppend(inserted, [last], le, e);
      TiedWithOne(last, le, e);
      var a, b, c := TiedWith(front, le, e), TiedWith([x], le, e), TiedWith([last], le, e);
      assert TiedWith(s, le, e) == a + c;
      if Tied(le, x, e) {
        assert !Tied(le, last, e);
        assert a + b + c == a + c + b;
      } else {
        assert a + b + c == a + c + b;
      }
    }
  }

  /** The sort is stable: the elements tied with any `e` keep their input order. */
  lemma {:induction false} SortStable<T(!new)>(s: seq<T>, le: (T, T) -> bool, e: T)
    requires Transitive(le)
    ensures TiedWith(InsertionSort(s, le), le, e) == TiedWith(s, le, e)
    decreases |s|
  {
    if s != [] {
      var front := s[..|s| - 1];
      SortStable(front, le, e);
      TransitiveTiesAgree(le, e);
      InsertStable(InsertionSort(front, le), s[|s| - 1], le, e);
      assert s == front + [s[|s| - 1]];
      TiedWithAppend(front, [s[|s| - 1]], le, e);
    }
  }

  // ---------------------------------------------------------------- in place

  /** `a.sort(cmp)`: the array is rearranged in place into the stable sort of its contents. */
  method SortInPlace<T>(a: array<T>, le: (T, T) -> bool)
    modifies a
    ensures a[..] == InsertionSort(old(a[..]), le)
  {
    ghost var input := a[..];
    var i := 0;
    while i < a.Length
      invariant 0 <= i <= a.Length
      invariant a[..i] == InsertionSort(input[..i], le)
      invariant a[i..] == input[i..]
    {
      SortPrefixStep(input, i, le);
      assert a[i] == input[i] && a[i + 1..] == input[i + 1..];
      InsertInPlace(a, i, le);
      i := i + 1;
    }
    assert input[..a.Length] == input;
  }

  lemma SortPrefixStep<T>(input: seq<T>, i: nat, le: (T, T) -> bool)
    requires i < |input|
    ensures InsertionSort(input[..i + 1], le) == Insert(InsertionSort(input[..i], le), input[i], le)
  {
    assert input[..i + 1][..i] == input[..i];
  }

  /** One pass of the sort: `a[i]` moves down past the elements of the sorted prefix above it. */
  method InsertInPlace<T>(a: array<T>, i: nat, le: (T, T) -> bool)
    requires i < a.Length
    modifies a
    ensures a[..i + 1] == Insert(old(a[..i]), old(a[i]), le)
    ensures a[i + 1..] == old(a[i + 1..])
  {
    ghost var sorted := a[..i];
    var x := a[i];
    var j := i;
    assert sorted[..j] == sorted && sorted[j..] == [];
    while j > 0 && !le(a[j - 1], x)
      invariant 0 <= j <= i
      invariant forall k :: 0 <= k < j ==> a[k] == sorted[k]
      invariant forall k :: j < k <= i ==> a[k] == sorted[k - 1]
      invariant forall k :: i < k < a.Length ==> a[k] == old(a[k])
      invariant Insert(sorted, x, le) == Insert(sorted[..j], x, le) + sorted[j..]
    {
      ShiftStep(sorted, j, x, le);
      a[j] := a[j - 1];
      j := j - 1;
    }
    a[j] := x;
    InsertAt(sorted, j, x, le);
    assert a[..i + 1] == sorted[..j] + [x] + sorted[j..];
  }

  /** Passing one element of the sorted prefix that is above `x`. */
  lemma ShiftStep<T>(sorted: seq<T>, j: nat, x: T, le: (T, T) -> bool)
    requires 0 < j <= |sorted| && !le(sorted[j - 1], x)
    ensures Insert(sorted[..j], x, le) + sorted[j..] == Insert(sorted[..j - 1], x, le) + sorted[j - 1..]
  {
    assert sorted[..j][..j - 1] == sorted[..j - 1];
    assert sorted[j - 1..] == [sorted[j - 1]] + sorted[j..];
  }

  /** Where the scan stops, `x` goes. */
  lemma InsertAt<T>(sorted: seq<T>, j: nat, x: T, le: (T, T) -> bool)
    requires j <= |sorted| && (j == 0 || le(sorted[j - 1], x))
    ensures Insert(sorted[..j], x, le) == sorted[..j] + [x]
  {
  }
}
