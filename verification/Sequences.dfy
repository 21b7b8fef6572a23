/** Facts about sequences of integers that several modules share. */
module Sequences {

  datatype Option<+T> = None | Some(value: T)

  datatype Result<+T, +E> = Ok(value: T) | Err(error: E)

  function Sum(s: seq<int>): int {
    if s == [] then 0 else s[0] + Sum(s[1..])
  }

  lemma {:induction false} SumUpdate(s: seq<int>, i: nat, x: int)
    requires i < |s|
    ensures Sum(s[i := x]) == Sum(s) - s[i] + x
  {
    if i == 0 {
      assert s[i := x][1..] == s[1..];
    } else {
      assert s[i := x][1..] == s[1..][i - 1 := x];
      SumUpdate(s[1..], i - 1, x);
    }
  }

  lemma {:induction false} SumConcat(a: seq<int>, b: seq<int>)
    ensures Sum(a + b) == Sum(a) + Sum(b)
  {
    if a == [] {
      assert a + b == b;
    } else {
      assert (a + b)[1..] == a[1..] + b;
      SumConcat(a[1..], b);
    }
  }

  ghost predicate Descending(s: seq<int>) {
    forall i, j :: 0 <= i < j < |s| ==> s[i] >= s[j]
  }

  /** Python's `list.sort(reverse=True)` on integers. */
  function SortDescending(s: seq<int>): (r: seq<int>)
    ensures |r| == |s|
    ensures multiset(r) == multiset(s)
    ensures Descending(r)
  {
    if s == [] then []
    else
      var sorted := SortDescending(s[1..]);
      InsertDescendingSorts(s[0], sorted);
      InsertDescendingKeeps(s[0], sorted);
      assert s == [s[0]] + s[1..];
      InsertDescending(s[0], sorted)
  }

  function InsertDescending(x: int, s: seq<int>): (r: seq<int>)
    ensures |r| == |s| + 1
  {
    if s == [] || x >= s[0] then [x] + s
    else [s[0]] + InsertDescending(x, s[1..])
  }

  lemma {:induction false} InsertDescendingKeeps(x: int, s: seq<int>)
    ensures multiset(InsertDescending(x, s)) == multiset{x} + multiset(s)
  {
    if s != [] && x < s[0] {
      InsertDescendingKeeps(x, s[1..]);
      assert s == [s[0]] + s[1..];
    }
  }

  lemma {:induction false} InsertDescendingSorts(x: int, s: seq<int>)
    requires Descending(s)
    ensures Descending(InsertDescending(x, s))
  {
    if s != [] && x < s[0] {
      InsertDescendingSorts(x, s[1..]);
      InsertDescendingAtMost(x, s[1..], s[0]);
    }
  }

  lemma {:induction false} InsertDescendingAtMost(x: int, s: seq<int>, bound: int)
    requires x <= bound && forall i :: 0 <= i < |s| ==> s[i] <= bound
    ensures forall i :: 0 <= i < |InsertDescending(x, s)| ==> InsertDescending(x, s)[i] <= bound
  {
    if s != [] && x < s[0] {
      InsertDescendingAtMost(x, s[1..], bound);
    }
  }

  /** Sorting forgets the order. */
  lemma SortPermuted(a: seq<int>, b: seq<int>)
    requires multiset(a) == multiset(b)
    ensures SortDescending(a) == SortDescending(b)
  {
    SortedUnique(SortDescending(a), SortDescending(b));
  }

  lemma {:induction false} SortedUnique(a: seq<int>, b: seq<int>)
    requires multiset(a) == multiset(b) && Descending(a) && Descending(b)
    ensures a == b
  {
    if a == [] {
      assert |multiset(b)| == 0;
    } else {
      var j := SameMultisetMember(a, b, 0);
      var i := SameMultisetMember(b, a, 0);
      assert a[0] == b[0];
      WithoutOne(a, 0);
      WithoutOne(b, 0);
      SortedUnique(a[1..], b[1..]);
    }
  }

  lemma WithoutOne<T>(s: seq<T>, i: nat)
    requires i < |s|
    ensures multiset(s[..i] + s[i + 1..]) == multiset(s) - multiset{s[i]}
    ensures i == 0 ==> s[..i] + s[i + 1..] == s[1..]
  {
    assert s == s[..i] + [s[i]] + s[i + 1..];
  }

  /** Two sequences of the same multiset have the same length, and each element of one is in the other. */
  lemma SameMultisetMember<T>(a: seq<T>, b: seq<T>, i: nat) returns (j: nat)
    requires multiset(a) == multiset(b) && i < |a|
    ensures j < |b| && b[j] == a[i]
  {
    assert a[i] in multiset(b);
    j :| 0 <= j < |b| && b[j] == a[i];
  }

  lemma MultisetUpdate<T>(s: seq<T>, i: nat, x: T)
    requires i < |s|
    ensures multiset(s[i := x]) == multiset(s) - multiset{s[i]} + multiset{x}
  {
    assert s == s[..i] + [s[i]] + s[i + 1..];
    assert s[i := x] == s[..i] + [x] + s[i + 1..];
  }

  /** Replacing the same element in two permutations gives two permutations. */
  lemma SameMultisetUpdate<T>(a: seq<T>, i: nat, b: seq<T>, j: nat, x: T)
    requires i < |a| && j < |b| && a[i] == b[j] && multiset(a) == multiset(b)
    ensures multiset(a[i := x]) == multiset(b[j := x])
  {
    MultisetUpdate(a, i, x);
    MultisetUpdate(b, j, x);
  }
}
