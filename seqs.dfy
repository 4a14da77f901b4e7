/** Sequence helpers standing in for the Python built-ins the core leans on:
    `sorted` (a stable sort), the rotation idioms `s[-1:] + s[:-1]`, `list(set(s))`
    and `l[::-1]`. */
module Seqs {

  import opened Arith

  /** `le` is total and transitive: what `sorted` needs of its key order. */
  ghost predicate TotalPreorder<T(!new)>(le: (T, T) -> bool)
  {
    && (forall a, b :: le(a, b) || le(b, a))
    && (forall a, b, c :: le(a, b) && le(b, c) ==> le(a, c))
  }

  predicate SortedBy<T>(s: seq<T>, le: (T, T) -> bool)
  {
    forall i, j :: 0 <= i < j < |s| ==> le(s[i], s[j])
  }

  /** Places `x` before the first element of `s` that it does not exceed. */
  function Insert<T>(x: T, s: seq<T>, le: (T, T) -> bool): (r: seq<T>)
    ensures multiset(r) == multiset(s) + multiset{x}
  {
    if s == [] then [x]
    else if le(x, s[0]) then [x] + s
    else
      assert s == [s[0]] + s[1..];
      [s[0]] + Insert(x, s[1..], le)
  }

  /** Insertion sort. An element is inserted in front of the equal elements that
      followed it, so equal elements keep their order, as with Python's `sorted`. */
  function SortBy<T>(s: seq<T>, le: (T, T) -> bool): (r: seq<T>)
    ensures multiset(r) == multiset(s)
    ensures |r| == |s|
  {
    if s == [] then []
    else
      assert s == [s[0]] + s[1..];
      Insert(s[0], SortBy(s[1..], le), le)
  }

  lemma {:induction false} InsertSorted<T(!new)>(x: T, s: seq<T>, le: (T, T) -> bool)
    requires TotalPreorder(le)
    requires SortedBy(s, le)
    ensures SortedBy(Insert(x, s, le), le)
  {
    if s != [] && !le(x, s[0]) {
      var rest := Insert(x, s[1..], le);
      InsertSorted(x, s[1..], le);
      forall k | 0 <= k < |rest| ensures le(s[0], rest[k]) {
        assert rest[k] in multiset(rest);
        if rest[k] != x {
          assert rest[k] in multiset(s[1..]);
          var m :| 0 <= m < |s[1..]| && s[1..][m] == rest[k];
          assert s[m + 1] == rest[k];
        }
      }
    }
  }

  lemma {:induction false} SortBySorted<T(!new)>(s: seq<T>, le: (T, T) -> bool)
    requires TotalPreorder(le)
    ensures SortedBy(SortBy(s, le), le)
  {
    if s != [] {
      SortBySorted(s[1..], le);
      InsertSorted(s[0], SortBy(s[1..], le), le);
    }
  }

  /** The order `sorted` uses on integers. */
  function IntLe(a: int, b: int): bool { a <= b }

  lemma IntLeIsTotalPreorder()
    ensures TotalPreorder(IntLe)
  {
  }

  /** `sorted(s)` on a list of integers. */
  function SortInts(s: seq<int>): (r: seq<int>)
    ensures multiset(r) == multiset(s)
    ensures forall i, j :: 0 <= i < j < |r| ==> r[i] <= r[j]
  {
    IntLeIsTotalPreorder();
    SortBySorted(s, IntLe);
    SortBy(s, IntLe)
  }

  /** One step of the idiom `s[-1:] + s[:-1]`: the last element moves to the front. */
  function RotateRight<T>(s: seq<T>): (r: seq<T>)
    ensures |r| == |s|
    ensures |s| > 0 ==> r[0] == s[|s| - 1]
    ensures forall i :: 0 < i < |s| ==> r[i] == s[i - 1]
  {
    if s == [] then [] else s[|s| - 1..] + s[..|s| - 1]
  }

  /** `s` after k right rotations, described element by element. */
  function RotatedRight<T>(s: seq<T>, k: int): (r: seq<T>)
    ensures |r| == |s|
  {
    seq(|s|, i requires 0 <= i < |s| => s[(i - k) % |s|])
  }

  lemma RotateRightStep<T>(s: seq<T>, k: int)
    ensures RotateRight(RotatedRight(s, k)) == RotatedRight(s, k + 1)
  {
    var a, b := RotateRight(RotatedRight(s, k)), RotatedRight(s, k + 1);
    forall i | 0 <= i < |s| ensures a[i] == b[i] {
      if i == 0 {
        ModAddMultiple(-(k + 1), |s|, 1);
      }
    }
  }

  /** n right rotations of an n-element sequence give the sequence back. */
  lemma RotatedRightFull<T>(s: seq<T>)
    ensures RotatedRight(s, |s|) == s
  {
    var r := RotatedRight(s, |s|);
    forall i | 0 <= i < |s| ensures r[i] == s[i] {
      ModAddMultiple(i - |s|, |s|, 1);
      DivModUnique(i, |s|, 0, i);
    }
  }

  lemma RotatedRightZero<T>(s: seq<T>)
    ensures RotatedRight(s, 0) == s
  {
    var r := RotatedRight(s, 0);
    forall i | 0 <= i < |s| ensures r[i] == s[i] {
      DivModUnique(i, |s|, 0, i);
    }
  }

  lemma RotationIndex(i: int, k: int, n: int)
    requires 0 <= i < n
    ensures (i - k) % n == if i < k % n then i - k % n + n else i - k % n
  {
    var m := k % n;
    assert k == (k / n) * n + m;
    ModAddMultiple(i - m, n, -(k / n));
    assert i - k == (i - m) + (-(k / n)) * n;
    if i < m {
      DivModUnique(i - m, n, -1, i - m + n);
    } else {
      DivModUnique(i - m, n, 0, i - m);
    }
  }

  /** A rotation swaps the two halves of a split `s[..n-m] + s[n-m..]`, hence it is a permutation. */
  lemma RotatedRightMultiset<T>(s: seq<T>, k: int)
    ensures multiset(RotatedRight(s, k)) == multiset(s)
  {
    if |s| > 0 {
      var n := |s|;
      var m := k % n;
      var r := RotatedRight(s, k);
      var swapped := s[n - m..] + s[..n - m];
      forall i | 0 <= i < n ensures r[i] == swapped[i] {
        RotationIndex(i, k, n);
      }
      assert r == swapped;
      assert s == s[..n - m] + s[n - m..];
    }
  }

  /** `l[::-1]`. */
  function Reverse<T>(s: seq<T>): (r: seq<T>)
    ensures |r| == |s|
    ensures forall i :: 0 <= i < |s| ==> r[i] == s[|s| - 1 - i]
  {
    if s == [] then [] else Reverse(s[1..]) + [s[0]]
  }

  /** No element occurs twice. */
  predicate Distinct<T(==)>(s: seq<T>)
  {
    forall i, j :: 0 <= i < j < |s| ==> s[i] != s[j]
  }

  /** Keeps the first occurrence of every element, in order. */
  function Dedup<T(==, !new)>(s: seq<T>): (r: seq<T>)
    ensures forall x :: x in r <==> x in s
    ensures forall i, j :: 0 <= i < j < |r| ==> r[i] != r[j]
  {
    if s == [] then []
    else
      var rest := Dedup(s[..|s| - 1]);
      if s[|s| - 1] in rest then rest else rest + [s[|s| - 1]]
  }

  /** `sorted(list(set(s)))` on integers: the distinct elements in increasing order. */
  function SortedDistinct(s: seq<int>): (r: seq<int>)
    ensures forall x :: x in r <==> x in s
    ensures forall i, j :: 0 <= i < j < |r| ==> r[i] < r[j]
  {
    var d := Dedup(s);
    var r := SortInts(d);
    assert forall x :: x in r <==> x in multiset(d);
    forall i, j | 0 <= i < j < |r| ensures r[i] != r[j] {
      DistinctHasCountOne(d, r[i]);
      if r[i] == r[j] {
        RepeatedHasCountTwo(r, i, j);
      }
    }
    r
  }

  lemma {:induction false} DistinctHasCountOne<T>(s: seq<T>, x: T)
    requires forall i, j :: 0 <= i < j < |s| ==> s[i] != s[j]
    ensures multiset(s)[x] <= 1
  {
    if s != [] {
      assert s == [s[0]] + s[1..];
      DistinctHasCountOne(s[1..], x);
      if s[0] == x {
        assert x !in s[1..];
      }
    }
  }

  lemma RepeatedHasCountTwo<T>(s: seq<T>, i: int, j: int)
    requires 0 <= i < j < |s| && s[i] == s[j]
    ensures multiset(s)[s[i]] >= 2
  {
    assert s == s[..j] + s[j..];
    assert s[i] in s[..j];
    assert s[j..][0] == s[i];
  }
}
