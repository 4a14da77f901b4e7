/** vl_normal_form (voiceleading.py:242-257): the "left-packing" normal form of a
    voice leading given as [pitch class, path] pairs. Every rotation of the
    sorted list is transposed so that its first pitch class becomes 0 and sorted
    again; comparing from the last voice down, a rotation whose pitch class is
    smaller at the first difference replaces the best so far. The function
    attribute `vl_normal_form.transposition` becomes a field of the result. */
module NormalForm {

  import opened Wrappers
  import opened Arith
  import opened PitchClass
  import opened Seqs
  import opened Bijective

  /** What vl_normal_form returns, with the transposition it records on the side. */
  datatype Normalized = Normalized(vl: seq<Path>, transposition: int)

  /** Python's order on the two-element lists [pc, path]: by pitch class, then by path. */
  function PathLe(a: Path, b: Path): bool
  {
    a.origin < b.origin || (a.origin == b.origin && a.offset <= b.offset)
  }

  lemma PathLeIsTotalPreorder()
    ensures TotalPreorder(PathLe)
  {
  }

  /** `sorted(...)` on a list of pairs. */
  function SortedPaths(ps: seq<Path>): (r: seq<Path>)
    ensures |r| == |ps| && multiset(r) == multiset(ps)
  {
    SortBy(ps, PathLe)
  }

  /** `sorted(...)` puts the pairs in order. */
  lemma SortedPathsSorted(ps: seq<Path>)
    ensures SortedBy(SortedPaths(ps), PathLe)
  {
    PathLeIsTotalPreorder();
    SortBySorted(ps, PathLe);
  }

  /** `[(k[0] + t) % _MODULUS] + k[1:]`: one pair transposed by t. */
  function Shift(p: Path, t: int): Path
  {
    Path((p.origin + t) % 12, p.offset)
  }

  /** Every pair of a list transposed by t. */
  function Shifted(ps: seq<Path>, t: int): (r: seq<Path>)
    ensures |r| == |ps|
    ensures forall k :: 0 <= k < |ps| ==> r[k] == Shift(ps[k], t)
  {
    seq(|ps|, k requires 0 <= k < |ps| => Shift(ps[k], t))
  }

  /** Every pitch class is in 0..11. */
  predicate Reduced(ps: seq<Path>)
  {
    forall k :: 0 <= k < |ps| ==> 0 <= ps[k].origin < Modulus
  }

  /** `my_list`: the pairs reduced mod 12 and sorted. */
  function MyList(inList: seq<Path>): (r: seq<Path>)
    ensures |r| == |inList| && Reduced(r) && SortedBy(r, PathLe)
    ensures multiset(r) == multiset(Shifted(inList, 0))
  {
    var r := SortedPaths(Shifted(inList, 0));
    SortedPathsSorted(Shifted(inList, 0));
    ReducedPermutation(r, Shifted(inList, 0));
    r
  }

  lemma ReducedPermutation(a: seq<Path>, b: seq<Path>)
    requires multiset(a) == multiset(b) && Reduced(b)
    ensures Reduced(a)
  {
    forall k | 0 <= k < |a| ensures 0 <= a[k].origin < Modulus {
      assert a[k] in multiset(b);
    }
  }

  /** The first `current_best`: my_list transposed so that its first pitch class is 0. */
  function Initial(myList: seq<Path>): seq<Path>
    requires |myList| > 0
  {
    Shifted(myList, -myList[0].origin)
  }

  /** `my_list[-i:] + my_list[:-i]`: the list rotated right by i. */
  function Rotation(myList: seq<Path>, i: int): (r: seq<Path>)
    requires 0 < i < |myList|
    ensures |r| == |myList| && r[0] == myList[|myList| - i]
    ensures multiset(r) == multiset(myList)
  {
    var n := |myList|;
    assert myList == myList[..n - i] + myList[n - i..];
    myList[n - i..] + myList[..n - i]
  }

  /** The i-th rotation, transposed to start on 0 and sorted again. */
  function Challenger(myList: seq<Path>, i: int): (c: seq<Path>)
    requires 0 < i < |myList|
    ensures |c| == |myList|
  {
    var rotated := Rotation(myList, i);
    SortedPaths(Shifted(rotated, -rotated[0].origin))
  }

  /** The highest voice below k where a and b have different pitch classes, or -1. */
  function LastDifference(a: seq<Path>, b: seq<Path>, k: int): (j: int)
    requires |a| == |b| && 0 <= k <= |a|
    ensures -1 <= j < k
    ensures j >= 0 ==> a[j].origin != b[j].origin
    ensures forall m :: j < m < k ==> a[m].origin == b[m].origin
  {
    if k == 0 then -1
    else if a[k - 1].origin != b[k - 1].origin then k - 1
    else LastDifference(a, b, k - 1)
  }

  /** a comes before b when, scanning from the last voice down, the first pitch
      class where they differ is smaller in a. */
  predicate Beats(a: seq<Path>, b: seq<Path>)
    requires |a| == |b|
  {
    var j := LastDifference(a, b, |a|);
    j >= 0 && a[j].origin < b[j].origin
  }

  /** The last difference is pinned down by a differing voice with agreement above it. */
  lemma LastDifferenceAt(a: seq<Path>, b: seq<Path>, j: int)
    requires |a| == |b| && -1 <= j < |a|
    requires j >= 0 ==> a[j].origin != b[j].origin
    requires forall m :: j < m < |a| ==> a[m].origin == b[m].origin
    ensures LastDifference(a, b, |a|) == j
  {
  }

  /** Rotation q of my_list with the transposition vl_normal_form records for it:
      q = 0 is the first `current_best`, q > 0 the challenger of round q. */
  function Rival(myList: seq<Path>, q: int): (r: Normalized)
    requires 0 <= q < |myList|
    ensures |r.vl| == |myList|
  {
    if q == 0 then Normalized(Initial(myList), -myList[0].origin)
    else Normalized(Challenger(myList, q), -Rotation(myList, q)[0].origin)
  }

  /** Every rotation of my_list, in the order vl_normal_form tries them. */
  function Rivals(myList: seq<Path>): (rs: seq<Normalized>)
    ensures |rs| == |myList| && Uniform(rs)
    ensures forall q :: 0 <= q < |myList| ==> rs[q] == Rival(myList, q)
  {
    seq(|myList|, q requires 0 <= q < |myList| => Rival(myList, q))
  }

  /** All candidates have the same number of pairs. */
  predicate Uniform(rs: seq<Normalized>)
  {
    forall q :: 0 <= q < |rs| ==> |rs[q].vl| == |rs[0].vl|
  }

  /** `current_best` and the transposition once the candidates 0 .. i - 1 have been tried:
      a later candidate replaces the best so far only when it beats it. */
  function Scan(rs: seq<Normalized>, i: int): (s: Normalized)
    requires 0 < i <= |rs| && Uniform(rs)
    ensures |s.vl| == |rs[0].vl|
  {
    if i == 1 then rs[0]
    else
      var prev := Scan(rs, i - 1);
      if Beats(rs[i - 1].vl, prev.vl) then rs[i - 1] else prev
  }

  /** Nothing beats itself. */
  lemma BeatsIrreflexive(a: seq<Path>)
    ensures !Beats(a, a)
  {
  }

  /** If c beats b and a does not, then a does not beat c either. */
  lemma BeatsNegativelyTransitive(a: seq<Path>, b: seq<Path>, c: seq<Path>)
    requires |a| == |b| == |c|
    requires Beats(c, b) && !Beats(a, b)
    ensures !Beats(a, c)
  {
    var n := |a|;
    var ja := LastDifference(a, b, n);
    var jc := LastDifference(c, b, n);
    var j := if ja > jc then ja else jc;
    LastDifferenceAt(a, c, j);
  }

  /** The inner loop of vl_normal_form: scan the voices from the last one down;
      the challenger replaces the best at the first voice where its pitch class
      is smaller, and the scan stops at the first voice where it is larger. */
  method Challenge(challenger: seq<Path>, transp: int, currentBest: seq<Path>, transposition: int)
    returns (best: seq<Path>, t: int)
    requires |challenger| == |currentBest|
    ensures Beats(challenger, currentBest) ==> best == challenger && t == transp
    ensures !Beats(challenger, currentBest) ==> best == currentBest && t == transposition
  {
    best, t := currentBest, transposition;
    var j := |challenger|;
    while j > 0
      invariant 0 <= j <= |challenger|
      invariant
        || (&& best == currentBest && t == transposition
            && forall k :: j <= k < |challenger| ==> challenger[k].origin == currentBest[k].origin)
        || (best == challenger && t == transp && Beats(challenger, currentBest))
    {
      j := j - 1;
      if challenger[j].origin < best[j].origin {
        LastDifferenceAt(challenger, currentBest, j);
        best, t := challenger, transp;
      } else if challenger[j].origin > best[j].origin {
        NotBeatenAt(challenger, currentBest, j);
        break;
      }
    }
  }

  /** A larger pitch class at voice j, with equal pitch classes above it, rules out a win. */
  lemma NotBeatenAt(a: seq<Path>, b: seq<Path>, j: int)
    requires |a| == |b| && 0 <= j < |a|
    requires a[j].origin > b[j].origin
    requires forall k :: j < k < |a| ==> a[k].origin == b[k].origin
    ensures !Beats(a, b)
  {
    LastDifferenceAt(a, b, j);
  }

  /** One round of the outer loop of vl_normal_form: the i-th rotation challenges the best so far. */
  method TryRotation(myList: seq<Path>, i: int, currentBest: seq<Path>, transposition: int,
                     ghost rs: seq<Normalized>)
    returns (best: seq<Path>, t: int)
    requires 0 < i < |myList| == |rs| && Uniform(rs) && rs[i] == Rival(myList, i)
    requires Normalized(currentBest, transposition) == Scan(rs, i)
    ensures Normalized(best, t) == Scan(rs, i + 1)
  {
    var n := |myList|;
    var rotated := myList[n - i..] + myList[..n - i];
    var transp := -rotated[0].origin;
    var challenger := SortedPaths(Shifted(rotated, -rotated[0].origin));
    assert Normalized(challenger, transp) == Rival(myList, i);
    best, t := Challenge(challenger, transp, currentBest, transposition);
  }

  /** vl_normal_form. The empty list has no `my_list[0]` and raises IndexError. */
  method VlNormalForm(inList: seq<Path>) returns (r: Result<Normalized>)
    ensures r.Err? <==> |inList| == 0
    ensures r.Err? ==> r.error == IndexError
    ensures r.Ok? ==> r.value == Scan(Rivals(MyList(inList)), |inList|)
  {
    if |inList| == 0 {
      return Err(IndexError);
    }
    var myList := MyList(inList);
    var n := |myList|;
    var currentBest := Shifted(myList, -myList[0].origin);
    var transposition := -myList[0].origin;
    ghost var rs := Rivals(myList);
    assert Normalized(currentBest, transposition) == rs[0] == Scan(rs, 1);
    for i := 1 to n
      invariant Normalized(currentBest, transposition) == Scan(rs, i)
    {
      currentBest, transposition := TryRotation(myList, i, currentBest, transposition, rs);
    }
    r := Ok(Normalized(currentBest, transposition));
  }

  lemma ShiftedAppend(a: seq<Path>, b: seq<Path>, t: int)
    ensures Shifted(a + b, t) == Shifted(a, t) + Shifted(b, t)
  {
    var whole, parts := Shifted(a + b, t), Shifted(a, t) + Shifted(b, t);
    forall k | 0 <= k < |whole| ensures whole[k] == parts[k] {
      if k >= |a| {
        assert (a + b)[k] == b[k - |a|];
      }
    }
  }

  /** Transposing every pair commutes with reordering the pairs. */
  lemma {:induction false} ShiftedPermutation(a: seq<Path>, b: seq<Path>, t: int)
    requires multiset(a) == multiset(b)
    ensures multiset(Shifted(a, t)) == multiset(Shifted(b, t))
    decreases |a|
  {
    if a != [] {
      assert a[0] in multiset(b);
      var k :| 0 <= k < |b| && b[k] == a[0];
      var rest := b[..k] + b[k + 1..];
      assert b == b[..k] + [b[k]] + b[k + 1..];
      assert a == [a[0]] + a[1..];
      calc {
        multiset(a[1..]);
        multiset(a) - multiset{a[0]};
        multiset(b) - multiset{b[k]};
        multiset(b[..k]) + multiset(b[k + 1..]);
        multiset(rest);
      }
      ShiftedPermutation(a[1..], rest, t);
      ShiftedAppend([a[0]], a[1..], t);
      ShiftedAppend(b[..k] + [b[k]], b[k + 1..], t);
      ShiftedAppend(b[..k], [b[k]], t);
      ShiftedAppend(b[..k], b[k + 1..], t);
    }
  }

  /** A sorted list of pairs whose pitch classes are in 0..11 and include 0 starts on 0. */
  lemma SortedStartsOnZero(c: seq<Path>, k: int)
    requires SortedBy(c, PathLe) && Reduced(c)
    requires 0 <= k < |c| && c[k].origin == 0
    ensures c[0].origin == 0
  {
    if k > 0 {
      assert PathLe(c[0], c[k]);
    }
  }

  /** Transposing a pair down by at most its pitch class needs no wrap-around. */
  lemma ShiftDown(p: Path, m: int)
    requires 0 <= m <= p.origin < Modulus
    ensures Shift(p, -m) == Path(p.origin - m, p.offset)
  {
    ModSmall(p.origin - m, 12);
  }

  /** The first `current_best` starts on 0, is sorted and reduced. */
  lemma InitialShape(myList: seq<Path>)
    requires |myList| > 0 && Reduced(myList) && SortedBy(myList, PathLe)
    ensures Packed(Initial(myList))
    ensures TransposedFrom(myList, Normalized(Initial(myList), -myList[0].origin))
  {
    var m := myList[0].origin;
    var c := Initial(myList);
    assert c == Shifted(myList, -m);
    forall k | 0 <= k < |myList| ensures c[k] == Path(myList[k].origin - m, myList[k].offset) {
      if k > 0 {
        assert PathLe(myList[0], myList[k]);
      }
      ShiftDown(myList[k], m);
    }
    forall j, k | 0 <= j < k < |c| ensures PathLe(c[j], c[k]) {
      assert PathLe(myList[j], myList[k]);
    }
    var s := Normalized(c, -m);
    assert s.vl == Shifted(myList, s.transposition);
    assert s.transposition == -myList[0].origin;
  }

  /** Every challenger starts on 0, is sorted and reduced, and is my_list transposed
      by the challenger's own transposition. */
  lemma ChallengerShape(myList: seq<Path>, i: int)
    requires 0 < i < |myList|
    ensures var r := Rival(myList, i); Packed(r.vl) && TransposedFrom(myList, r)
  {
    ChallengerPacked(myList, i);
    ChallengerTransposed(myList, i);
    assert Rival(myList, i) == Normalized(Challenger(myList, i), -Rotation(myList, i)[0].origin);
  }

  lemma ChallengerPacked(myList: seq<Path>, i: int)
    requires 0 < i < |myList|
    ensures Packed(Challenger(myList, i))
  {
    var rotated := Rotation(myList, i);
    assert Challenger(myList, i) == SortedPaths(Shifted(rotated, -rotated[0].origin));
    ShiftedToHeadPacked(rotated);
  }

  /** Any list transposed so that its first pitch class becomes 0 and sorted is packed. */
  lemma ShiftedToHeadPacked(ps: seq<Path>)
    requires |ps| > 0
    ensures Packed(SortedPaths(Shifted(ps, -ps[0].origin)))
  {
    var shifted := Shifted(ps, -ps[0].origin);
    var c := SortedPaths(shifted);
    SortedPathsSorted(shifted);
    assert shifted[0] == Shift(ps[0], -ps[0].origin);
    assert shifted[0].origin == 0;
    forall k | 0 <= k < |shifted| ensures 0 <= shifted[k].origin < Modulus {
      assert shifted[k] == Shift(ps[k], -ps[0].origin);
    }
    ReducedPermutation(c, shifted);
    assert shifted[0] in multiset(c);
    var k :| 0 <= k < |c| && c[k] == shifted[0];
    SortedStartsOnZero(c, k);
  }

  /** A challenger holds my_list's pairs transposed by the rotation's first pitch class. */
  lemma ChallengerTransposed(myList: seq<Path>, i: int)
    requires 0 < i < |myList|
    ensures TransposedFrom(myList, Normalized(Challenger(myList, i), -Rotation(myList, i)[0].origin))
  {
    var rotated := Rotation(myList, i);
    var t := -rotated[0].origin;
    var c := SortedPaths(Shifted(rotated, t));
    assert Challenger(myList, i) == c;
    ShiftedPermutation(rotated, myList, t);
    TransposedFromIntro(myList, c, t, |myList| - i);
  }

  /** A list of pairs that holds my_list transposed by the negated q-th pitch class. */
  lemma TransposedFromIntro(myList: seq<Path>, vl: seq<Path>, t: int, q: int)
    requires 0 <= q < |myList| && t == -myList[q].origin
    requires multiset(vl) == multiset(Shifted(myList, t))
    ensures TransposedFrom(myList, Normalized(vl, t))
  {
  }

  /** Every rotation vl_normal_form tries is sorted, reduced and starts on 0, and is
      my_list transposed by its recorded transposition. */
  lemma RivalShape(myList: seq<Path>, q: int)
    requires 0 <= q < |myList| && Reduced(myList) && SortedBy(myList, PathLe)
    ensures var r := Rival(myList, q); Packed(r.vl) && TransposedFrom(myList, r)
  {
    if q == 0 {
      InitialShape(myList);
    } else {
      ChallengerShape(myList, q);
    }
  }

  /** The pairs are sorted, their pitch classes are in 0..11 and the first is 0. */
  predicate Packed(vl: seq<Path>)
  {
    |vl| > 0 && vl[0].origin == 0 && Reduced(vl) && SortedBy(vl, PathLe)
  }

  /** s holds my_list's pairs transposed by s's transposition, the negated pitch
      class of one of them. */
  ghost predicate TransposedFrom(myList: seq<Path>, s: Normalized)
  {
    && multiset(s.vl) == multiset(Shifted(myList, s.transposition))
    && exists q :: 0 <= q < |myList| && s.transposition == -myList[q].origin
  }

  /** The scan keeps one of the candidates it has tried. */
  lemma {:induction false} ScanIsCandidate(rs: seq<Normalized>, i: int) returns (q: int)
    requires 0 < i <= |rs| && Uniform(rs)
    ensures 0 <= q < i && Scan(rs, i) == rs[q]
  {
    if i == 1 {
      q := 0;
    } else if Beats(rs[i - 1].vl, Scan(rs, i - 1).vl) {
      q := i - 1;
    } else {
      q := ScanIsCandidate(rs, i - 1);
    }
  }

  /** No candidate tried so far beats what the scan keeps. */
  lemma {:induction false} ScanIsLeast(rs: seq<Normalized>, i: int)
    requires 0 < i <= |rs| && Uniform(rs)
    ensures forall q :: 0 <= q < i ==> !Beats(rs[q].vl, Scan(rs, i).vl)
  {
    var s := Scan(rs, i);
    if i == 1 {
      BeatsIrreflexive(rs[0].vl);
    } else {
      ScanIsLeast(rs, i - 1);
      var prev := Scan(rs, i - 1);
      var c := rs[i - 1];
      forall q | 0 <= q < i ensures !Beats(rs[q].vl, s.vl) {
        if q == i - 1 {
          if Beats(c.vl, prev.vl) {
            BeatsIrreflexive(c.vl);
          }
        } else if Beats(c.vl, prev.vl) {
          BeatsNegativelyTransitive(rs[q].vl, prev.vl, c.vl);
        }
      }
    }
  }

  /** Reducing mod 12 first and then transposing is the same as transposing. */
  lemma ShiftAfterReduce(inList: seq<Path>, t: int)
    ensures Shifted(Shifted(inList, 0), t) == Shifted(inList, t)
  {
    forall k | 0 <= k < |inList| ensures Shifted(Shifted(inList, 0), t)[k] == Shifted(inList, t)[k] {
      ModOfSum(t, inList[k].origin, 12);
    }
  }

  /** vl_normal_form's result: as many pairs as the input, sorted, starting on
      pitch class 0, the input transposed by the recorded transposition (a
      negated pitch class of the input, so in -11..0) with every path kept,
      and beaten by none of the rotations it was compared with. */
  lemma NormalFormProperties(inList: seq<Path>)
    requires |inList| > 0
    ensures var rs := Rivals(MyList(inList));
      var s := Scan(rs, |inList|);
      && |s.vl| == |inList|
      && Packed(s.vl)
      && -Modulus < s.transposition <= 0
      && multiset(s.vl) == multiset(Shifted(inList, s.transposition))
      && forall q :: 0 <= q < |inList| ==> !Beats(rs[q].vl, s.vl)
  {
    var myList := MyList(inList);
    var rs := Rivals(myList);
    var q := ScanIsCandidate(rs, |inList|);
    RivalShape(myList, q);
    ScanIsLeast(rs, |inList|);
    var s := Scan(rs, |inList|);
    ShiftedPermutation(myList, Shifted(inList, 0), s.transposition);
    ShiftAfterReduce(inList, s.transposition);
  }
}
