/** bijective_vl (voiceleading.py:63-89): every cyclic rotation of the target
    pitch classes is paired voice by voice with the source, each pairing is
    recorded with its size, and one pairing is returned as the best.
    The function attributes `bijective_vl.full_list` and `bijective_vl.size`
    become fields of the result. */
module Bijective {

  import opened PitchClass
  import opened Seqs

  /** One voice of a voice leading: its starting pitch class and its signed motion. */
  datatype Path = Path(origin: int, offset: int)

  /** An entry of `full_list`: a voice leading and its size. */
  datatype Ranked = Ranked(paths: seq<Path>, size: int)

  datatype BijectiveResult =
    | Mismatch   // the inputs differ in length; the Python function returns False
    | Matched(best: seq<Path>, size: int, fullList: seq<Ranked>)

  /** Voice i of `first` moves to voice i of `second` along the shorter way round. */
  function Pairing(first: seq<int>, second: seq<int>): (r: seq<Path>)
    requires |first| == |second|
    ensures |r| == |first|
  {
    seq(|first|, i requires 0 <= i < |first| => Path(first[i], SignedPath(first[i], second[i])))
  }

  /** Every voice of a pairing starts on its own pitch class of `first`, lands on the
      matching pitch class of `second`, and moves at most a tritone. */
  lemma PairingVoices(first: seq<int>, second: seq<int>)
    requires |first| == |second|
    ensures forall i :: 0 <= i < |first| ==>
      && Pairing(first, second)[i].origin == first[i]
      && -5 <= Pairing(first, second)[i].offset <= HalfModulus
      && (first[i] + Pairing(first, second)[i].offset) % Modulus == second[i] % Modulus
      && Abs(Pairing(first, second)[i].offset) == CircularDistance(first[i], second[i])
  {
  }

  /** The size of a voice leading: the total number of semitones moved. */
  function Size(paths: seq<Path>): (n: int)
    ensures n >= 0
  {
    if paths == [] then 0 else Size(paths[..|paths| - 1]) + Abs(paths[|paths| - 1].offset)
  }

  lemma {:induction false} SizeBound(paths: seq<Path>)
    requires forall i :: 0 <= i < |paths| ==> Abs(paths[i].offset) <= HalfModulus
    ensures Size(paths) <= HalfModulus * |paths|
  {
    if paths != [] {
      SizeBound(paths[..|paths| - 1]);
    }
  }

  /** The entry that rotation round x (counting from 0) appends to `full_list`:
      `second` has by then been rotated right x + 1 times. */
  function Candidate(first: seq<int>, second: seq<int>, x: int): (c: Ranked)
    requires |first| == |second|
    ensures |c.paths| == |first| && c.size <= HalfModulus * |first|
  {
    var ps := Pairing(first, RotatedRight(second, x + 1));
    PairingVoices(first, RotatedRight(second, x + 1));
    SizeBound(ps);
    Ranked(ps, Size(ps))
  }

  /** `full_list` in the order the loop builds it. */
  function Candidates(first: seq<int>, second: seq<int>): (cs: seq<Ranked>)
    requires |first| == |second|
    ensures |cs| == |first|
  {
    seq(|first|, x requires 0 <= x < |first| => Candidate(first, second, x))
  }

  /** The sort key of `sorted(full_list, key=lambda p: p[1])`. */
  function BySize(a: Ranked, b: Ranked): bool { a.size <= b.size }

  lemma BySizeIsTotalPreorder()
    ensures TotalPreorder(BySize)
  {
  }

  /** One round of the rotation loop appends the round's candidate to `full_list`. */
  lemma CandidatesStep(first: seq<int>, second: seq<int>, x: int, paths: seq<Path>, size: int)
    requires |first| == |second| && 0 <= x < |first|
    requires paths == Pairing(first, RotatedRight(second, x + 1)) && size == Size(paths)
    ensures Candidate(first, second, x) == Ranked(paths, size)
    ensures Candidates(first, second)[..x + 1] == Candidates(first, second)[..x] + [Ranked(paths, size)]
  {
  }

  /** `sorted(full_list, key=lambda p: p[1])` when `sort` is set, else `full_list` itself. */
  function MaybeSorted(fullList: seq<Ranked>, sort: bool): (r: seq<Ranked>)
    ensures |r| == |fullList| && multiset(r) == multiset(fullList)
    ensures !sort ==> r == fullList
    ensures sort ==> SortedBy(r, BySize)
  {
    if sort then
      BySizeIsTotalPreorder();
      SortBySorted(fullList, BySize);
      SortBy(fullList, BySize)
    else fullList
  }

  /** The inner loop: pair `first` with the current rotation voice by voice. */
  method PairVoices(first: seq<int>, rotated: seq<int>) returns (paths: seq<Path>, size: int)
    requires |first| == |rotated|
    ensures paths == Pairing(first, rotated)
    ensures size == Size(paths)
  {
    paths, size := [], 0;
    for i := 0 to |first|
      invariant paths == Pairing(first[..i], rotated[..i])
      invariant size == Size(paths)
    {
      var path := (rotated[i] - first[i]) % Modulus;
      if path > HalfModulus {
        path := path - Modulus;
      }
      assert path == SignedPath(first[i], rotated[i]);
      assert Pairing(first[..i + 1], rotated[..i + 1]) == paths + [Path(first[i], path)];
      assert (paths + [Path(first[i], path)])[..|paths|] == paths;
      paths := paths + [Path(first[i], path)];
      size := size + Abs(path);
    }
    assert first[..|first|] == first && rotated[..|rotated|] == rotated;
  }

  /** bijective_vl exactly as written: the test that keeps the best pairing sits
      after the rotation loop, so it only sees the pairing of the last round,
      and n right rotations restore `second`. What is returned is therefore the
      unrotated pairing (when its size is below the sentinel). */
  method BijectiveVLAsWritten(first: seq<int>, second: seq<int>, sort: bool) returns (r: BijectiveResult)
    ensures r.Mismatch? <==> |first| != |second|
    ensures r.Matched? ==> r.fullList == MaybeSorted(Candidates(first, second), sort)
    ensures r.Matched? ==>
      var unrotated := Pairing(first, second);
      if Size(unrotated) < VeryLargeNumber then r.best == unrotated && r.size == Size(unrotated)
      else r.best == [] && r.size == VeryLargeNumber
  {
    if |first| != |second| {
      return Mismatch;
    }
    var fullList: seq<Ranked> := [];
    var currentBest: seq<Path> := [];
    var currentBestSize := VeryLargeNumber;
    var newSize := 0;
    var newPaths: seq<Path> := [];
    var rotated := second;
    RotatedRightZero(second);
    for x := 0 to |first|
      invariant |rotated| == |second| && rotated == RotatedRight(second, x)
      invariant fullList == Candidates(first, second)[..x]
      invariant x == 0 ==> newPaths == [] && newSize == 0
      invariant x > 0 ==> newPaths == Pairing(first, rotated) && newSize == Size(newPaths)
    {
      RotateRightStep(second, x);
      rotated := RotateRight(rotated);  // second[-1:] + second[:-1]
      newPaths, newSize := PairVoices(first, rotated);
      CandidatesStep(first, second, x, newPaths, newSize);
      fullList := fullList + [Ranked(newPaths, newSize)];
    }
    if newSize < currentBestSize {
      currentBestSize := newSize;
      currentBest := newPaths;
    }
    RotatedRightFull(second);
    assert fullList == Candidates(first, second)[..|first|] == Candidates(first, second);
    fullList := MaybeSorted(fullList, sort);
    r := Matched(currentBest, currentBestSize, fullList);
  }

  /** bijective_vl as evidently intended: the keep-the-best test inside the
      rotation loop, so the result is the first rotation of least size. */
  method BijectiveVL(first: seq<int>, second: seq<int>, sort: bool) returns (r: BijectiveResult)
    ensures r.Mismatch? <==> |first| != |second|
    ensures r.Matched? ==> r.fullList == MaybeSorted(Candidates(first, second), sort)
    ensures r.Matched? ==> r.size <= VeryLargeNumber
    ensures r.Matched? ==> forall x :: 0 <= x < |first| ==> r.size <= Candidates(first, second)[x].size
    ensures r.Matched? && r.size == VeryLargeNumber ==> r.best == []
    ensures r.Matched? && r.size < VeryLargeNumber ==>
      exists x :: 0 <= x < |first| && Candidates(first, second)[x] == Ranked(r.best, r.size)
        && forall y :: 0 <= y < x ==> Candidates(first, second)[y].size > r.size
  {
    if |first| != |second| {
      return Mismatch;
    }
    var fullList: seq<Ranked> := [];
    var currentBest: seq<Path> := [];
    var currentBestSize := VeryLargeNumber;
    ghost var bestRound := -1;
    var rotated := second;
    RotatedRightZero(second);
    for x := 0 to |first|
      invariant |rotated| == |second| && rotated == RotatedRight(second, x)
      invariant fullList == Candidates(first, second)[..x]
      invariant currentBestSize <= VeryLargeNumber
      invariant forall y :: 0 <= y < x ==> currentBestSize <= fullList[y].size
      invariant currentBestSize == VeryLargeNumber ==> currentBest == [] && bestRound == -1
      invariant currentBestSize < VeryLargeNumber ==>
        && 0 <= bestRound < x
        && fullList[bestRound] == Ranked(currentBest, currentBestSize)
        && forall y :: 0 <= y < bestRound ==> fullList[y].size > currentBestSize
    {
      RotateRightStep(second, x);
      rotated := RotateRight(rotated);  // second[-1:] + second[:-1]
      var newPaths, newSize := PairVoices(first, rotated);
      CandidatesStep(first, second, x, newPaths, newSize);
      fullList := fullList + [Ranked(newPaths, newSize)];
      if newSize < currentBestSize {
        currentBestSize := newSize;
        currentBest := newPaths;
        bestRound := x;
      }
    }
    assert fullList == Candidates(first, second)[..|first|] == Candidates(first, second);
    r := Matched(currentBest, currentBestSize, MaybeSorted(fullList, sort));
    if currentBestSize < VeryLargeNumber {
      assert Candidates(first, second)[bestRound] == Ranked(r.best, r.size);
    }
  }

  /** C-E-G against F-A-C: the unrotated pairing, which the code as written
      returns, moves 15 semitones, while the first rotation moves only 3. */
  lemma UnrotatedPairingIsNotMinimal()
    ensures Size(Pairing([0, 4, 7], [5, 9, 0])) == 15
    ensures Candidate([0, 4, 7], [5, 9, 0], 0).size == 3
  {
    UnrotatedPairingSize();
    FirstRotationSize();
  }

  lemma UnrotatedPairingSize()
    ensures Size(Pairing([0, 4, 7], [5, 9, 0])) == 15
  {
    var unrotated := Pairing([0, 4, 7], [5, 9, 0]);
    assert unrotated == [Path(0, 5), Path(4, 5), Path(7, 5)];
    assert unrotated[..2] == [Path(0, 5), Path(4, 5)] && unrotated[..2][..1] == [Path(0, 5)];
    assert [Path(0, 5)][..0] == [];
    assert Size([Path(0, 5)]) == 5;
    assert Size(unrotated[..2]) == 10;
  }

  lemma FirstRotationSize()
    ensures Candidate([0, 4, 7], [5, 9, 0], 0).size == 3
  {
    var rotated := RotatedRight([5, 9, 0], 1);
    assert (0 - 1) % 3 == 2 && (1 - 1) % 3 == 0 && (2 - 1) % 3 == 1;
    assert rotated == [0, 5, 9];
    var best := Pairing([0, 4, 7], rotated);
    assert best == [Path(0, 0), Path(4, 1), Path(7, 2)];
    assert best[..2] == [Path(0, 0), Path(4, 1)] && best[..2][..1] == [Path(0, 0)];
    assert [Path(0, 0)][..0] == [];
    assert Size([Path(0, 0)]) == 0;
    assert Size(best[..2]) == 1;
  }
}
