/** voicelead (voiceleading.py:99-128): moves a chord of pitches, voice by voice,
    onto the pitch classes of a target chord along one of the most efficient
    bijective voice leadings, and spells each new note with a pitch taken from
    the target chord or, failing that, from the source chord. */
module VoiceLead {

  import opened Wrappers
  import opened Arith
  import opened PitchClass
  import opened Pitches
  import opened Seqs
  import opened Bijective

  /** The starting pitch classes of a voice leading. */
  function Origins(paths: seq<Path>): (os: seq<int>)
    ensures |os| == |paths|
    ensures forall k :: 0 <= k < |paths| ==> os[k] == paths[k].origin
  {
    seq(|paths|, k requires 0 <= k < |paths| => paths[k].origin)
  }

  /** Dropping the element at index k (what `list.remove` does to the first
      element equal to s[k] when no earlier element equals it) takes one copy of
      it out of the multiset. */
  lemma RemovedMultiset<T>(s: seq<T>, k: nat)
    requires k < |s|
    ensures multiset(s[..k] + s[k + 1..]) == multiset(s) - multiset{s[k]}
  {
    assert s == s[..k] + [s[k]] + s[k + 1..];
  }

  /** Index of the first path that starts on pitch class pc, or |paths| if none does. */
  function FirstWithOrigin(paths: seq<Path>, pc: int): (k: nat)
    ensures k <= |paths|
    ensures k < |paths| ==> paths[k].origin == pc
  {
    if paths == [] then 0
    else if paths[0].origin == pc then 0
    else 1 + FirstWithOrigin(paths[1..], pc)
  }

  /** No path before the one FirstWithOrigin finds starts on pc. */
  lemma {:induction false} FirstWithOriginIsFirst(paths: seq<Path>, pc: int, j: nat)
    requires j < FirstWithOrigin(paths, pc)
    ensures paths[j].origin != pc
  {
    if j > 0 {
      FirstWithOriginIsFirst(paths[1..], pc, j - 1);
    }
  }

  /** What one input pitch contributes to `output`, and the paths left for the others. */
  datatype Taken = Taken(notes: seq<int>, rest: seq<Path>)

  /** The inner loop for one input pitch: it takes the first unused path that
      starts on its pitch class, and that path is used up; when no unused path
      starts there, it adds nothing. */
  function Take(pitch: int, paths: seq<Path>): (t: Taken)
    ensures |t.notes| <= 1
  {
    var k := FirstWithOrigin(paths, pitch % 12);
    if k < |paths| then Taken([pitch + paths[k].offset], paths[..k] + paths[k + 1..])
    else Taken([], paths)
  }

  /** The nested loop that builds `output`, one input pitch after the other. */
  function Applied(ins: seq<int>, paths: seq<Path>): seq<int>
  {
    if ins == [] then []
    else Take(ins[0], paths).notes + Applied(ins[1..], Take(ins[0], paths).rest)
  }

  /** Total motion of a voice leading given by its start and end notes. */
  function Motion(from: seq<int>, to: seq<int>): (m: int)
    requires |from| == |to|
    ensures m >= 0
  {
    if from == [] then 0 else Abs(to[0] - from[0]) + Motion(from[1..], to[1..])
  }

  lemma {:induction false} SizeAppend(a: seq<Path>, b: seq<Path>)
    ensures Size(a + b) == Size(a) + Size(b)
  {
    if b != [] {
      assert (a + b)[..|a + b| - 1] == a + b[..|b| - 1];
      SizeAppend(a, b[..|b| - 1]);
    } else {
      assert a + b == a;
    }
  }

  /** Using up one path takes its motion out of the size. */
  lemma SizeRemoveAt(paths: seq<Path>, k: nat)
    requires k < |paths|
    ensures Size(paths) == Abs(paths[k].offset) + Size(paths[..k] + paths[k + 1..])
  {
    var a, p, b := paths[..k], paths[k], paths[k + 1..];
    assert paths == a + [p] + b;
    SizeSplit(a, p, b);
  }

  lemma SizeSplit(a: seq<Path>, p: Path, b: seq<Path>)
    ensures Size(a + [p] + b) == Abs(p.offset) + Size(a + b)
  {
    SizeAppend(a + [p], b);
    SizeSnoc(a, p);
    SizeAppend(a, b);
  }

  lemma SizeSnoc(a: seq<Path>, p: Path)
    ensures Size(a + [p]) == Size(a) + Abs(p.offset)
  {
    assert (a + [p])[..|a|] == a;
  }

  lemma OriginsOfRemoved(paths: seq<Path>, k: nat)
    requires k < |paths|
    ensures Origins(paths[..k] + paths[k + 1..]) == Origins(paths)[..k] + Origins(paths)[k + 1..]
  {
    var rest := paths[..k] + paths[k + 1..];
    var os := Origins(paths);
    forall i | 0 <= i < |rest| ensures Origins(rest)[i] == (os[..k] + os[k + 1..])[i] {
      if i < k {
        assert rest[i] == paths[i];
      } else {
        assert rest[i] == paths[i + 1];
      }
    }
  }

  /** The first input pitch finds a path, and the remaining paths start on the
      remaining input pitch classes. */
  lemma AppliedStep(ins: seq<int>, paths: seq<Path>)
    requires ins != []
    requires multiset(Origins(paths)) == multiset(PitchClasses(ins))
    ensures FirstWithOrigin(paths, ins[0] % 12) < |paths|
    ensures var k := FirstWithOrigin(paths, ins[0] % 12);
      multiset(Origins(paths[..k] + paths[k + 1..])) == multiset(PitchClasses(ins[1..]))
  {
    var pc := ins[0] % 12;
    PitchClassesCons(ins);
    assert pc in multiset(Origins(paths));
    FirstWithOriginFound(paths, pc);
    var k := FirstWithOrigin(paths, pc);
    OriginsOfRemoved(paths, k);
    RemovedMultiset(Origins(paths), k);
  }

  lemma PitchClassesCons(ins: seq<int>)
    requires ins != []
    ensures PitchClasses(ins) == [ins[0] % 12] + PitchClasses(ins[1..])
  {
    var a, b := PitchClasses(ins), [ins[0] % 12] + PitchClasses(ins[1..]);
    forall i | 0 <= i < |a| ensures a[i] == b[i] {
      if i > 0 {
        assert ins[1..][i - 1] == ins[i];
      }
    }
  }

  /** A pitch class some path starts on is found. */
  lemma FirstWithOriginFound(paths: seq<Path>, pc: int)
    requires pc in multiset(Origins(paths))
    ensures FirstWithOrigin(paths, pc) < |paths|
  {
    var j :| 0 <= j < |paths| && Origins(paths)[j] == pc;
    if FirstWithOrigin(paths, pc) > j {
      FirstWithOriginIsFirst(paths, pc, j);
    }
  }

  /** The voice leading a list of output notes realises: each input pitch, as a
      pitch class, with the interval it moved by. */
  function Realized(ins: seq<int>, out: seq<int>): (r: seq<Path>)
    requires |ins| == |out|
    ensures |r| == |ins|
  {
    seq(|ins|, k requires 0 <= k < |ins| => Path(ins[k] % 12, out[k] - ins[k]))
  }

  lemma RealizedCons(ins: seq<int>, out: seq<int>)
    requires |ins| == |out| && ins != []
    ensures Realized(ins, out) == [Path(ins[0] % 12, out[0] - ins[0])] + Realized(ins[1..], out[1..])
  {
    var a, b := Realized(ins, out), [Path(ins[0] % 12, out[0] - ins[0])] + Realized(ins[1..], out[1..]);
    forall i | 0 <= i < |a| ensures a[i] == b[i] {
      if i > 0 {
        assert ins[1..][i - 1] == ins[i] && out[1..][i - 1] == out[i];
      }
    }
  }

  /** When the paths start on exactly the input pitch classes (as a multiset),
      every input pitch finds its path: the output has one note per input
      pitch, the voice leading it realises is the given one up to order, and its
      total motion is the size of that voice leading. */
  lemma {:induction false} AppliedFull(ins: seq<int>, paths: seq<Path>)
    requires multiset(Origins(paths)) == multiset(PitchClasses(ins))
    ensures |Applied(ins, paths)| == |ins|
    ensures multiset(Realized(ins, Applied(ins, paths))) == multiset(paths)
    ensures Motion(ins, Applied(ins, paths)) == Size(paths)
  {
    if ins == [] {
      assert |Origins(paths)| == 0;
    } else {
      AppliedStep(ins, paths);
      var k := FirstWithOrigin(paths, ins[0] % 12);
      var t := Take(ins[0], paths);
      assert t == Taken([ins[0] + paths[k].offset], paths[..k] + paths[k + 1..]);
      AppliedFull(ins[1..], t.rest);
      SizeRemoveAt(paths, k);
      RemovedMultiset(paths, k);
      var out := Applied(ins, paths);
      var tail := Applied(ins[1..], t.rest);
      assert out == t.notes + tail;
      assert out[1..] == tail;
      RealizedCons(ins, out);
      assert Path(ins[0] % 12, out[0] - ins[0]) == paths[k];
    }
  }

  /** The inner loops of voicelead that walk `in_pitches` and `temp_paths`. */
  method ApplyPaths(ins: seq<int>, paths: seq<Path>) returns (output: seq<int>)
    ensures output == Applied(ins, paths)
  {
    output := [];
    var temp := paths;
    for i := 0 to |ins|
      invariant output + Applied(ins[i..], temp) == Applied(ins, paths)
    {
      assert ins[i..] == [ins[i]] + ins[i + 1..];
      var notes, rest := TakePath(ins[i], temp);
      output, temp := output + notes, rest;
    }
    assert ins[|ins|..] == [];
  }

  /** `for path in temp_paths: ... break` for one input pitch. */
  method TakePath(inPitch: int, temp: seq<Path>) returns (notes: seq<int>, rest: seq<Path>)
    ensures Taken(notes, rest) == Take(inPitch, temp)
  {
    var pc := inPitch % 12;
    ghost var k := FirstWithOrigin(temp, pc);
    notes, rest := [], temp;
    var j := 0;
    while j < |temp|
      invariant 0 <= j <= |temp| && j <= k
      invariant notes == [] && rest == temp
    {
      if pc == temp[j].origin {
        if j < k {
          FirstWithOriginIsFirst(temp, pc, j);
        }
        notes := [inPitch + temp[j].offset];
        rest := temp[..j] + temp[j + 1..];
        break;
      }
      j := j + 1;
    }
  }

  /** Index of the first pitch in `pool` sounding MIDI note m, or |pool| if none does. */
  function FirstWithMidi(pool: seq<Pitch>, m: int): (k: nat)
    ensures k <= |pool|
    ensures k < |pool| ==> Midi(pool[k]) == m
  {
    if pool == [] then 0
    else if Midi(pool[0]) == m then 0
    else 1 + FirstWithMidi(pool[1..], m)
  }

  /** No pitch before the one FirstWithMidi finds sounds m. */
  lemma {:induction false} FirstWithMidiIsFirst(pool: seq<Pitch>, m: int, j: nat)
    requires j < FirstWithMidi(pool, m)
    ensures Midi(pool[j]) != m
  {
    if j > 0 {
      FirstWithMidiIsFirst(pool[1..], m, j - 1);
    }
  }

  lemma FirstWithMidiFound(pool: seq<Pitch>, m: int)
    ensures m in Midis(pool) ==> FirstWithMidi(pool, m) < |pool|
  {
    if m in Midis(pool) {
      var j :| 0 <= j < |pool| && Midis(pool)[j] == m;
      if FirstWithMidi(pool, m) > j {
        FirstWithMidiIsFirst(pool, m, j);
      }
    }
  }

  /** The MIDI notes that some pitch of `pool` sounds, in their order. */
  function Sounded(moves: seq<int>, pool: seq<Pitch>): (s: seq<int>)
    ensures |s| <= |moves|
    ensures forall m :: m in s <==> m in moves && m in Midis(pool)
    ensures (forall k :: 0 <= k < |moves| ==> moves[k] in Midis(pool)) ==> s == moves
  {
    if moves == [] then []
    else
      var init := moves[..|moves| - 1];
      var m := moves[|moves| - 1];
      assert moves == init + [m];
      Sounded(init, pool) + (if m in Midis(pool) then [m] else [])
  }

  /** The loop building `midi_to_pitch`: each MIDI note is spelled by the first
      pitch of `pool` that sounds it; a note no pitch of `pool` sounds is dropped.
      So the result has one pitch per sounded note, in order, and when every note
      is sounded, one pitch per note, sounding that note. Since `pool` is
      `targets + ins`, a target spells a note before any input pitch does. */
  function MapBack(moves: seq<int>, pool: seq<Pitch>): (r: seq<Pitch>)
    ensures |r| == |Sounded(moves, pool)| <= |moves|
    ensures forall k :: 0 <= k < |r| ==>
      FirstWithMidi(pool, Sounded(moves, pool)[k]) < |pool| && r[k] == pool[FirstWithMidi(pool, Sounded(moves, pool)[k])]
    ensures forall k :: 0 <= k < |r| ==> r[k] in pool
    ensures (forall k :: 0 <= k < |moves| ==> moves[k] in Midis(pool)) ==>
      |r| == |moves| && forall k :: 0 <= k < |r| ==> Midi(r[k]) == moves[k]
  {
    if moves == [] then []
    else
      var init := moves[..|moves| - 1];
      var m := moves[|moves| - 1];
      var k := FirstWithMidi(pool, m);
      assert moves == init + [m];
      assert forall j :: 0 <= j < |init| ==> init[j] == moves[j];
      FirstWithMidiFound(pool, m);
      assert k < |pool| <==> m in Midis(pool);
      MapBack(init, pool) + (if k < |pool| then [pool[k]] else [])
  }

  method MapMoves(moves: seq<int>, pool: seq<Pitch>) returns (r: seq<Pitch>)
    ensures r == MapBack(moves, pool)
  {
    r := [];
    for i := 0 to |moves|
      invariant r == MapBack(moves[..i], pool)
    {
      var m := moves[i];
      assert moves[..i + 1][..i] == moves[..i];
      ghost var k := FirstWithMidi(pool, m);
      ghost var before := r;
      var j := 0;
      while j < |pool|
        invariant 0 <= j <= |pool| && j <= k
        invariant r == before
      {
        if Midi(pool[j]) == m {
          if j < k {
            FirstWithMidiIsFirst(pool, m, j);
          }
          r := r + [pool[j]];
          break;
        }
        j := j + 1;
      }
      assert r == MapBack(moves[..i + 1], pool);
    }
    assert moves[..|moves|] == moves;
  }

  /** Every path of a candidate moves at most a tritone and lands on the pitch
      class of some element of `second`. */
  lemma CandidateLands(first: seq<int>, second: seq<int>, x: int)
    requires |first| == |second|
    ensures forall p :: p in Candidate(first, second, x).paths ==>
      && p.origin in first
      && -5 <= p.offset <= HalfModulus
      && exists t :: 0 <= t < |second| && (p.origin + p.offset) % 12 == second[t] % 12
  {
    var paths := Candidate(first, second, x).paths;
    forall p | p in paths
      ensures p.origin in first && -5 <= p.offset <= HalfModulus && LandsOn(p, second)
    {
      var i :| 0 <= i < |paths| && paths[i] == p;
      CandidateVoiceLands(first, second, x, i);
    }
  }

  /** Voice i of a candidate starts on first[i], moves at most a tritone and lands
      on the pitch class of an element of `second`. */
  lemma CandidateVoiceLands(first: seq<int>, second: seq<int>, x: int, i: int)
    requires |first| == |second| && 0 <= i < |first|
    ensures var p := Candidate(first, second, x).paths[i];
      p.origin == first[i] && -5 <= p.offset <= HalfModulus && LandsOn(p, second)
  {
    var rotated := RotatedRight(second, x + 1);
    PairingVoices(first, rotated);
    var p := Candidate(first, second, x).paths[i];
    assert p == Pairing(first, rotated)[i];
    var t := (i - (x + 1)) % |second|;
    assert rotated[i] == second[t];
    assert (p.origin + p.offset) % 12 == second[t] % 12;
  }

  /** `sorted([p.midi for p in ...])`. */
  function SortedMidis(ps: seq<Pitch>): (ms: seq<int>)
    ensures |ms| == |ps|
    ensures multiset(ms) == multiset(Midis(ps))
  {
    SortInts(Midis(ps))
  }

  /** `moves` carry the input pitches `ins` along the voice leading of `c`: one
      note per input pitch, realising exactly the paths of `c` (up to order),
      with total motion the size of `c`. */
  ghost predicate Realizes(ins: seq<int>, moves: seq<int>, c: Ranked)
  {
    && |moves| == |ins|
    && multiset(Realized(ins, moves)) == multiset(c.paths)
    && Motion(ins, moves) == c.size
  }

  /** The pitch classes `bijective_vl` is given: the input pitch classes sorted,
      and the target MIDI numbers sorted. */
  function SourcePcs(ins: seq<Pitch>): seq<int> { SortInts(PitchClasses(Midis(ins))) }

  /** The first half of voicelead: run bijective_vl on the sorted pitch classes
      and choose the voice leading to apply: with top_n = 1 what bijective_vl
      returns, which is the unrotated pairing (its best-keep test sits after the
      rotation loop), and otherwise entry `pick` of the list sorted by size.
      `randrange(0, my_range)` raises ValueError when my_range is not positive. */
  method ChooseLeading(inPcs: seq<int>, targetPcs: seq<int>, topN: int, pick: nat) returns (r: Result<Ranked>)
    requires |inPcs| == |targetPcs|
    requires topN != 1 && Min(|inPcs|, topN) > 0 ==> pick < Min(|inPcs|, topN)
    ensures r.Err? <==> topN != 1 && Min(|inPcs|, topN) <= 0
    ensures r.Err? ==> r.error == ValueError
    ensures r.Ok? && topN != 1 ==>
      var ranking := MaybeSorted(Candidates(inPcs, targetPcs), true);
      && r.value == ranking[pick]
      && forall j :: 0 <= j < |ranking| && ranking[j].size < r.value.size ==> j < pick
    ensures r.Ok? && topN == 1 ==>
      var unrotated := Pairing(inPcs, targetPcs);
      r.value == if Size(unrotated) < VeryLargeNumber then Ranked(unrotated, Size(unrotated)) else Ranked([], VeryLargeNumber)
    ensures r.Ok? && topN == 1 && 0 < |inPcs| && HalfModulus * |inPcs| < VeryLargeNumber ==>
      r.value in Candidates(inPcs, targetPcs)
  {
    var vl := BijectiveVLAsWritten(inPcs, targetPcs, topN != 1);
    if topN != 1 {
      var myRange := Min(|vl.fullList|, topN);
      if myRange <= 0 {
        return Err(ValueError);
      }
      return Ok(vl.fullList[pick]);
    }
    r := Ok(Ranked(vl.best, vl.size));
    if 0 < |inPcs| && HalfModulus * |inPcs| < VeryLargeNumber {
      UnrotatedIsCandidate(inPcs, targetPcs);
    }
  }

  /** The unrotated pairing is the last entry of `full_list`: n right rotations
      restore the target chord. */
  lemma UnrotatedIsCandidate(first: seq<int>, second: seq<int>)
    requires |first| == |second| > 0
    ensures var unrotated := Pairing(first, second);
      && Candidates(first, second)[|first| - 1] == Ranked(unrotated, Size(unrotated))
      && Size(unrotated) <= HalfModulus * |first|
  {
    RotatedRightFull(second);
    assert Candidates(first, second)[|first| - 1] == Candidate(first, second, |first| - 1);
  }

  /** voicelead with the random draw `random.randrange(0, my_range)` given as `pick`.
      `chosen` is the entry of `full_list` whose paths are applied and `moves` the
      MIDI notes before they are spelled (`output`). With top_n = 1 the chosen
      voice leading is the unrotated pairing of the sorted pitch classes; otherwise
      it sits at position `pick` of the list sorted by size, so every entry
      strictly smaller than it comes before `pick`. */
  method Voicelead(ins: seq<Pitch>, targets: seq<Pitch>, topN: int, pick: nat)
    returns (r: Result<seq<Pitch>>, ghost chosen: Ranked, ghost moves: seq<int>)
    requires |ins| == |targets|
    requires topN != 1 && Min(|ins|, topN) > 0 ==> pick < Min(|ins|, topN)
    ensures r.Err? <==> topN != 1 && Min(|ins|, topN) <= 0
    ensures r.Err? ==> r.error == ValueError
    ensures r.Ok? ==> r.value == MapBack(moves, targets + ins)
    ensures r.Ok? ==> moves == Applied(Midis(ins), chosen.paths)
    ensures r.Ok? && 0 < |ins| && (topN != 1 || HalfModulus * |ins| < VeryLargeNumber) ==>
      && chosen in Candidates(SourcePcs(ins), SortedMidis(targets))
      && Realizes(Midis(ins), moves, chosen)
    ensures r.Ok? && topN == 1 ==>
      var unrotated := Pairing(SourcePcs(ins), SortedMidis(targets));
      chosen == if Size(unrotated) < VeryLargeNumber then Ranked(unrotated, Size(unrotated)) else Ranked([], VeryLargeNumber)
    ensures r.Ok? && topN != 1 ==>
      var ranking := MaybeSorted(Candidates(SourcePcs(ins), SortedMidis(targets)), true);
      && chosen == ranking[pick]
      && forall j :: 0 <= j < |ranking| && ranking[j].size < chosen.size ==> j < pick
  {
    var inPitches := Midis(ins);
    var inPcs := SourcePcs(ins);  // sorted([p % _MODULUS for p in in_pitches])
    var targetPcs := SortedMidis(targets);
    var leading := ChooseLeading(inPcs, targetPcs, topN, pick);
    if leading.Err? {
      return Err(leading.error), Ranked([], 0), [];
    }
    chosen := leading.value;
    var output := ApplyPaths(inPitches, leading.value.paths);
    moves := output;
    var spelled := MapMoves(output, targets + ins);
    r := Ok(spelled);
    if 0 < |ins| && (topN != 1 || HalfModulus * |ins| < VeryLargeNumber) {
      if topN != 1 {
        assert chosen in multiset(MaybeSorted(Candidates(inPcs, targetPcs), true));
      }
      ChosenRealized(ins, targets, chosen, moves);
    }
  }

  /** A candidate's paths start on the input pitch classes, so applying them
      realises that candidate. */
  lemma ChosenRealized(ins: seq<Pitch>, targets: seq<Pitch>, chosen: Ranked, moves: seq<int>)
    requires |ins| == |targets|
    requires chosen in Candidates(SourcePcs(ins), SortedMidis(targets))
    requires moves == Applied(Midis(ins), chosen.paths)
    ensures Realizes(Midis(ins), moves, chosen)
  {
    var first, second := SourcePcs(ins), SortedMidis(targets);
    var cands := Candidates(first, second);
    var x :| 0 <= x < |cands| && cands[x] == chosen;
    assert chosen == Candidate(first, second, x);
    PairingVoices(first, RotatedRight(second, x + 1));
    assert Origins(chosen.paths) == first;
    AppliedFull(Midis(ins), chosen.paths);
  }

  /** A pitch moved along a path that starts on its pitch class lands where the path lands. */
  lemma MoveLands(m: int, move: int, p: Path, target: int)
    requires p == Path(m % 12, move - m)
    requires (p.origin + p.offset) % 12 == target % 12
    ensures move % 12 == target % 12
  {
    ModOfSum(p.offset, m, 12);
    assert move == p.offset + m;
  }

  /** Each voice of a voice leading chosen by voicelead moves by at most a
      tritone (five semitones down to six up) and lands on the pitch class of a
      target pitch. */
  lemma VoiceleadMovesLand(ins: seq<Pitch>, targets: seq<Pitch>, chosen: Ranked, moves: seq<int>)
    requires |ins| == |targets|
    requires chosen in Candidates(SourcePcs(ins), SortedMidis(targets))
    requires Realizes(Midis(ins), moves, chosen)
    ensures forall k :: 0 <= k < |ins| ==>
      && -5 <= moves[k] - Midi(ins[k]) <= HalfModulus
      && exists t :: 0 <= t < |targets| && moves[k] % 12 == Midi(targets[t]) % 12
  {
    var first, second := SourcePcs(ins), SortedMidis(targets);
    var cands := Candidates(first, second);
    var x :| 0 <= x < |cands| && cands[x] == chosen;
    CandidateLands(first, second, x);
    forall k | 0 <= k < |ins|
      ensures -5 <= moves[k] - Midi(ins[k]) <= HalfModulus
      ensures exists t :: 0 <= t < |targets| && moves[k] % 12 == Midi(targets[t]) % 12
    {
      VoiceLands(ins, targets, chosen.paths, moves, k);
    }
  }

  /** A path ends on the pitch class of some element of `second`. */
  ghost predicate LandsOn(p: Path, second: seq<int>)
  {
    exists t :: 0 <= t < |second| && (p.origin + p.offset) % 12 == second[t] % 12
  }

  /** One voice of VoiceleadMovesLand. */
  lemma VoiceLands(ins: seq<Pitch>, targets: seq<Pitch>, paths: seq<Path>, moves: seq<int>, k: int)
    requires |moves| == |ins| && 0 <= k < |ins|
    requires multiset(Realized(Midis(ins), moves)) == multiset(paths)
    requires forall p :: p in paths ==> -5 <= p.offset <= HalfModulus && LandsOn(p, SortedMidis(targets))
    ensures -5 <= moves[k] - Midi(ins[k]) <= HalfModulus
    ensures exists t :: 0 <= t < |targets| && moves[k] % 12 == Midi(targets[t]) % 12
  {
    var second := SortedMidis(targets);
    var m := Midi(ins[k]);
    assert Midis(ins)[k] == m;
    var p := Realized(Midis(ins), moves)[k];
    assert p == Path(m % 12, moves[k] - m);
    assert p in multiset(paths);
    var t :| 0 <= t < |second| && (p.origin + p.offset) % 12 == second[t] % 12;
    assert second[t] in multiset(Midis(targets));
    var u :| 0 <= u < |targets| && Midis(targets)[u] == second[t];
    assert Midis(targets)[u] == Midi(targets[u]);
    MoveLands(m, moves[k], p, second[t]);
    assert 0 <= u < |targets| && moves[k] % 12 == Midi(targets[u]) % 12;
  }
}
