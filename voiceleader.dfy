/** VoiceLeader.calculate and calculate_cost (voiceleading.py:328-460): a fragment
    of pitches is read as scale degrees of one scale, rebuilt from the same degrees
    of another scale, and then placed to the source pitches by one of four
    strategies. The music21 scale lookups are function fields of `Scale`, its
    enharmonic respelling is the `simplify` parameter, and every `random.choice`
    is an index drawn from the `choose` oracle. */
module VoiceLeader {

  import opened Wrappers
  import opened PitchClass
  import opened Pitches
  import opened Seqs
  import opened Accidentals
  import Bijective
  import VoiceLead

  /** The values of `reorder_notes` (voiceleading.py:13-15); False is 0. */
  const Direct: int := 0
  const Greedy: int := 1
  const Naive: int := 2
  const Tymoczko: int := 3

  /** The part of a music21 scale that calculate uses: a pitch's degree with the
      alteration it carries relative to the scale (0 for none), and the pitch of
      a degree. */
  datatype Scale = Scale(degreeAndAccidental: Pitch -> (int, int), pitchFromDegree: int -> Pitch)

  /** What add_accidental_to_pitch_accidental demands of the enharmonic respelling. */
  ghost predicate Respelling(simplify: Pitch -> Pitch)
  {
    forall q :: Midi(simplify(q)) == Midi(q) && -2 <= simplify(q).alter <= 2
  }

  /** What `random.choice` returns: an index into a non-empty list. */
  ghost predicate Oracle(choose: (nat, nat) -> nat)
  {
    forall d, n :: 0 < n ==> choose(d, n) < n
  }

  // ---------------------------------------------------------------------------
  // calculate_cost

  /** calculate_cost: the distance between two pitches in semitones. */
  function CalculateCost(src: Pitch, dst: Pitch): (c: nat)
    ensures Midi(dst) == Midi(src) + c || Midi(dst) == Midi(src) - c
  {
    Abs(Midi(src) - Midi(dst))
  }

  /** The cost is symmetric, zero exactly between pitches of the same MIDI number,
      and an octave apart when the pitch is moved an octave away from itself. */
  lemma CalculateCostMeaning(a: Pitch, b: Pitch)
    ensures CalculateCost(a, b) == CalculateCost(b, a)
    ensures CalculateCost(a, b) == 0 <==> Midi(a) == Midi(b)
    ensures CalculateCost(a, Transposed(a, -1)) == Modulus == CalculateCost(a, Transposed(a, 1))
  {
  }

  // ---------------------------------------------------------------------------
  // The degree mapping (voiceleading.py:337-346)

  /** `to_scale.pitchFromDegree(d[0])` for the degree of p in the source scale. */
  function DegreeImage(p: Pitch, fromScale: Scale, toScale: Scale): Pitch
  {
    toScale.pitchFromDegree(fromScale.degreeAndAccidental(p).0)
  }

  /** The target pitch of p: its degree image, with p's alteration added on top
      when accidentals are mapped. */
  function MappedPitch(p: Pitch, fromScale: Scale, toScale: Scale, mapAccidentals: bool,
                       simplify: Pitch -> Pitch): (r: Result<Pitch>)
    requires Respelling(simplify)
    ensures !mapAccidentals ==> r == Ok(DegreeImage(p, fromScale, toScale))
    ensures mapAccidentals ==>
      var image := DegreeImage(p, fromScale, toScale);
      var acc := fromScale.degreeAndAccidental(p).1;
      && (r.Ok? <==> -2 <= image.alter <= 2 && -2 <= acc <= 2)
      && (r.Err? ==> r.error == KeyError)
      && (r.Ok? ==> Midi(r.value) == Midi(image) + acc)
  {
    var image := DegreeImage(p, fromScale, toScale);
    if mapAccidentals then
      AddAccidentalToPitchAccidental(image, fromScale.degreeAndAccidental(p).1, simplify)
    else Ok(image)
  }

  /** The target pitches of a whole fragment, or the first KeyError. */
  function MappedFragment(fragment: seq<Pitch>, fromScale: Scale, toScale: Scale, mapAccidentals: bool,
                          simplify: Pitch -> Pitch): (r: Result<seq<Pitch>>)
    requires Respelling(simplify)
    ensures r.Ok? <==> forall k :: 0 <= k < |fragment| ==>
      MappedPitch(fragment[k], fromScale, toScale, mapAccidentals, simplify).Ok?
    ensures r.Err? ==> r.error == KeyError
    ensures r.Ok? ==> |r.value| == |fragment| && forall k :: 0 <= k < |fragment| ==>
      r.value[k] == MappedPitch(fragment[k], fromScale, toScale, mapAccidentals, simplify).value
  {
    if fragment == [] then Ok([])
    else
      var n := |fragment|;
      var init := MappedFragment(fragment[..n - 1], fromScale, toScale, mapAccidentals, simplify);
      var last := MappedPitch(fragment[n - 1], fromScale, toScale, mapAccidentals, simplify);
      if init.Err? then init
      else if last.Err? then Err(last.error)
      else Ok(init.value + [last.value])
  }

  /** The three lines that build `target_pitches`. */
  method TargetPitches(fragment: seq<Pitch>, fromScale: Scale, toScale: Scale, mapAccidentals: bool,
                       simplify: Pitch -> Pitch) returns (r: Result<seq<Pitch>>)
    requires Respelling(simplify)
    ensures r == MappedFragment(fragment, fromScale, toScale, mapAccidentals, simplify)
  {
    var degrees := seq(|fragment|, k requires 0 <= k < |fragment| => fromScale.degreeAndAccidental(fragment[k]));
    var withoutAccidentals := seq(|fragment|, k requires 0 <= k < |fragment| => toScale.pitchFromDegree(degrees[k].0));
    if !mapAccidentals {
      assert withoutAccidentals == MappedFragment(fragment, fromScale, toScale, mapAccidentals, simplify).value;
      return Ok(withoutAccidentals);
    }
    var targets: seq<Pitch> := [];
    for k := 0 to |fragment|
      invariant MappedFragment(fragment[..k], fromScale, toScale, mapAccidentals, simplify) == Ok(targets)
    {
      var added := AddAccidentalToPitchAccidental(withoutAccidentals[k], degrees[k].1, simplify);
      assert fragment[..k + 1][..k] == fragment[..k];
      if added.Err? {
        MappedFragmentFails(fragment, fromScale, toScale, mapAccidentals, simplify, k + 1);
        return Err(added.error);
      }
      targets := targets + [added.value];
    }
    assert fragment[..|fragment|] == fragment;
    r := Ok(targets);
  }

  /** A prefix that fails makes the whole fragment fail. */
  lemma {:induction false} MappedFragmentFails(fragment: seq<Pitch>, fromScale: Scale, toScale: Scale,
                                               mapAccidentals: bool, simplify: Pitch -> Pitch, k: nat)
    requires Respelling(simplify) && k <= |fragment|
    requires MappedFragment(fragment[..k], fromScale, toScale, mapAccidentals, simplify).Err?
    ensures MappedFragment(fragment, fromScale, toScale, mapAccidentals, simplify) == Err(KeyError)
    decreases |fragment| - k
  {
    if k < |fragment| {
      assert fragment[..k + 1][..k] == fragment[..k];
      MappedFragmentFails(fragment, fromScale, toScale, mapAccidentals, simplify, k + 1);
    } else {
      assert fragment[..k] == fragment;
    }
  }

  // ---------------------------------------------------------------------------
  // src2target: a dictionary keyed by pitch (voiceleading.py:347-349, 369-371, 448)

  /** The dictionary built by assigning values[j] to keys[j] for j < n, in order. */
  function ZipUpTo(keys: seq<Pitch>, values: seq<Pitch>, n: nat): (m: map<Pitch, Pitch>)
    requires n <= |keys| && n <= |values|
    ensures forall x :: x in m <==> x in keys[..n]
  {
    if n == 0 then map[]
    else
      assert keys[..n] == keys[..n - 1] + [keys[n - 1]];
      ZipUpTo(keys, values, n - 1)[keys[n - 1] := values[n - 1]]
  }

  /** A key keeps the value of its last assignment. */
  lemma {:induction false} ZipUpToValue(keys: seq<Pitch>, values: seq<Pitch>, n: nat, j: nat)
    requires j < n <= |keys| && n <= |values|
    requires keys[j] !in keys[j + 1..n]
    ensures ZipUpTo(keys, values, n)[keys[j]] == values[j]
  {
    if j < n - 1 {
      assert keys[j + 1..n] == keys[j + 1..n - 1] + [keys[n - 1]];
      ZipUpToValue(keys, values, n - 1, j);
    }
  }

  /** Every entry of the dictionary comes from some position of the lists. */
  lemma {:induction false} ZipUpToSome(keys: seq<Pitch>, values: seq<Pitch>, n: nat, x: Pitch)
    requires n <= |keys| && n <= |values| && x in ZipUpTo(keys, values, n)
    ensures exists j :: 0 <= j < n && keys[j] == x && ZipUpTo(keys, values, n)[x] == values[j]
  {
    assert n > 0;
    if keys[n - 1] != x {
      ZipUpToSome(keys, values, n - 1, x);
    }
  }

  /** `for s, t in zip(keys, values): src2target[s] = t`. */
  method Zip(keys: seq<Pitch>, values: seq<Pitch>) returns (m: map<Pitch, Pitch>)
    ensures m == ZipUpTo(keys, values, Min(|keys|, |values|))
  {
    m := map[];
    for j := 0 to Min(|keys|, |values|)
      invariant m == ZipUpTo(keys, values, j)
    {
      assert ZipUpTo(keys, values, j + 1) == ZipUpTo(keys, values, j)[keys[j] := values[j]];
      m := m[keys[j] := values[j]];
    }
  }

  /** A pitch that occurs once in the keys is mapped to its own value; when every
      key is distinct the dictionary pairs the lists position by position. */
  lemma ZipDistinct(keys: seq<Pitch>, values: seq<Pitch>)
    requires |keys| == |values|
    requires Distinct(keys)
    ensures forall j :: 0 <= j < |keys| ==> keys[j] in ZipUpTo(keys, values, |keys|)
    ensures forall j :: 0 <= j < |keys| ==> ZipUpTo(keys, values, |keys|)[keys[j]] == values[j]
  {
    forall j | 0 <= j < |keys| ensures keys[j] in ZipUpTo(keys, values, |keys|) {
      assert keys[j] in keys[..|keys|];
    }
    forall j | 0 <= j < |keys| ensures ZipUpTo(keys, values, |keys|)[keys[j]] == values[j] {
      ZipUpToValue(keys, values, |keys|, j);
    }
  }

  /** `[src2target[p] for p in from_fragment]`: KeyError on the first pitch without an entry. */
  function Lookup(fragment: seq<Pitch>, m: map<Pitch, Pitch>): (r: Result<seq<Pitch>>)
    ensures r.Ok? <==> forall k :: 0 <= k < |fragment| ==> fragment[k] in m
    ensures r.Err? ==> r.error == KeyError
    ensures r.Ok? ==> |r.value| == |fragment| && forall k :: 0 <= k < |fragment| ==> r.value[k] == m[fragment[k]]
  {
    if fragment == [] then Ok([])
    else
      var init := Lookup(fragment[..|fragment| - 1], m);
      if init.Err? then init
      else if fragment[|fragment| - 1] !in m then Err(KeyError)
      else Ok(init.value + [m[fragment[|fragment| - 1]]])
  }

  // ---------------------------------------------------------------------------
  // NAIVE_VOICELEADING (voiceleading.py:350-367)

  /** `st`: the semitone distance between the pitch classes, the shorter way round. */
  function Semitones(src: Pitch, dst: Pitch): int
  {
    CircularDistance(Midi(src), Midi(dst))
  }

  /** `namediff`: the same distance between the natural notes on the two letters. */
  function NameDiff(src: Pitch, dst: Pitch): int
  {
    CircularDistance(LetterPitchClass(src.step), LetterPitchClass(dst.step))
  }

  /** The helper's replacement test: a is strictly nearer to src than b, by
      semitones first and by letter distance on a tie. */
  predicate Nearer(src: Pitch, a: Pitch, b: Pitch)
  {
    Semitones(src, a) < Semitones(src, b)
      || (Semitones(src, a) == Semitones(src, b) && NameDiff(src, a) < NameDiff(src, b))
  }

  /** The index of the target the naive strategy picks for src: the first one nearest to it. */
  function NaiveIndex(src: Pitch, targets: seq<Pitch>): (k: nat)
    requires |targets| > 0
    ensures k < |targets|
    ensures forall j :: 0 <= j < |targets| ==> !Nearer(src, targets[j], targets[k])
    ensures forall j :: 0 <= j < k ==> Nearer(src, targets[k], targets[j])
  {
    var n := |targets|;
    if n == 1 then 0
    else
      var k := NaiveIndex(src, targets[..n - 1]);
      assert targets[..n - 1][k] == targets[k];
      assert forall j :: 0 <= j < n - 1 ==> targets[..n - 1][j] == targets[j];
      if Nearer(src, targets[n - 1], targets[k]) then n - 1 else k
  }

  /** The inner loop of the naive strategy for one source pitch: the nearest
      target, moved into the source's octave. The start value (None, 1e10, 1e10)
      loses to any target. */
  method NaiveChoice(src: Pitch, targets: seq<Pitch>) returns (choice: Pitch)
    requires |targets| > 0
    ensures choice == targets[NaiveIndex(src, targets)].(octave := src.octave)
  {
    var best: Option<Pitch> := None;
    var bestNameDiff, bestSemitones := 10000000000, 10000000000;
    ghost var k := 0;
    for j := 0 to |targets|
      invariant j == 0 ==> best == None && bestSemitones == 10000000000
      invariant j > 0 ==>
        && k == NaiveIndex(src, targets[..j])
        && best == Some(targets[k].(octave := src.octave))
        && bestSemitones == Semitones(src, targets[k]) && bestNameDiff == NameDiff(src, targets[k])
    {
      var st := Semitones(src, targets[j]);
      var namediff := NameDiff(src, targets[j]);
      assert targets[..j + 1][..j] == targets[..j];
      if j > 0 {
        assert targets[..j][k] == targets[k];
      }
      if st < bestSemitones || (st == bestSemitones && namediff < bestNameDiff) {
        var tp := targets[j].(octave := src.octave);
        best, bestNameDiff, bestSemitones, k := Some(tp), namediff, st, j;
      }
    }
    assert targets[..|targets|] == targets;
    choice := best.value;
  }

  // ---------------------------------------------------------------------------
  // SHIIHS_VOICELEADING, the greedy strategy (voiceleading.py:372-446)

  /** A key of `matrix`: a source pitch and one candidate for it. */
  datatype Pair = Pair(src: Pitch, dst: Pitch)

  /** `[targetpitch, tlower, tupper]`: a target and the same note an octave below and above. */
  function Octaves(t: Pitch): seq<Pitch>
  {
    [t, Transposed(t, -1), Transposed(t, 1)]
  }

  /** The keys the matrix loops write for one source pitch, in writing order. */
  function PairsOf(s: Pitch, targets: seq<Pitch>): (ps: seq<Pair>)
    ensures |ps| == 3 * |targets|
  {
    if targets == [] then []
    else
      var t := targets[|targets| - 1];
      PairsOf(s, targets[..|targets| - 1]) + [Pair(s, t), Pair(s, Transposed(t, -1)), Pair(s, Transposed(t, 1))]
  }

  /** The keys the matrix loops write, in writing order. */
  function AllPairs(fragment: seq<Pitch>, targets: seq<Pitch>): seq<Pair>
  {
    if fragment == [] then []
    else AllPairs(fragment[..|fragment| - 1], targets) + PairsOf(fragment[|fragment| - 1], targets)
  }

  /** A candidate of s is a target or a target moved an octave down or up. */
  lemma {:induction false} PairsOfMembers(s: Pitch, targets: seq<Pitch>, k: Pair)
    ensures k in PairsOf(s, targets) <==> k.src == s && exists t :: t in targets && k.dst in Octaves(t)
  {
    if targets != [] {
      var n := |targets|;
      var t := targets[n - 1];
      PairsOfMembers(s, targets[..n - 1], k);
      assert targets == targets[..n - 1] + [t];
      if k.src == s && k.dst !in Octaves(t) && exists u :: u in targets && k.dst in Octaves(u) {
        var u :| u in targets && k.dst in Octaves(u);
        assert u in targets[..n - 1];
      }
    }
  }

  /** The keys of `matrix` pair every source pitch with every candidate of every target. */
  lemma {:induction false} AllPairsMembers(fragment: seq<Pitch>, targets: seq<Pitch>, k: Pair)
    ensures k in AllPairs(fragment, targets) <==>
      k.src in fragment && exists t :: t in targets && k.dst in Octaves(t)
  {
    if fragment != [] {
      var n := |fragment|;
      AllPairsMembers(fragment[..n - 1], targets, k);
      PairsOfMembers(fragment[n - 1], targets, k);
      assert fragment == fragment[..n - 1] + [fragment[n - 1]];
    }
  }

  /** The cost matrix once the pairs `written` are stored: each pair maps to its cost. */
  function Costs(written: seq<Pair>): map<Pair, nat>
  {
    map q | q in written :: CalculateCost(q.src, q.dst)
  }

  /** `matrix[k] = cost` on a dictionary that remembers insertion order: a new key
      goes to the end of `keys`, an existing one keeps its place. */
  method Store(keys: seq<Pair>, matrix: map<Pair, nat>, k: Pair, ghost written: seq<Pair>)
    returns (keys': seq<Pair>, matrix': map<Pair, nat>)
    requires keys == Dedup(written) && matrix == Costs(written)
    ensures keys' == Dedup(written + [k]) && matrix' == Costs(written + [k])
  {
    assert (written + [k])[..|written|] == written;
    keys' := if k in matrix then keys else keys + [k];
    matrix' := matrix[k := CalculateCost(k.src, k.dst)];
    CostsAppend(written, k);
  }

  lemma CostsAppend(written: seq<Pair>, k: Pair)
    ensures Costs(written + [k]) == Costs(written)[k := CalculateCost(k.src, k.dst)]
  {
    assert Costs(written + [k]).Keys == Costs(written)[k := CalculateCost(k.src, k.dst)].Keys;
  }

  /** The innermost loop: `matrix[(srcpitch, t)]` for t in `[targetpitch, tlower, tupper]`. */
  method StoreOctaves(keys: seq<Pair>, matrix: map<Pair, nat>, srcpitch: Pitch, targetpitch: Pitch,
                      ghost written: seq<Pair>)
    returns (keys': seq<Pair>, matrix': map<Pair, nat>)
    requires keys == Dedup(written) && matrix == Costs(written)
    ensures var stored := written + [Pair(srcpitch, targetpitch), Pair(srcpitch, Transposed(targetpitch, -1)),
                                     Pair(srcpitch, Transposed(targetpitch, 1))];
      keys' == Dedup(stored) && matrix' == Costs(stored)
  {
    var tlower := targetpitch.(octave := targetpitch.octave - 1);
    var tupper := targetpitch.(octave := targetpitch.octave + 1);
    var first, second, third := Pair(srcpitch, targetpitch), Pair(srcpitch, tlower), Pair(srcpitch, tupper);
    keys', matrix' := Store(keys, matrix, first, written);
    keys', matrix' := Store(keys', matrix', second, written + [first]);
    keys', matrix' := Store(keys', matrix', third, written + [first] + [second]);
    assert tlower == Transposed(targetpitch, -1) && tupper == Transposed(targetpitch, 1);
    ghost var stored := written + [first, second, third];
    assert written + [first] + [second] + [third] == stored;
  }

  /** The middle loop: every target and its octaves for one source pitch. */
  method StoreTargets(keys: seq<Pair>, matrix: map<Pair, nat>, srcpitch: Pitch, targets: seq<Pitch>,
                      ghost before: seq<Pair>)
    returns (keys': seq<Pair>, matrix': map<Pair, nat>)
    requires keys == Dedup(before) && matrix == Costs(before)
    ensures keys' == Dedup(before + PairsOf(srcpitch, targets)) && matrix' == Costs(before + PairsOf(srcpitch, targets))
  {
    keys', matrix' := keys, matrix;
    assert before + PairsOf(srcpitch, targets[..0]) == before;
    for y := 0 to |targets|
      invariant keys' == Dedup(before + PairsOf(srcpitch, targets[..y]))
      invariant matrix' == Costs(before + PairsOf(srcpitch, targets[..y]))
    {
      ghost var written := before + PairsOf(srcpitch, targets[..y]);
      keys', matrix' := StoreOctaves(keys', matrix', srcpitch, targets[y], written);
      assert targets[..y + 1][..y] == targets[..y];
      assert written + [Pair(srcpitch, targets[y]), Pair(srcpitch, Transposed(targets[y], -1)),
                        Pair(srcpitch, Transposed(targets[y], 1))]
        == before + PairsOf(srcpitch, targets[..y + 1]);
    }
    assert targets[..|targets|] == targets;
  }

  /** The first loop nest: `matrix[(srcpitch, t)] = self.calculate_cost(srcpitch, t)`
      for every source pitch, target and octave; `keys` is the dictionary's order. */
  method BuildCostMatrix(fragment: seq<Pitch>, targets: seq<Pitch>) returns (keys: seq<Pair>, matrix: map<Pair, nat>)
    ensures keys == Dedup(AllPairs(fragment, targets)) && matrix == Costs(AllPairs(fragment, targets))
  {
    keys, matrix := [], map[];
    assert Costs([]) == map[];
    for x := 0 to |fragment|
      invariant keys == Dedup(AllPairs(fragment[..x], targets)) && matrix == Costs(AllPairs(fragment[..x], targets))
    {
      keys, matrix := StoreTargets(keys, matrix, fragment[x], targets, AllPairs(fragment[..x], targets));
      assert fragment[..x + 1][..x] == fragment[..x];
    }
    assert fragment[..|fragment|] == fragment;
  }

  /** `inv_matrix[c]`: the keys of cost c, in the dictionary's order. */
  function Tier(keys: seq<Pair>, matrix: map<Pair, nat>, c: nat): (ts: seq<Pair>)
    requires forall q :: q in keys ==> q in matrix
    ensures forall q :: q in ts <==> q in keys && matrix[q] == c
  {
    if keys == [] then []
    else
      var last := keys[|keys| - 1];
      var init := Tier(keys[..|keys| - 1], matrix, c);
      assert keys == keys[..|keys| - 1] + [last];
      if matrix[last] == c then init + [last] else init
  }

  /** The second loop: `inv_matrix[matrix[(s, t)]].append((s, t))`. */
  method Invert(keys: seq<Pair>, matrix: map<Pair, nat>) returns (inv: map<nat, seq<Pair>>)
    requires forall q :: q in keys ==> q in matrix
    ensures forall c :: c in inv ==> inv[c] == Tier(keys, matrix, c) && inv[c] != []
    ensures forall c :: c !in inv ==> Tier(keys, matrix, c) == []
  {
    inv := map[];
    for j := 0 to |keys|
      invariant forall c :: c in inv ==> inv[c] == Tier(keys[..j], matrix, c) && inv[c] != []
      invariant forall c :: c !in inv ==> Tier(keys[..j], matrix, c) == []
    {
      assert keys[..j + 1][..j] == keys[..j];
      var c := matrix[keys[j]];
      inv := inv[c := (if c in inv then inv[c] else []) + [keys[j]]];
    }
    assert keys[..|keys|] == keys;
  }

  /** `max(...)` of a set of costs, ValueError when it is empty. */
  method MaxOf(costs: set<nat>) returns (r: Result<nat>)
    ensures r.Err? <==> costs == {}
    ensures r.Err? ==> r.error == ValueError
    ensures r.Ok? ==> r.value in costs && forall c :: c in costs ==> c <= r.value
  {
    if costs == {} {
      return Err(ValueError);
    }
    var m :| m in costs;
    var rest := costs - {m};
    while rest != {}
      invariant m in costs && rest <= costs
      invariant forall c :: c in costs && c !in rest ==> c <= m
      decreases |rest|
    {
      var c :| c in rest;
      if c > m {
        m := c;
      }
      rest := rest - {c};
    }
    r := Ok(m);
  }

  /** `min(...)` of a non-empty set of costs. */
  method MinOf(costs: set<nat>) returns (m: nat)
    requires costs != {}
    ensures m in costs && forall c :: c in costs ==> m <= c
  {
    m :| m in costs;
    var rest := costs - {m};
    while rest != {}
      invariant m in costs && rest <= costs
      invariant forall c :: c in costs && c !in rest ==> m <= c
      decreases |rest|
    {
      var c :| c in rest;
      if c < m {
        m := c;
      }
      rest := rest - {c};
    }
  }

  /** `list_of_notes`: the candidates of a tier that belong to source pitch p, in order. */
  function NotesFor(tier: seq<Pair>, p: Pitch): (ns: seq<Pitch>)
    ensures forall n :: n in ns <==> Pair(p, n) in tier
  {
    if tier == [] then []
    else
      var last := tier[|tier| - 1];
      var init := NotesFor(tier[..|tier| - 1], p);
      assert tier == tier[..|tier| - 1] + [last];
      if last.src == p then init + [last.dst] else init
  }

  method CollectNotes(tier: seq<Pair>, p: Pitch) returns (notes: seq<Pitch>)
    ensures notes == NotesFor(tier, p)
  {
    notes := [];
    for j := 0 to |tier|
      invariant notes == NotesFor(tier[..j], p)
    {
      assert tier[..j + 1][..j] == tier[..j];
      if tier[j].src == p {
        notes := notes + [tier[j].dst];
      }
    }
    assert tier[..|tier|] == tier;
  }

  /** `distance_to_prev_note[c]`: the notes at distance c from the previous note, in order. */
  function Group(notes: seq<Pitch>, prev: Pitch, c: nat): (g: seq<Pitch>)
    ensures forall n :: n in g <==> n in notes && CalculateCost(prev, n) == c
  {
    if notes == [] then []
    else
      var last := notes[|notes| - 1];
      var init := Group(notes[..|notes| - 1], prev, c);
      assert notes == notes[..|notes| - 1] + [last];
      if CalculateCost(prev, last) == c then init + [last] else init
  }

  /** The distance the greedy strategy prefers: the least distance to the previous
      note that is not zero, or zero when every note repeats it. */
  function Preferred(notes: seq<Pitch>, prev: Pitch): (c: nat)
    requires notes != []
    ensures Group(notes, prev, c) != []
    ensures (exists n :: n in notes && CalculateCost(prev, n) > 0) ==>
      c > 0 && forall n :: n in notes && CalculateCost(prev, n) > 0 ==> c <= CalculateCost(prev, n)
    ensures (forall n :: n in notes ==> CalculateCost(prev, n) == 0) ==> c == 0
  {
    var last := notes[|notes| - 1];
    var own := CalculateCost(prev, last);
    assert last in Group(notes, prev, own);
    if |notes| == 1 then own
    else
      var init := notes[..|notes| - 1];
      assert notes == init + [last];
      var c := Preferred(init, prev);
      assert Group(init, prev, c)[0] in Group(notes, prev, c);
      if c == 0 then own
      else if own == 0 || c <= own then c
      else own
  }

  /** `distance_to_prev_note`: the notes grouped by their distance to the previous note. */
  method GroupByDistance(notes: seq<Pitch>, previous: Pitch) returns (distance: map<nat, seq<Pitch>>)
    ensures forall c :: c in distance ==> distance[c] == Group(notes, previous, c) && distance[c] != []
    ensures forall c :: c !in distance ==> Group(notes, previous, c) == []
  {
    distance := map[];
    for j := 0 to |notes|
      invariant forall c :: c in distance ==> distance[c] == Group(notes[..j], previous, c) && distance[c] != []
      invariant forall c :: c !in distance ==> Group(notes[..j], previous, c) == []
    {
      assert notes[..j + 1][..j] == notes[..j];
      var c := CalculateCost(previous, notes[j]);
      distance := distance[c := (if c in distance then distance[c] else []) + [notes[j]]];
    }
    assert notes[..|notes|] == notes;
  }

  /** One successful tier: the notes of p are grouped by their distance to the
      previous note, the zero group is dropped when another exists, and a random
      note of the nearest remaining group is drawn. */
  method ChooseFromTier(notes: seq<Pitch>, prev: Option<Pitch>, choose: (nat, nat) -> nat, d: nat)
    returns (note: Pitch)
    requires notes != [] && Oracle(choose)
    ensures prev.None? ==> note == notes[choose(d, |notes|)]
    ensures prev.Some? ==>
      var g := Group(notes, prev.value, Preferred(notes, prev.value));
      note == g[choose(d, |g|)]
  {
    if prev.None? {
      return notes[choose(d, |notes|)];
    }
    var previous := prev.value;
    var distance := GroupByDistance(notes, previous);
    assert CalculateCost(previous, notes[0]) in distance;
    if |distance.Keys| > 1 && 0 in distance {
      OtherKey(distance.Keys, 0);
      distance := distance - {0};
    } else if 0 in distance {
      forall c | c in distance ensures c == 0 {
        if c != 0 {
          SingleKey(distance.Keys, 0);
        }
      }
    }
    var best := MinOf(distance.Keys);
    PreferredIsLeastKey(notes, previous, distance, best);
    var group := distance[best];
    note := group[choose(d, |group|)];
  }

  /** A set of more than one element has one besides x. */
  lemma OtherKey(ks: set<nat>, x: nat)
    requires x in ks && |ks| > 1
    ensures ks - {x} != {}
  {
    var rest := ks - {x};
    assert ks == rest + {x} && rest !! {x};
  }

  /** A set of at most one element that holds x is {x}. */
  lemma SingleKey(ks: set<nat>, x: nat)
    requires x in ks && |ks| <= 1
    ensures ks == {x}
  {
    var rest := ks - {x};
    assert ks == rest + {x} && rest !! {x};
    assert |rest| == 0;
  }

  /** The key left least once the zero group is dropped is the preferred distance. */
  lemma PreferredIsLeastKey(notes: seq<Pitch>, prev: Pitch, distance: map<nat, seq<Pitch>>, best: nat)
    requires notes != []
    requires forall c :: c in distance ==> distance[c] == Group(notes, prev, c) && distance[c] != []
    requires forall c :: c !in distance && c != 0 ==> Group(notes, prev, c) == []
    requires 0 in distance ==> distance.Keys == {0}
    requires best in distance && forall c :: c in distance ==> best <= c
    ensures best == Preferred(notes, prev)
  {
    var pref := Preferred(notes, prev);
    var g := Group(notes, prev, best);
    assert g[0] in g;
    if exists n :: n in notes && CalculateCost(prev, n) > 0 {
      assert pref in distance;
    }
  }

  /** Every pair of tier c costs c, as `inv_matrix` is built. */
  ghost predicate TieredByCost(inv: map<nat, seq<Pair>>)
  {
    forall c, k :: c in inv && k in inv[c] ==> CalculateCost(k.src, k.dst) == c
  }

  /** A tier the scan passes over for p: it has no candidate for p, or the previous
      note is one of its candidates and every candidate sounds like it, so the draw
      from the nearest group may give the previous note back. */
  ghost predicate Passable(inv: map<nat, seq<Pair>>, i: nat, p: Pitch, prev: Option<Pitch>)
  {
    || i !in inv
    || NotesFor(inv[i], p) == []
    || (&& prev.Some?
        && prev.value in NotesFor(inv[i], p)
        && forall n :: n in NotesFor(inv[i], p) ==> CalculateCost(prev.value, n) == 0)
  }

  /** v as placed for q by one successful scan when the note placed before is prev:
      a candidate of q from a tier below the maximum distance, not the previous
      note, drawn from the group nearest the previous note, and every cheaper
      tier passed over. */
  ghost predicate Chosen(inv: map<nat, seq<Pair>>, maxDistance: nat, q: Pitch, v: Pitch, prev: Option<Pitch>)
  {
    var c := CalculateCost(q, v);
    && c < maxDistance && c in inv && Pair(q, v) in inv[c]
    && Some(v) != prev
    && (prev.Some? ==>
          var notes := NotesFor(inv[c], q);
          v in Group(notes, prev.value, Preferred(notes, prev.value)))
    && forall i :: 0 <= i < c ==> Passable(inv, i, q, prev)
  }

  /** A drawn note that repeats the previous note leaves its tier passable: it lies
      in the nearest group, so every candidate there sounds like the previous note. */
  lemma RepeatIsPassable(inv: map<nat, seq<Pair>>, i: nat, p: Pitch, prev: Pitch, note: Pitch)
    requires i in inv && NotesFor(inv[i], p) != []
    requires var notes := NotesFor(inv[i], p);
      note in Group(notes, prev, Preferred(notes, prev)) && note == prev
    ensures Passable(inv, i, p, Some(prev))
  {
    var notes := NotesFor(inv[i], p);
    assert CalculateCost(prev, note) == Preferred(notes, prev) == 0;
  }

  /** One pass of `for i in range(max_distance)`: the cheapest tier with a candidate
      for p whose draw differs from the previous note, or nothing (the `while`
      then tries again). `d` counts the random draws made so far. */
  method ScanTiers(p: Pitch, inv: map<nat, seq<Pair>>, maxDistance: nat, prev: Option<Pitch>,
                   choose: (nat, nat) -> nat, d: nat)
    returns (found: Option<Pitch>, d': nat)
    requires Oracle(choose) && TieredByCost(inv)
    ensures d' >= d
    ensures found.Some? ==> Chosen(inv, maxDistance, p, found.value, prev)
    ensures found.None? ==> forall i :: 0 <= i < maxDistance ==> Passable(inv, i, p, prev)
  {
    d' := d;
    for i := 0 to maxDistance
      invariant d' >= d
      invariant forall i' :: 0 <= i' < i ==> Passable(inv, i', p, prev)
    {
      if i in inv {
        var notes := CollectNotes(inv[i], p);
        if notes != [] {
          var note := ChooseFromTier(notes, prev, choose, d');
          d' := d' + 1;
          if Some(note) == prev {
            RepeatIsPassable(inv, i, p, prev.value, note);
            continue;
          }
          assert Pair(p, note) in inv[i];
          return Some(note), d';
        }
      }
    }
    found := None;
  }

  /** The greedy loop's state once the pitches `done` are handled: every one of them
      has a note, `order` lists them in the order they were first placed, the
      previous note is the last one placed, and each note was chosen with the note
      placed just before it as the previous note. */
  ghost predicate Committed(inv: map<nat, seq<Pair>>, maxDistance: nat, done: seq<Pitch>,
                            src2target: map<Pitch, Pitch>, order: seq<Pitch>, prev: Option<Pitch>)
  {
    && (forall q :: q in src2target <==> q in done)
    && order == Dedup(done)
    && prev == (if order == [] then None else Some(src2target[order[|order| - 1]]))
    && forall j :: 0 <= j < |order| ==>
         Chosen(inv, maxDistance, order[j], src2target[order[j]],
                if j == 0 then None else Some(src2target[order[j - 1]]))
  }

  lemma DedupAppend(done: seq<Pitch>, p: Pitch)
    ensures Dedup(done + [p]) == if p in done then Dedup(done) else Dedup(done) + [p]
  {
    assert (done + [p])[..|done|] == done;
  }

  /** A pitch met again keeps its note. */
  lemma CommitRepeat(inv: map<nat, seq<Pair>>, maxDistance: nat, done: seq<Pitch>,
                     src2target: map<Pitch, Pitch>, order: seq<Pitch>, prev: Option<Pitch>, p: Pitch)
    requires Committed(inv, maxDistance, done, src2target, order, prev) && p in done
    ensures Committed(inv, maxDistance, done + [p], src2target, order, prev)
  {
    DedupAppend(done, p);
  }

  /** A new pitch takes a note chosen after the previous one. */
  lemma CommitNew(inv: map<nat, seq<Pair>>, maxDistance: nat, done: seq<Pitch>,
                  src2target: map<Pitch, Pitch>, order: seq<Pitch>, prev: Option<Pitch>, p: Pitch, v: Pitch)
    requires Committed(inv, maxDistance, done, src2target, order, prev) && p !in done
    requires Chosen(inv, maxDistance, p, v, prev)
    ensures Committed(inv, maxDistance, done + [p], src2target[p := v], order + [p], Some(v))
  {
    DedupAppend(done, p);
    var m := src2target[p := v];
    var o := order + [p];
    forall j | 0 <= j < |o|
      ensures Chosen(inv, maxDistance, o[j], m[o[j]], if j == 0 then None else Some(m[o[j - 1]]))
    {
      CommitNewAt(inv, maxDistance, src2target, order, p, v, j);
    }
    assert o[|o| - 1] == p;
    CommittedIntro(inv, maxDistance, done + [p], m, o, Some(v));
  }

  lemma CommittedIntro(inv: map<nat, seq<Pair>>, maxDistance: nat, done: seq<Pitch>,
                       src2target: map<Pitch, Pitch>, order: seq<Pitch>, prev: Option<Pitch>)
    requires forall q :: q in src2target <==> q in done
    requires order == Dedup(done)
    requires prev == (if order == [] then None else Some(src2target[order[|order| - 1]]))
    requires forall j :: 0 <= j < |order| ==>
      Chosen(inv, maxDistance, order[j], src2target[order[j]], if j == 0 then None else Some(src2target[order[j - 1]]))
    ensures Committed(inv, maxDistance, done, src2target, order, prev)
  {
  }

  /** Placing p after `order` keeps each earlier placement and adds p's own. */
  lemma CommitNewAt(inv: map<nat, seq<Pair>>, maxDistance: nat, src2target: map<Pitch, Pitch>,
                    order: seq<Pitch>, p: Pitch, v: Pitch, j: nat)
    requires p !in order && forall q :: q in order ==> q in src2target
    requires j <= |order|
    requires j < |order| ==>
      Chosen(inv, maxDistance, order[j], src2target[order[j]], if j == 0 then None else Some(src2target[order[j - 1]]))
    requires j == |order| ==>
      Chosen(inv, maxDistance, p, v, if order == [] then None else Some(src2target[order[|order| - 1]]))
    ensures var m, o := src2target[p := v], order + [p];
      Chosen(inv, maxDistance, o[j], m[o[j]], if j == 0 then None else Some(m[o[j - 1]]))
  {
    var m, o := src2target[p := v], order + [p];
    if j < |order| {
      assert o[j] == order[j] && order[j] in order;
      if j > 0 {
        assert o[j - 1] == order[j - 1] && order[j - 1] in order;
      }
    } else if j > 0 {
      assert o[j - 1] == order[|order| - 1] && order[|order| - 1] in order;
    }
  }

  /** Successive placements give different notes. */
  lemma CommittedDiffer(inv: map<nat, seq<Pair>>, maxDistance: nat, done: seq<Pitch>,
                        src2target: map<Pitch, Pitch>, order: seq<Pitch>, prev: Option<Pitch>)
    requires Committed(inv, maxDistance, done, src2target, order, prev)
    ensures forall j :: 0 < j < |order| ==> src2target[order[j]] != src2target[order[j - 1]]
  {
    forall j | 0 < j < |order| ensures src2target[order[j]] != src2target[order[j - 1]] {
      assert Chosen(inv, maxDistance, order[j], src2target[order[j]], Some(src2target[order[j - 1]]));
    }
  }

  lemma CommittedPrefix(inv: map<nat, seq<Pair>>, maxDistance: nat, fragment: seq<Pitch>, x: nat,
                        src2target: map<Pitch, Pitch>, order: seq<Pitch>, prev: Option<Pitch>)
    requires x < |fragment|
    requires Committed(inv, maxDistance, fragment[..x] + [fragment[x]], src2target, order, prev)
    ensures Committed(inv, maxDistance, fragment[..x + 1], src2target, order, prev)
  {
    assert fragment[..x + 1] == fragment[..x] + [fragment[x]];
  }

  /** The loop `for p in from_fragment: while p not in src2target: ...`, with the
      number of scans bounded by `fuel`. */
  method Commit(fragment: seq<Pitch>, inv: map<nat, seq<Pair>>, maxDistance: nat,
                choose: (nat, nat) -> nat, fuel: nat)
    returns (r: Result<map<Pitch, Pitch>>, ghost order: seq<Pitch>, ghost last: Option<Pitch>)
    requires Oracle(choose) && TieredByCost(inv)
    ensures r.Err? ==> r.error == OutOfFuel
    ensures r.Ok? ==> Committed(inv, maxDistance, fragment, r.value, order, last)
  {
    var src2target: map<Pitch, Pitch> := map[];
    var prev: Option<Pitch> := None;
    var d: nat := 0;
    var fuelLeft := fuel;
    order := [];
    for x := 0 to |fragment|
      invariant Committed(inv, maxDistance, fragment[..x], src2target, order, prev)
    {
      var placed;
      placed, src2target, order, prev, d, fuelLeft :=
        AssignPitch(fragment[x], inv, maxDistance, choose, fragment[..x], src2target, order, prev, d, fuelLeft);
      if !placed {
        return Err(OutOfFuel), order, prev;
      }
      CommittedPrefix(inv, maxDistance, fragment, x, src2target, order, prev);
    }
    assert fragment[..|fragment|] == fragment;
    r, last := Ok(src2target), prev;
  }

  /** The inner `while p not in src2target:` for one pitch p: scan the tiers again
      until p has a note; `placed` is false when the fuel runs out first. */
  method AssignPitch(p: Pitch, inv: map<nat, seq<Pair>>, maxDistance: nat, choose: (nat, nat) -> nat,
                     ghost done: seq<Pitch>, src2target: map<Pitch, Pitch>, ghost order: seq<Pitch>,
                     prev: Option<Pitch>, d: nat, fuel: nat)
    returns (placed: bool, src2target': map<Pitch, Pitch>, ghost order': seq<Pitch>,
             prev': Option<Pitch>, d': nat, fuel': nat)
    requires Oracle(choose) && TieredByCost(inv)
    requires Committed(inv, maxDistance, done, src2target, order, prev)
    ensures placed ==> Committed(inv, maxDistance, done + [p], src2target', order', prev')
    ensures placed && p !in src2target ==>
      && src2target' == src2target[p := src2target'[p]] && order' == order + [p]
      && Chosen(inv, maxDistance, p, src2target'[p], prev)
    ensures placed && p in src2target ==> src2target' == src2target && order' == order && prev' == prev
    ensures fuel' <= fuel
  {
    src2target', order', prev', d', fuel' := src2target, order, prev, d, fuel;
    ghost var current := done;
    if p in src2target {
      CommitRepeat(inv, maxDistance, done, src2target, order, prev, p);
      current := done + [p];
    }
    while p !in src2target'
      invariant Committed(inv, maxDistance, current, src2target', order', prev')
      invariant current == if p in src2target' then done + [p] else done
      invariant p !in src2target' ==> src2target' == src2target && order' == order && prev' == prev
      invariant p in src2target' && p !in src2target ==>
        && src2target' == src2target[p := src2target'[p]] && order' == order + [p]
        && Chosen(inv, maxDistance, p, src2target'[p], prev)
      invariant p in src2target ==> src2target' == src2target && order' == order && prev' == prev
      invariant fuel' <= fuel
      decreases fuel'
    {
      if fuel' == 0 {
        return false, src2target', order', prev', d', fuel';
      }
      fuel' := fuel' - 1;
      var found;
      found, d' := ScanTiers(p, inv, maxDistance, prev', choose, d');
      if found.Some? {
        CommitNew(inv, maxDistance, current, src2target', order', prev', p, found.value);
        src2target' := src2target'[p := found.value];
        order' := order' + [p];
        prev' := found;
        current := current + [p];
      }
    }
    placed := true;
  }

  /** n is a candidate note: a target, or a target moved an octave down or up. */
  ghost predicate Candidate(targets: seq<Pitch>, n: Pitch)
  {
    exists t :: t in targets && n in Octaves(t)
  }

  /** A cost tier the greedy scan passes over for q: no candidate is i semitones
      from q, or the previous note is such a candidate and every such candidate
      sounds like it, so the draw may repeat the previous note. */
  ghost predicate TierPassable(targets: seq<Pitch>, q: Pitch, i: nat, prev: Option<Pitch>)
  {
    || (forall n :: Candidate(targets, n) ==> CalculateCost(q, n) != i)
    || (&& prev.Some?
        && Candidate(targets, prev.value) && CalculateCost(q, prev.value) == i
        && forall n :: Candidate(targets, n) && CalculateCost(q, n) == i ==> CalculateCost(prev.value, n) == 0)
  }

  /** What the greedy strategy promises of the note v placed for q when the note
      placed just before is prev: v is a candidate; some pair of the matrix costs
      more (the scan stops below `max_distance`); v is not the previous note; every
      cheaper tier is passed over; and within its tier v is nearest the previous
      note, a repeat of the previous note's sound being taken only when nothing
      else is in the tier. */
  ghost predicate GreedyNote(fragment: seq<Pitch>, targets: seq<Pitch>, q: Pitch, v: Pitch, prev: Option<Pitch>)
  {
    var c := CalculateCost(q, v);
    && Candidate(targets, v)
    && (exists k :: k in AllPairs(fragment, targets) && c < CalculateCost(k.src, k.dst))
    && Some(v) != prev
    && (forall i :: 0 <= i < c ==> TierPassable(targets, q, i, prev))
    && (prev.Some? ==>
          forall n :: Candidate(targets, n) && CalculateCost(q, n) == c && CalculateCost(prev.value, n) > 0 ==>
            0 < CalculateCost(prev.value, v) <= CalculateCost(prev.value, n))
  }

  /** Every pair of the matrix sits in the tier of its cost. */
  ghost predicate TiersComplete(inv: map<nat, seq<Pair>>, fragment: seq<Pitch>, targets: seq<Pitch>)
  {
    forall k :: k in AllPairs(fragment, targets) ==>
      CalculateCost(k.src, k.dst) in inv && k in inv[CalculateCost(k.src, k.dst)]
  }

  /** The tiers built from the matrix hold the candidate pairs by cost. */
  lemma TiersOfMatrix(fragment: seq<Pitch>, targets: seq<Pitch>, keys: seq<Pair>, inv: map<nat, seq<Pair>>)
    requires keys == Dedup(AllPairs(fragment, targets))
    requires forall c :: c in inv ==> inv[c] == Tier(keys, Costs(AllPairs(fragment, targets)), c) && inv[c] != []
    requires forall c :: c !in inv ==> Tier(keys, Costs(AllPairs(fragment, targets)), c) == []
    ensures TieredByCost(inv)
    ensures forall c, k :: c in inv && k in inv[c] ==> k in AllPairs(fragment, targets)
    ensures TiersComplete(inv, fragment, targets)
    ensures inv == map[] <==> fragment == [] || targets == []
  {
    var all := AllPairs(fragment, targets);
    var matrix := Costs(all);
    forall k | k in all
      ensures CalculateCost(k.src, k.dst) in inv && k in inv[CalculateCost(k.src, k.dst)]
    {
      assert k in keys;
      assert k in Tier(keys, matrix, matrix[k]);
    }
    if fragment != [] && targets != [] {
      var k := Pair(fragment[0], targets[0]);
      AllPairsMembers(fragment, targets, k);
      assert k.dst in Octaves(targets[0]);
      assert k in all;
    } else {
      assert all == [] by {
        if all != [] {
          AllPairsMembers(fragment, targets, all[0]);
        }
      }
      forall c | c in inv ensures false {
      }
    }
  }

  /** For a source pitch, the notes a tier holds are exactly its candidates of that cost. */
  lemma NotesForMeaning(fragment: seq<Pitch>, targets: seq<Pitch>, inv: map<nat, seq<Pair>>, i: nat, q: Pitch, n: Pitch)
    requires q in fragment
    requires forall c, k :: c in inv && k in inv[c] ==> k in AllPairs(fragment, targets)
    requires TieredByCost(inv) && TiersComplete(inv, fragment, targets)
    ensures (i in inv && n in NotesFor(inv[i], q)) <==> Candidate(targets, n) && CalculateCost(q, n) == i
  {
    AllPairsMembers(fragment, targets, Pair(q, n));
  }

  /** A note placed by the scan is a greedy note. */
  lemma ChosenIsGreedyNote(fragment: seq<Pitch>, targets: seq<Pitch>, inv: map<nat, seq<Pair>>,
                           maxDistance: nat, q: Pitch, v: Pitch, prev: Option<Pitch>)
    requires q in fragment
    requires forall c, k :: c in inv && k in inv[c] ==> k in AllPairs(fragment, targets)
    requires TieredByCost(inv) && TiersComplete(inv, fragment, targets)
    requires maxDistance in inv && inv[maxDistance] != []
    requires Chosen(inv, maxDistance, q, v, prev)
    ensures GreedyNote(fragment, targets, q, v, prev)
  {
    var c := CalculateCost(q, v);
    NotesForMeaning(fragment, targets, inv, c, q, v);
    var top := inv[maxDistance][0];
    assert top in inv[maxDistance];
    assert top in AllPairs(fragment, targets) && c < CalculateCost(top.src, top.dst);
    forall i | 0 <= i < c ensures TierPassable(targets, q, i, prev) {
      assert Passable(inv, i, q, prev);
      forall n ensures (i in inv && n in NotesFor(inv[i], q)) <==> Candidate(targets, n) && CalculateCost(q, n) == i {
        NotesForMeaning(fragment, targets, inv, i, q, n);
      }
      if prev.Some? && i in inv && prev.value in NotesFor(inv[i], q) {
        assert Candidate(targets, prev.value) && CalculateCost(q, prev.value) == i;
      }
    }
    if prev.Some? {
      var notes := NotesFor(inv[c], q);
      var pref := Preferred(notes, prev.value);
      assert CalculateCost(prev.value, v) == pref;
      forall n | Candidate(targets, n) && CalculateCost(q, n) == c && CalculateCost(prev.value, n) > 0
        ensures 0 < CalculateCost(prev.value, v) <= CalculateCost(prev.value, n)
      {
        NotesForMeaning(fragment, targets, inv, c, q, n);
        assert n in notes;
      }
    }
  }

  /** The committed dictionary read back over the fragment: every pitch has a
      note, equal pitches have equal notes, and in order of first appearance each
      note is a greedy note after the note of the pitch before. */
  lemma GreedyOutcome(fragment: seq<Pitch>, targets: seq<Pitch>, inv: map<nat, seq<Pair>>, maxDistance: nat,
                      m: map<Pitch, Pitch>, order: seq<Pitch>, prev: Option<Pitch>)
    requires forall c, k :: c in inv && k in inv[c] ==> k in AllPairs(fragment, targets)
    requires TieredByCost(inv) && TiersComplete(inv, fragment, targets)
    requires maxDistance in inv && inv[maxDistance] != []
    requires Committed(inv, maxDistance, fragment, m, order, prev)
    ensures Lookup(fragment, m).Ok?
    ensures var out := Lookup(fragment, m).value;
      && |out| == |fragment|
      && SameNotes(fragment, out)
      && GreedyNotes(fragment, targets, out)
      && NoRepeat(fragment, out)
    ensures forall q :: q in fragment ==> q in m
    ensures order == Dedup(fragment)
  {
    forall k | 0 <= k < |fragment| ensures fragment[k] in m {
      assert fragment[k] in fragment;
    }
    var out := Lookup(fragment, m).value;
    forall j | 0 <= j < |order|
      ensures GreedyNote(fragment, targets, order[j], out[LastIndex(fragment, order[j])], NoteBefore(fragment, out, j))
    {
      assert fragment[LastIndex(fragment, order[j])] == order[j];
      if j > 0 {
        assert fragment[LastIndex(fragment, order[j - 1])] == order[j - 1];
      }
      assert order[j] in order;
      ChosenIsGreedyNote(fragment, targets, inv, maxDistance, order[j], m[order[j]],
                         if j == 0 then None else Some(m[order[j - 1]]));
    }
    GreedyNotesDiffer(fragment, targets, out);
  }

  /** The SHIIHS_VOICELEADING branch of calculate: the note chosen for every source
      pitch, or ValueError from `max` over no candidates, or OutOfFuel when the
      retry loop runs past its bound. */
  method GreedyVL(fragment: seq<Pitch>, targets: seq<Pitch>, choose: (nat, nat) -> nat, fuel: nat)
    returns (r: Result<seq<Pitch>>, ghost src2target: map<Pitch, Pitch>, ghost order: seq<Pitch>)
    requires Oracle(choose)
    ensures GreedySpec(fragment, targets, r)
    ensures r.Ok? ==> forall k :: 0 <= k < |fragment| ==>
      fragment[k] in src2target && r.value[k] == src2target[fragment[k]]
    ensures r.Ok? ==> order == Dedup(fragment)
  {
    var keys, matrix := BuildCostMatrix(fragment, targets);
    var inv := Invert(keys, matrix);
    TiersOfMatrix(fragment, targets, keys, inv);
    var maxDistance := MaxOf(inv.Keys);
    if maxDistance.Err? {
      return Err(ValueError), map[], [];
    }
    var committed;
    ghost var last;
    committed, order, last := Commit(fragment, inv, maxDistance.value, choose, fuel);
    if committed.Err? {
      return Err(OutOfFuel), map[], order;
    }
    var m := committed.value;
    src2target := m;
    r := Lookup(fragment, m);
    GreedyOutcome(fragment, targets, inv, maxDistance.value, m, order, last);
  }

  // ---------------------------------------------------------------------------
  // The NAIVE_VOICELEADING branch (voiceleading.py:350-367)

  /** `src2target_helper` read back into `src2target`: each source pitch with its
      nearest target moved into its own octave; nothing when there are no targets. */
  method NaiveMap(fragment: seq<Pitch>, targets: seq<Pitch>) returns (m: map<Pitch, Pitch>)
    ensures forall q :: q in m <==> q in fragment && targets != []
    ensures forall q :: q in m ==> m[q] == targets[NaiveIndex(q, targets)].(octave := q.octave)
  {
    m := map[];
    for x := 0 to |fragment|
      invariant forall q :: q in m <==> q in fragment[..x] && targets != []
      invariant forall q :: q in m ==> m[q] == targets[NaiveIndex(q, targets)].(octave := q.octave)
    {
      assert fragment[..x + 1] == fragment[..x] + [fragment[x]];
      if targets != [] {
        var tp := NaiveChoice(fragment[x], targets);
        m := m[fragment[x] := tp];
      }
    }
    assert fragment[..|fragment|] == fragment;
  }

  // ---------------------------------------------------------------------------
  // The four strategies, each ending in `[src2target[p] for p in from_fragment]`

  /** The last position of x in s: the assignment a dictionary keeps. */
  function LastIndex(s: seq<Pitch>, x: Pitch): (j: nat)
    requires x in s
    ensures j < |s| && s[j] == x
  {
    var n := |s|;
    if s[n - 1] == x then n - 1
    else
      assert s == s[..n - 1] + [s[n - 1]];
      LastIndex(s[..n - 1], x)
  }

  /** x does not occur after its last position. */
  lemma {:induction false} LastIndexIsLast(s: seq<Pitch>, x: Pitch)
    requires x in s
    ensures x !in s[LastIndex(s, x) + 1..]
  {
    var n := |s|;
    if s[n - 1] != x {
      assert s == s[..n - 1] + [s[n - 1]];
      LastIndexIsLast(s[..n - 1], x);
      var j := LastIndex(s[..n - 1], x);
      assert s[j + 1..] == s[..n - 1][j + 1..] + [s[n - 1]];
    }
  }

  /** In a sequence without repeats the last position of an element is its only one. */
  lemma LastIndexOfDistinct(s: seq<Pitch>, k: nat)
    requires Distinct(s) && k < |s|
    ensures LastIndex(s, s[k]) == k
  {
    var j := LastIndex(s, s[k]);
    assert s[j] == s[k];
  }

  /** The `not reorder_notes` branch: `src2target` is `zip(from_fragment, target_pitches)`,
      so each pitch gets the target at its last position, which is its own position
      when the pitches are distinct. */
  ghost predicate DirectSpec(fragment: seq<Pitch>, targets: seq<Pitch>, r: Result<seq<Pitch>>)
    requires |targets| == |fragment|
  {
    && r.Ok? && |r.value| == |fragment|
    && (forall k :: 0 <= k < |fragment| ==> r.value[k] == targets[LastIndex(fragment, fragment[k])])
    && (Distinct(fragment) ==> r.value == targets)
  }

  /** Every source pitch is a key of `zip(from_fragment, target_pitches)`, holding the
      value of its last position. */
  lemma ZipCovers(fragment: seq<Pitch>, targets: seq<Pitch>, k: nat)
    requires |targets| == |fragment| && k < |fragment|
    ensures fragment[k] in ZipUpTo(fragment, targets, |fragment|)
    ensures ZipUpTo(fragment, targets, |fragment|)[fragment[k]] == targets[LastIndex(fragment, fragment[k])]
  {
    assert fragment[..|fragment|] == fragment;
    LastIndexIsLast(fragment, fragment[k]);
    ZipUpToValue(fragment, targets, |fragment|, LastIndex(fragment, fragment[k]));
  }

  /** `[src2target[p] for p in from_fragment]` over the zipped dictionary. */
  lemma DirectLookup(fragment: seq<Pitch>, targets: seq<Pitch>)
    requires |targets| == |fragment|
    ensures var r := Lookup(fragment, ZipUpTo(fragment, targets, |fragment|));
      r.Ok? && |r.value| == |fragment| &&
      forall k :: 0 <= k < |fragment| ==> r.value[k] == targets[LastIndex(fragment, fragment[k])]
  {
    var m := ZipUpTo(fragment, targets, |fragment|);
    forall k | 0 <= k < |fragment|
      ensures fragment[k] in m && m[fragment[k]] == targets[LastIndex(fragment, fragment[k])]
    {
      ZipCovers(fragment, targets, k);
    }
  }

  /** Distinct pitches get the targets in order. */
  lemma DirectDistinct(fragment: seq<Pitch>, targets: seq<Pitch>, out: seq<Pitch>)
    requires |targets| == |fragment| == |out| && Distinct(fragment)
    requires forall k :: 0 <= k < |fragment| ==> out[k] == targets[LastIndex(fragment, fragment[k])]
    ensures out == targets
  {
    forall k | 0 <= k < |fragment| ensures out[k] == targets[k] {
      LastIndexOfDistinct(fragment, k);
    }
  }

  method DirectVL(fragment: seq<Pitch>, targets: seq<Pitch>) returns (r: Result<seq<Pitch>>)
    requires |targets| == |fragment|
    ensures DirectSpec(fragment, targets, r)
  {
    var src2target := Zip(fragment, targets);
    r := Lookup(fragment, src2target);
    DirectLookup(fragment, targets);
    if Distinct(fragment) {
      DirectDistinct(fragment, targets, r.value);
    }
  }

  /** The NAIVE_VOICELEADING branch: each pitch gets its nearest target, moved into
      its own octave. */
  ghost predicate NaiveSpec(fragment: seq<Pitch>, targets: seq<Pitch>, r: Result<seq<Pitch>>)
  {
    && (r.Ok? <==> fragment == [] || targets != [])
    && (r.Err? ==> r.error == KeyError)
    && (r.Ok? ==> |r.value| == |fragment| && forall k :: 0 <= k < |fragment| ==>
          r.value[k] == targets[NaiveIndex(fragment[k], targets)].(octave := fragment[k].octave))
  }

  method NaiveVL(fragment: seq<Pitch>, targets: seq<Pitch>) returns (r: Result<seq<Pitch>>)
    ensures NaiveSpec(fragment, targets, r)
  {
    var src2target := NaiveMap(fragment, targets);
    r := Lookup(fragment, src2target);
    if fragment != [] && targets == [] {
      assert fragment[0] !in src2target;
    }
  }

  /** The pitches voicelead returns with top_n = 2 and draw `pick`: entry `pick`
      of the rotations sorted by size, applied to the fragment's MIDI notes and
      spelled from the targets, then the fragment. */
  ghost function TymoczkoLeading(fragment: seq<Pitch>, targets: seq<Pitch>, pick: nat): seq<Pitch>
    requires |targets| == |fragment| && pick < |fragment|
  {
    var ranking := Bijective.MaybeSorted(
      Bijective.Candidates(VoiceLead.SourcePcs(fragment), VoiceLead.SortedMidis(targets)), true);
    VoiceLead.MapBack(VoiceLead.Applied(Midis(fragment), ranking[pick].paths), targets + fragment)
  }

  /** The TYMOCZKO_VOICELEADING branch: `zip(from_fragment, vl)` read back for every
      pitch, where vl is what voicelead returns. ValueError for an empty fragment;
      KeyError exactly when some pitch occurs only past the length of vl; each
      note is a target or source pitch, and distinct pitches get vl itself when
      vl is as long as the fragment. */
  ghost predicate TymoczkoSpec(fragment: seq<Pitch>, targets: seq<Pitch>, pick: nat, r: Result<seq<Pitch>>)
    requires |targets| == |fragment|
  {
    if fragment == [] then r == Err(ValueError)
    else
      && pick < |fragment|
      && var vl := TymoczkoLeading(fragment, targets, pick);
         var n := Min(|fragment|, |vl|);
         && r == Lookup(fragment, ZipUpTo(fragment, vl, n))
         && (r.Err? <==> exists k :: 0 <= k < |fragment| && fragment[k] !in fragment[..n])
         && (r.Err? ==> r.error == KeyError)
         && (r.Ok? ==> |r.value| == |fragment| && forall k :: 0 <= k < |fragment| ==> r.value[k] in targets + fragment)
         && (Distinct(fragment) && |vl| == |fragment| ==> r == Ok(vl))
  }

  method TymoczkoVL(fragment: seq<Pitch>, targets: seq<Pitch>, pick: nat) returns (r: Result<seq<Pitch>>)
    requires |targets| == |fragment|
    requires 0 < |fragment| ==> pick < Min(|fragment|, 2)
    ensures TymoczkoSpec(fragment, targets, pick, r)
  {
    var vl;
    ghost var chosen, moves;
    vl, chosen, moves := VoiceLead.Voicelead(fragment, targets, 2, pick);
    if vl.Err? {
      return Err(vl.error);
    }
    assert vl.value == TymoczkoLeading(fragment, targets, pick);
    var src2target := Zip(fragment, vl.value);
    r := Lookup(fragment, src2target);
    TymoczkoLookup(fragment, targets, pick);
  }

  /** Reading every fragment pitch back from the zip of the fragment with the
      output of voicelead meets TymoczkoSpec. */
  lemma TymoczkoLookup(fragment: seq<Pitch>, targets: seq<Pitch>, pick: nat)
    requires |targets| == |fragment| && pick < |fragment|
    ensures var vl := TymoczkoLeading(fragment, targets, pick);
      TymoczkoSpec(fragment, targets, pick, Lookup(fragment, ZipUpTo(fragment, vl, Min(|fragment|, |vl|))))
  {
    var vl := TymoczkoLeading(fragment, targets, pick);
    var n := Min(|fragment|, |vl|);
    var m := ZipUpTo(fragment, vl, n);
    var r := Lookup(fragment, m);
    forall q | q in m ensures m[q] in targets + fragment {
      ZipUpToSome(fragment, vl, n, q);
    }
    if Distinct(fragment) && |vl| == |fragment| {
      DirectLookup(fragment, vl);
      DirectDistinct(fragment, vl, r.value);
    }
  }

  /** The SHIIHS_VOICELEADING branch, as GreedyVL promises it: ValueError exactly
      when there is nothing to pair; otherwise a note per pitch, the same note for
      equal pitches, and in order of first appearance a greedy note after the note
      of the pitch before. */
  ghost predicate GreedySpec(fragment: seq<Pitch>, targets: seq<Pitch>, r: Result<seq<Pitch>>)
  {
    && (r.Err? ==> r.error == ValueError || r.error == OutOfFuel)
    && ((r.Err? && r.error == ValueError) <==> fragment == [] || targets == [])
    && (r.Ok? ==>
          && |r.value| == |fragment|
          && SameNotes(fragment, r.value)
          && GreedyNotes(fragment, targets, r.value)
          && NoRepeat(fragment, r.value))
  }

  /** `src2target` is a dictionary: equal pitches read back the same note. */
  ghost predicate SameNotes(fragment: seq<Pitch>, out: seq<Pitch>)
    requires |out| == |fragment|
  {
    forall i, j :: 0 <= i < |fragment| && 0 <= j < |fragment| && fragment[i] == fragment[j] ==> out[i] == out[j]
  }

  /** Taken in order of first appearance, each pitch of the fragment gets a greedy
      note, the previous note being the note of the pitch before it (none for the
      first). Each pitch is represented by its last position. */
  ghost predicate GreedyNotes(fragment: seq<Pitch>, targets: seq<Pitch>, out: seq<Pitch>)
    requires |out| == |fragment|
  {
    var order := Dedup(fragment);
    forall j :: 0 <= j < |order| ==>
      GreedyNote(fragment, targets, order[j], out[LastIndex(fragment, order[j])], NoteBefore(fragment, out, j))
  }

  /** The note of the pitch placed before the j-th pitch in order of first
      appearance, none for the first: the `previous_note` of its placement. */
  ghost function NoteBefore(fragment: seq<Pitch>, out: seq<Pitch>, j: nat): Option<Pitch>
    requires |out| == |fragment| && j < |Dedup(fragment)|
  {
    if j == 0 then None else Some(out[LastIndex(fragment, Dedup(fragment)[j - 1])])
  }

  /** Taken in order of first appearance, no two successive pitches of the fragment
      get the same note (each pitch is represented by its last position, and all
      its positions get the same note). */
  ghost predicate NoRepeat(fragment: seq<Pitch>, out: seq<Pitch>)
    requires |out| == |fragment|
  {
    var order := Dedup(fragment);
    forall j :: 0 < j < |order| ==>
      out[LastIndex(fragment, order[j])] != out[LastIndex(fragment, order[j - 1])]
  }

  /** The cheapest tier comes first: mapping C4 onto the targets C4 and D4 can only
      give C4, since tier 0 holds C4 and there is no previous note to avoid. */
  lemma GreedyTakesCheapestTier(r: Result<seq<Pitch>>)
    requires GreedySpec([Pitch(C, 0, 4)], [Pitch(C, 0, 4), Pitch(D, 0, 4)], r) && r.Ok?
    ensures r.value == [Pitch(C, 0, 4)]
  {
    var c4, d4 := Pitch(C, 0, 4), Pitch(D, 0, 4);
    var fragment, targets := [c4], [c4, d4];
    var v := r.value[0];
    var order := Dedup(fragment);
    assert order == [c4] by {
      assert fragment[..0] == [];
    }
    assert LastIndex(fragment, c4) == 0;
    assert GreedyNotes(fragment, targets, r.value);
    assert GreedyNote(fragment, targets, order[0], r.value[LastIndex(fragment, order[0])], NoteBefore(fragment, r.value, 0));
    assert GreedyNote(fragment, targets, c4, v, None);
    assert Candidate(targets, c4) by {
      assert c4 in Octaves(c4);
    }
    assert !TierPassable(targets, c4, 0, None);
    assert Midi(v) == 60;
    OnlyCandidateAt60(v);
    assert |r.value| == 1;
  }

  /** Among C4, D4 and their octaves only C4 has MIDI number 60. */
  lemma OnlyCandidateAt60(v: Pitch)
    requires Candidate([Pitch(C, 0, 4), Pitch(D, 0, 4)], v) && Midi(v) == 60
    ensures v == Pitch(C, 0, 4)
  {
    var t :| t in [Pitch(C, 0, 4), Pitch(D, 0, 4)] && v in Octaves(t);
    assert v == t || v == Transposed(t, -1) || v == Transposed(t, 1);
  }

  /** Greedy notes never repeat the note placed before them. */
  lemma GreedyNotesDiffer(fragment: seq<Pitch>, targets: seq<Pitch>, out: seq<Pitch>)
    requires |out| == |fragment| && GreedyNotes(fragment, targets, out)
    ensures NoRepeat(fragment, out)
  {
    var order := Dedup(fragment);
    forall j | 0 < j < |order|
      ensures out[LastIndex(fragment, order[j])] != out[LastIndex(fragment, order[j - 1])]
    {
      assert GreedyNote(fragment, targets, order[j], out[LastIndex(fragment, order[j])], NoteBefore(fragment, out, j));
    }
  }

  // ---------------------------------------------------------------------------
  // calculate (voiceleading.py:328-449)

  /** calculate: map the fragment's degrees from one scale to the other, then assign
      the target pitches to the source pitches by the strategy `reorder`. `pick` is
      the index voicelead draws among its two best voice leadings, `choose` the
      greedy strategy's draws and `fuel` its bound on retries. Any other value of
      `reorder` leaves `src2target` empty, so every pitch is a KeyError. */
  method Calculate(fragment: seq<Pitch>, fromScale: Scale, toScale: Scale, reorder: int, mapAccidentals: bool,
                   simplify: Pitch -> Pitch, pick: nat, choose: (nat, nat) -> nat, fuel: nat)
    returns (r: Result<seq<Pitch>>, ghost targets: seq<Pitch>)
    requires Respelling(simplify) && Oracle(choose)
    requires reorder == Tymoczko && 0 < |fragment| ==> pick < Min(|fragment|, 2)
    ensures MappedFragment(fragment, fromScale, toScale, mapAccidentals, simplify).Err? ==> r == Err(KeyError)
    ensures MappedFragment(fragment, fromScale, toScale, mapAccidentals, simplify).Ok? ==>
      MappedFragment(fragment, fromScale, toScale, mapAccidentals, simplify).value == targets
    ensures |targets| == |fragment| ==>
      && (reorder == Direct ==> DirectSpec(fragment, targets, r))
      && (reorder == Naive ==> NaiveSpec(fragment, targets, r))
      && (reorder == Tymoczko ==> TymoczkoSpec(fragment, targets, pick, r))
      && (reorder == Greedy ==> GreedySpec(fragment, targets, r))
      && (reorder != Direct && reorder != Naive && reorder != Tymoczko && reorder != Greedy ==>
            r == Lookup(fragment, map[]))
  {
    var mapped := TargetPitches(fragment, fromScale, toScale, mapAccidentals, simplify);
    if mapped.Err? {
      return Err(mapped.error), [];
    }
    var targetPitches := mapped.value;
    targets := targetPitches;
    if reorder == Direct {
      r := DirectVL(fragment, targetPitches);
    } else if reorder == Naive {
      r := NaiveVL(fragment, targetPitches);
    } else if reorder == Tymoczko {
      r := TymoczkoVL(fragment, targetPitches, pick);
    } else if reorder == Greedy {
      ghost var src2target, order;
      r, src2target, order := GreedyVL(fragment, targetPitches, choose, fuel);
    } else {
      r := Lookup(fragment, map[]);
    }
  }

  /** Any other strategy value fails exactly when there is a pitch to look up. */
  lemma UnknownStrategy(fragment: seq<Pitch>)
    ensures Lookup(fragment, map[]).Ok? <==> fragment == []
    ensures Lookup(fragment, map[]).Err? ==> Lookup(fragment, map[]).error == KeyError
  {
    if fragment != [] {
      var empty: map<Pitch, Pitch> := map[];
      assert fragment[0] !in empty;
    }
  }
}
