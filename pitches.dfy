/** Pitch-class arithmetic on integers modulo the octave (voiceleading.py:7-10,
    the path computation of bijective_vl and distance_func of build_matrix). */
module PitchClass {

  import opened Arith

  /** Size of the octave. */
  const Modulus: int := 12
  /** `int(0.5 + _MODULUS / 2.0)`, the integer 6. */
  const HalfModulus: int := 6
  /** The "effectively infinity" start value of every minimum search. */
  const VeryLargeNumber: int := 1000000

  function Abs(x: int): nat { if x < 0 then -x else x }

  function Min(a: int, b: int): int { if a <= b then a else b }

  /** distance_func of build_matrix for pitch classes: the shorter way round the octave. */
  function CircularDistance(x: int, y: int): (d: int)
    ensures 0 <= d <= HalfModulus
  {
    ModNegate(x - y, Modulus);
    Min((x - y) % Modulus, (y - x) % Modulus)
  }

  /** The distance is zero exactly between equal pitch classes, and moving by it
      one way or the other leads from one pitch class to the other. */
  lemma CircularDistanceMeaning(x: int, y: int)
    ensures CircularDistance(x, y) == 0 <==> x % Modulus == y % Modulus
    ensures var d := CircularDistance(x, y);
      (y + d) % Modulus == x % Modulus || (x + d) % Modulus == y % Modulus
  {
    ModNegate(x - y, Modulus);
    ModOfSum(y, x - y, Modulus);
    ModOfSum(x, y - x, Modulus);
  }

  lemma CircularDistanceSymmetric(x: int, y: int)
    ensures CircularDistance(x, y) == CircularDistance(y, x)
  {
  }

  /** `[x % _MODULUS for x in xs]`: every element reduced to its pitch class. */
  function PitchClasses(xs: seq<int>): (pcs: seq<int>)
    ensures |pcs| == |xs|
    ensures forall k :: 0 <= k < |xs| ==> pcs[k] == xs[k] % 12
  {
    seq(|xs|, k requires 0 <= k < |xs| => xs[k] % 12)
  }

  /** The path bijective_vl records for one voice: the interval from `from` to `to`
      reduced mod 12, taken downwards when it is more than a tritone. */
  function SignedPath(from: int, to: int): (p: int)
    ensures -5 <= p <= HalfModulus
    ensures (from + p) % Modulus == to % Modulus
    ensures Abs(p) == CircularDistance(from, to)
  {
    ModOfSum(from, to - from, Modulus);
    ModNegate(from - to, Modulus);
    var p := (to - from) % Modulus;
    if p > HalfModulus then
      ModAddMultiple(from + p, Modulus, -1);
      p - Modulus
    else p
  }
}

/** The pitch record of the model: letter name, alteration and octave, standing in
    for a music21 Pitch. */
module Pitches {

  import opened PitchClass

  datatype Letter = C | D | E | F | G | A | B

  /** Pitch class of the natural note on a letter. */
  function LetterPitchClass(l: Letter): int
  {
    match l
    case C => 0
    case D => 2
    case E => 4
    case F => 5
    case G => 7
    case A => 9
    case B => 11
  }

  /** Quadruple flat (-4) up to quadruple sharp (4); 0 is "no accidental". */
  type Alteration = a: int | -4 <= a <= 4

  datatype Pitch = Pitch(step: Letter, alter: Alteration, octave: int)

  /** music21's `Pitch.midi`: C4 is 60. */
  function Midi(p: Pitch): int
  {
    Modulus * (p.octave + 1) + LetterPitchClass(p.step) + p.alter
  }

  function Midis(ps: seq<Pitch>): (ms: seq<int>)
    ensures |ms| == |ps|
    ensures forall k :: 0 <= k < |ps| ==> ms[k] == Midi(ps[k])
  {
    seq(|ps|, k requires 0 <= k < |ps| => Midi(ps[k]))
  }

  /** The same pitch an octave higher (k = 1) or lower (k = -1). */
  function Transposed(p: Pitch, k: int): (q: Pitch)
    ensures Midi(q) == Midi(p) + Modulus * k
    ensures q.step == p.step && q.alter == p.alter
  {
    p.(octave := p.octave + k)
  }
}
