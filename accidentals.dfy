/** VoiceLeader.add_accidental_to_pitch_accidental (voiceleading.py:272-326):
    re-applies the chromatic alteration a note had in the source scale on top of
    the spelling of its image in the target scale. */
module Accidentals {

  import opened Wrappers
  import opened PitchClass
  import opened Pitches

  /** The table acc_amount_to_new_acc, every accidental written as its alteration:
      double-flat -2, flat -1, none 0, sharp 1, double-sharp 2, and the results
      triple-flat -3, quadruple-flat -4, triple-sharp 3, quadruple-sharp 4.
      Keys are (accidental of the pitch, accidental to add). */
  const AccidentalTable: map<(int, int), int> := map[
    (-2, -2) := -4, (-2, -1) := -3, (-2, 0) := -2, (-2, 1) := -1, (-2, 2) := 0,
    (-1, -2) := -3, (-1, -1) := -2, (-1, 0) := -1, (-1, 1) := 0, (-1, 2) := 1,
    (0, -2) := -2, (0, -1) := -1, (0, 0) := 0, (0, 1) := 1, (0, 2) := 2,
    (1, -2) := -1, (1, -1) := 0, (1, 0) := 1, (1, 1) := 2, (1, 2) := 3,
    (2, -2) := 0, (2, -1) := 1, (2, 0) := 2, (2, 1) := 3, (2, 2) := 4
  ]

  /** The table is defined exactly on double-flat..double-sharp squared, and there
      it is addition of alterations. */
  lemma TableIsAddition(a: int, b: int)
    ensures (a, b) in AccidentalTable <==> -2 <= a <= 2 && -2 <= b <= 2
    ensures (a, b) in AccidentalTable ==> AccidentalTable[(a, b)] == a + b
  {
    if -2 <= a <= 2 && -2 <= b <= 2 {
      assert (a, b) in AccidentalTable.Keys;
    }
  }

  lemma TableSymmetric(a: int, b: int)
    requires (a, b) in AccidentalTable
    ensures (b, a) in AccidentalTable && AccidentalTable[(b, a)] == AccidentalTable[(a, b)]
  {
    TableIsAddition(a, b);
    TableIsAddition(b, a);
  }

  /** No accidental is the identity, and flat and sharp cancel out. */
  lemma TableIdentityAndCancellation(a: int)
    requires -2 <= a <= 2
    ensures AccidentalTable[(a, 0)] == a && AccidentalTable[(0, a)] == a
    ensures AccidentalTable[(-1, 1)] == 0 && AccidentalTable[(1, -1)] == 0
  {
    TableIsAddition(a, 0);
    TableIsAddition(0, a);
  }

  /** The table lookup followed by the enharmonic respelling of triple and
      quadruple accidentals. `simplify` stands for music21's
      `simplifyEnharmonic`; the model assumes it keeps the sounding pitch and
      returns at most a double accidental. A key outside the table raises KeyError. */
  function AddAccidentalToPitchAccidental(p: Pitch, added: int, simplify: Pitch -> Pitch): (r: Result<Pitch>)
    requires forall q :: Midi(simplify(q)) == Midi(q) && -2 <= simplify(q).alter <= 2
    ensures r.Ok? <==> -2 <= p.alter <= 2 && -2 <= added <= 2
    ensures r.Ok? ==> Midi(r.value) == Midi(p) + added
    ensures r.Ok? ==> -2 <= r.value.alter <= 2
    ensures r.Ok? && Abs(p.alter + added) < 3 ==> r.value == p.(alter := p.alter + added)
    ensures r.Ok? && Abs(p.alter + added) >= 3 ==> r.value == simplify(p.(alter := p.alter + added))
  {
    TableIsAddition(p.alter, added);
    if (p.alter, added) !in AccidentalTable then Err(KeyError)
    else
      var combined := p.(alter := AccidentalTable[(p.alter, added)]);
      assert Midi(simplify(combined)) == Midi(combined);
      if combined.alter in {-4, -3, 3, 4} then Ok(simplify(combined)) else Ok(combined)
  }
}
