# bluegrass: voice leading, numerals and style names in Dafny

bluegrass generates LilyPond accompaniments from a style (tracks of staves of
named chord fragments) and a song (a chord progression). Its core is made of
three parts, and this project models each of them:

- **Voice leading** (`voiceleading.py`). This part has three layers.
  - Dmitri Tymoczko's pitch-class voice-leading utilities:
    - `bijective_vl` pairs two equal-sized chords rotation by rotation;
    - `voicelead` realises one of the best pairings on real pitches;
    - `nonbijective_vl` with `build_matrix` and `find_matrix_vl` is a
      dynamic-programming voice leading that allows doubled voices;
    - `vl_normal_form` is left-packing of a voice leading.
  - `VoiceLeader.calculate` maps a fragment of pitches from one scale to
    another, combining accidentals with a fixed table. It then assigns target
    pitches by one of four strategies: direct, naive nearest pitch, Tymoczko,
    and the greedy cost-tiered search.
  - `calculate_cost` is the MIDI distance between two pitches.
- **Number utilities** (`numberutils.py`): Roman numerals in both directions,
  English number names, spreadsheet-style letter codes, and splitting a chord
  symbol such as `VIbm7` into numeral, accidental and remainder.
- **Style compiler helpers** (`stylecompiler.py`):
  - merging two dictionaries;
  - turning track, staff and chord names into LilyPond identifiers;
  - collecting one `name = content` chord definition per chord of every
    staff of every track.

The files follow the source.

| file | models |
|---|---|
| `wrappers.dfy` | `Option`, `Result` and the Python exceptions the core can raise |
| `seqs.dfy` | sorting and rotation helpers shared by the models |
| `arith.dfy` | helpers for floor division and modulo |
| `pitches.dfy` | two modules: `PitchClass` (pitch classes modulo 12) and `Pitches` (a pitch is a letter, an alteration and an octave; the MIDI number is derived from them) |
| `accidentals.dfy` | the accidental table |
| `bijective.dfy` | `bijective_vl` |
| `voicelead.dfy` | `voicelead` |
| `nonbijective.dfy` | the matrix voice leading |
| `normalform.dfy` | `vl_normal_form` |
| `voiceleader.dfy` | `calculate` and its strategies |
| `numberutils.dfy` | the number utilities |
| `stylecompiler.dfy` | the style compiler helpers |

The form of the model follows the code:

- Loops that build results step by step are methods with loop invariants, proved against specification functions. Examples are the rotation loop of `bijective_vl`, the matrix filling of `build_matrix` (on a two-dimensional array) and the walk of `find_matrix_vl`.
- The greedy search of `calculate` is a method. Its dictionaries are maps that the method reassigns.
- Python's mutable dictionary in `merge_dicts` is a class.
- Pure expressions are functions, with lemmas about them.

## Model

| member | source | states |
|---|---|---|
| PitchClass.CircularDistance | voiceleading.py:179-180 | the pitch-class distance lies in 0..6 |
| PitchClass.CircularDistanceMeaning | voiceleading.py:179-180 | the distance is 0 exactly for equal pitch classes, and it is the smaller of the two modular differences |
| PitchClass.CircularDistanceSymmetric | voiceleading.py:179-180 | the distance does not depend on the order of its arguments |
| PitchClass.SignedPath | voiceleading.py:77-79 | the path of one voice lies in -5..6, lands on the target pitch class, and its size is the circular distance |
| Pitches.Transposed | voiceleading.py:392-396 | moving a pitch by k octaves changes its MIDI number by 12k and keeps its letter and alteration |
| Accidentals.TableIsAddition | voiceleading.py:288-319 | the table holds exactly the pairs of alterations in -2..2, and each entry is their sum |
| Accidentals.TableSymmetric | voiceleading.py:288-319 | combining two accidentals does not depend on their order |
| Accidentals.TableIdentityAndCancellation | voiceleading.py:288-319 | a natural adds nothing, and a sharp cancels a flat |
| Accidentals.AddAccidentalToPitchAccidental | voiceleading.py:272-326 | KeyError exactly when either alteration is outside -2..2. Otherwise the MIDI number rises by the added accidental. The result keeps at most a double accidental: alterations of 3 or 4 are respelled by the enharmonic simplification |
| Bijective.Pairing | voiceleading.py:76-81 | one path per voice of the first chord |
| Bijective.PairingVoices | voiceleading.py:76-81 | voice i starts on first[i], takes the shortest signed path and lands on second[i] |
| Bijective.SizeBound | voiceleading.py:81 | a voice leading of n voices has size at most 6n |
| Bijective.Candidates | voiceleading.py:72-82 | the full list has one entry per rotation of the target chord |
| Bijective.CandidatesStep | voiceleading.py:72-82 | round x of the loop appends exactly the pairing with the target rotated right x+1 times |
| Bijective.MaybeSorted | voiceleading.py:87-88 | the full list is sorted by size when asked, is a permutation of the rounds, and is unchanged otherwise |
| Bijective.PairVoices | voiceleading.py:74-81 | the inner loop computes the pairing and its size |
| Bijective.BijectiveVLAsWritten | voiceleading.py:63-89 | as written: mismatched lengths give False, and the result is the UNROTATED pairing. The keep-the-best test sits after the loop |
| Bijective.BijectiveVL | voiceleading.py:63-89 | corrected: the result is the first rotation of least size, no larger than any candidate, along with the full list |
| Bijective.UnrotatedPairingIsNotMinimal | voiceleading.py:83-85 | C-E-G to F-A-C: the unrotated pairing moves 15 semitones, while the first rotation moves 3 |
| VoiceLead.FirstWithOrigin | voiceleading.py:112-117 | the first path whose start matches the pitch class |
| VoiceLead.FirstWithOriginIsFirst | voiceleading.py:112-117 | no earlier path starts on that pitch class |
| VoiceLead.AppliedStep | voiceleading.py:111-117 | for each input pitch, a matching path exists once the paths start on the inputs' pitch classes, and removing it keeps the multiset matched |
| VoiceLead.AppliedFull | voiceleading.py:109-117 | every input pitch is moved. The moves realise exactly the chosen paths (as a multiset), and the total motion is the size of the voice leading |
| VoiceLead.ApplyPaths | voiceleading.py:109-117 | the output-building loop computes the applied moves |
| VoiceLead.TakePath | voiceleading.py:112-117 | the inner loop takes the first matching path and removes it from the copy |
| VoiceLead.FirstWithMidiFound | voiceleading.py:122-126 | a MIDI number present in the pool is found there |
| VoiceLead.Sounded | voiceleading.py:119-126 | the moves whose MIDI number some pitch of the pool sounds, in order; all of them when every move is sounded |
| VoiceLead.MapBack | voiceleading.py:119-126 | one note per sounded move, in order: the first pitch of targets followed by sources with that MIDI number. Moves that no pitch sounds are dropped, so when every move is sounded there is one note per move with its MIDI number |
| VoiceLead.MapMoves | voiceleading.py:119-128 | the loop computes MapBack |
| VoiceLead.CandidateLands | voiceleading.py:72-81 | every path of every rotation starts on a source pitch class, lies in -5..6 and lands on a target pitch class |
| VoiceLead.ChooseLeading | voiceleading.py:104-108 | ValueError when there is nothing to draw from. With top_n = 1 the result is what `bijective_vl` as written returns: the unrotated pairing, or the empty sentinel when its size reaches the bound, and a candidate rotation for non-empty chords; otherwise it is the drawn entry of the size-sorted list, preceded by every strictly smaller one |
| VoiceLead.UnrotatedIsCandidate | voiceleading.py:72-85 | the unrotated pairing is the last of the candidate rotations, and its size is at most 6 per voice |
| VoiceLead.Voicelead | voiceleading.py:99-128 | voicelead: ValueError exactly when nothing can be drawn. Otherwise the output maps back the moves that realise the chosen voice leading; with top_n = 1 that is the unrotated pairing `bijective_vl` returns as written |
| VoiceLead.ChosenRealized | voiceleading.py:99-117 | the moves of voicelead realise the chosen voice leading |
| VoiceLead.VoiceleadMovesLand | voiceleading.py:99-117 | every voice moves by -5..6 semitones and lands on the pitch class of some target |
| NonBijective.Min3 | voiceleading.py:200 | the minimum of three values is one of them and no larger than any |
| NonBijective.WeightsAreDistances | voiceleading.py:187-191 | row r and column c of the distance matrix hold the circular distance from target r to source c |
| NonBijective.CumAtLeastWeight | voiceleading.py:192-200 | with non-negative weights, every cumulative cost is at least its cell's own weight, which is at least 0 |
| NonBijective.CumIsLeast | voiceleading.py:192-200 | the cumulative cost is at most the weight of any monotone path from the corner |
| NonBijective.Back | voiceleading.py:209-228 | the corrected back-pointer: a neighbour whose cumulative cost accounts for the cell's |
| NonBijective.StepAsWritten | voiceleading.py:209-228 | as written, a back step either agrees with the corrected one or stays put |
| NonBijective.StepAsWrittenStalls | voiceleading.py:217-222 | the step stays put exactly when the upper cell beats the diagonal and the left cell beats the upper |
| NonBijective.FindMatrixVLAsWrittenStalls | voiceleading.py:217-222 | for [0,1,2] to [3,8], the first round's walk stays on cell (2,3) forever |
| NonBijective.Trace | voiceleading.py:204-230 | the traced path runs from the corner to the given cell |
| NonBijective.TraceIsLeastPath | voiceleading.py:204-230 | the traced path is monotone, and its weight equals the cumulative cost, so it is a cheapest path |
| NonBijective.PathCostIsLinkCost | voiceleading.py:208-229 | the weight of a path is the total distance of the voice pairs it links |
| NonBijective.MonotoneCovers | voiceleading.py:204-230 | a monotone path visits every source and every target up to its end |
| NonBijective.BuildMatrix | voiceleading.py:170-201 | the closed source and target, the distance matrix, the cumulative matrix, and the returned cost (the cumulative cost of the last cell less its own weight), which is never negative |
| NonBijective.DistanceMatrix | voiceleading.py:187-191 | the loop fills the distance matrix |
| NonBijective.CopyMatrix | voiceleading.py:192 | the copy holds the same entries |
| NonBijective.AccumulateEdges | voiceleading.py:194-197 | after the two edge loops, the first row and column hold cumulative costs and the interior is untouched |
| NonBijective.AccumulateRow | voiceleading.py:198-200 | one pass of the inner loop makes row i cumulative and changes nothing else |
| NonBijective.StepBack | voiceleading.py:210-228 | one corrected step of the walk goes to the back-pointer |
| NonBijective.FindMatrixVL | voiceleading.py:204-230 | the corrected walk returns the voice pairs of the cheapest path, from first to last |
| NonBijective.RotatedLeftMembers | voiceleading.py:158 | a left rotation of the target keeps its pitch classes and starts on target[i] |
| NonBijective.Pcs | voiceleading.py:150-154 | the deduplicated sorted pitch classes are in 0..11, and they are empty only for empty input |
| NonBijective.ChooseRotation | voiceleading.py:157-163 | the result is the first rotation of least cost (or the sentinel with no pairs), no costlier than any rotation, with its last pair dropped |
| NonBijective.NonBijectiveVL | voiceleading.py:147-167 | pcs=False raises IndexError, an empty target gives (1000000, []) and an empty source raises IndexError. Otherwise the result is the least-cost rotation's voice leading, traced by the corrected walk of NonBijective.FindMatrixVL: as written, the walk never returns for inputs such as [0,1,2] to [3,8] (see Findings) |
| NonBijective.RotationLinksShape | voiceleading.py:157-163 | the pairs of a round link source and target pitch classes and start from the first source and target notes |
| NonBijective.RotationLinksCover | voiceleading.py:157-163 | after dropping the closing pair, every source and every target pitch class still has a voice |
| NonBijective.RotationCostIsLeast | voiceleading.py:157-163 | a round's cost is at most that of any monotone voice pairing of the closed chords |
| NormalForm.SortedPathsSorted | voiceleading.py:243 | sorting orders the pairs by pitch class, then by path |
| NormalForm.MyList | voiceleading.py:243 | the reduced list is sorted, has every start in 0..11, and is a permutation of the input reduced mod 12 |
| NormalForm.Rotation | voiceleading.py:247 | the i-th challenger starts at element n-i and is a permutation of the list |
| NormalForm.LastDifference | voiceleading.py:250-256 | the highest position at which the two lists differ in pitch class |
| NormalForm.BeatsIrreflexive | voiceleading.py:250-256 | a list never beats itself |
| NormalForm.BeatsNegativelyTransitive | voiceleading.py:250-256 | if c beats b and a does not beat b, then a does not beat c, so the running best is well defined |
| NormalForm.Challenge | voiceleading.py:250-256 | the inner loop replaces the best exactly when the challenger is smaller at the highest differing position |
| NormalForm.TryRotation | voiceleading.py:247-256 | one round of the outer loop advances the scan by one rotation |
| NormalForm.VlNormalForm | voiceleading.py:242-257 | IndexError for an empty list. Otherwise the result is the scan over all rotations |
| NormalForm.ChallengerShape | voiceleading.py:247-249 | every challenger is packed (sorted, starting on 0) and is the input transposed by its recorded transposition |
| NormalForm.ScanIsCandidate | voiceleading.py:246-256 | the winner is one of the rotations compared |
| NormalForm.ScanIsLeast | voiceleading.py:246-256 | no rotation compared beats the winner |
| NormalForm.NormalFormProperties | voiceleading.py:242-257 | the normal form is packed, has the input's length, and is the input transposed by the recorded transposition, which is in -11..0. No rotation beats it |
| VoiceLeader.CalculateCost | voiceleading.py:451-460 | the cost is the absolute MIDI distance |
| VoiceLeader.CalculateCostMeaning | voiceleading.py:451-460 | the cost is symmetric, is 0 exactly for equal MIDI numbers, and is 12 to either neighbouring octave |
| VoiceLeader.MappedPitch | voiceleading.py:337-344 | a pitch maps to the degree's pitch in the new scale. With accidentals mapped, the source accidental is added through the table: KeyError exactly when it or the image's alteration is outside -2..2, and otherwise the MIDI number rises by it |
| VoiceLeader.MappedFragment | voiceleading.py:337-344 | KeyError exactly when some pitch fails to map. Otherwise each pitch maps element-wise, in order |
| VoiceLeader.TargetPitches | voiceleading.py:337-344 | the mapping loop computes the mapped fragment |
| VoiceLeader.MappedFragmentFails | voiceleading.py:337-344 | a failure in a prefix is a failure of the whole fragment |
| VoiceLeader.ZipUpToSome | voiceleading.py:347-349 | every key of the zipped dictionary holds the value at some position of that key |
| VoiceLeader.Zip | voiceleading.py:347-349 | the zipping loop builds that dictionary, stopping at the shorter list |
| VoiceLeader.ZipDistinct | voiceleading.py:347-349 | with distinct keys, each key maps to its own value |
| VoiceLeader.Lookup | voiceleading.py:448 | KeyError exactly when a pitch is not in the mapping. Otherwise each pitch's image, in order |
| VoiceLeader.NaiveIndex | voiceleading.py:350-365 | the chosen target is the first with the least semitone distance and, among those, the least letter distance |
| VoiceLeader.NaiveChoice | voiceleading.py:352-365 | the search loop picks that target, moved into the source's octave |
| VoiceLeader.NaiveMap | voiceleading.py:350-367 | every source pitch, and only those, is mapped when there are targets |
| VoiceLeader.PairsOfMembers | voiceleading.py:389-400 | the pairs stored for a source pitch are it with each target in its own octave, one octave down and one octave up |
| VoiceLeader.AllPairsMembers | voiceleading.py:389-400 | the matrix keys are exactly those pairs for every source pitch |
| VoiceLeader.CostsAppend | voiceleading.py:400 | storing a pair sets its cost and keeps the others |
| VoiceLeader.StoreTargets | voiceleading.py:390-400 | one pass over the targets stores their pairs and costs |
| VoiceLeader.BuildCostMatrix | voiceleading.py:389-400 | the matrix maps each pair to its MIDI cost, and its keys are in insertion order |
| VoiceLeader.Invert | voiceleading.py:403-405 | each cost present maps to its pairs in key order, and no cost maps to an empty list |
| VoiceLeader.MaxOf | voiceleading.py:408 | ValueError for no costs. Otherwise the largest cost |
| VoiceLeader.MinOf | voiceleading.py:429 | the smallest key |
| VoiceLeader.CollectNotes | voiceleading.py:420-425 | exactly the targets paired with the source pitch in this tier |
| VoiceLeader.GroupByDistance | voiceleading.py:424-426 | the notes grouped by their cost from the previous note, with no empty group |
| VoiceLeader.Preferred | voiceleading.py:426-429 | the chosen group is the nearest non-repeating one when any exists, and 0 otherwise |
| VoiceLeader.PreferredIsLeastKey | voiceleading.py:427-429 | deleting the 0 key when others exist, then taking the minimum, gives that group |
| VoiceLeader.ChooseFromTier | voiceleading.py:420-438 | the drawn note comes from the preferred group, or from all notes when there is no previous note |
| VoiceLeader.ScanTiers | voiceleading.py:414-444 | the tier scan places a note from the first cost below the maximum whose draw does not repeat the previous note: a candidate of that tier, from the group nearest the previous note, with every cheaper tier passed over (no candidate, or every candidate sounding like the previous note); otherwise it reports that every such tier was passed |
| VoiceLeader.RepeatIsPassable | voiceleading.py:426-438 | a draw from the nearest group that gives back the previous note happens only when every candidate of the tier sounds like the previous note |
| VoiceLeader.CommitNew | voiceleading.py:443-444 | assigning a new pitch keeps the search's invariant, which records each placement with the note placed before it as the previous note |
| VoiceLeader.CommittedDiffer | voiceleading.py:433-446 | notes placed one after the other differ |
| VoiceLeader.Commit | voiceleading.py:411-446 | every source pitch gets a note, each placed as the tier scan places it (cheapest passable tier, nearest group, not the previous note) after the note placed before it, or the retry bound is hit |
| VoiceLeader.AssignPitch | voiceleading.py:412-446 | the retry loop for one pitch either finds it already placed and changes nothing, or places it exactly as a successful tier scan does, after the current previous note |
| VoiceLeader.TiersOfMatrix | voiceleading.py:389-408 | the inverted matrix is tiered by cost, holds exactly the stored pairs, each in the tier of its cost, and is empty exactly when there are no sources or no targets |
| VoiceLeader.NotesForMeaning | voiceleading.py:416-424 | the notes a tier lists for a source pitch are exactly its candidates at that cost |
| VoiceLeader.ChosenIsGreedyNote | voiceleading.py:411-446 | a note placed by the tier scan is a greedy note: a candidate below the maximum cost, not the previous note, every cheaper tier passed over, nearest the previous note within its tier |
| VoiceLeader.GreedyOutcome | voiceleading.py:411-448 | after the loop, every pitch has a note, equal pitches have equal notes, and in order of first appearance each note is a greedy note after the note of the pitch before it; so consecutive distinct pitches get different notes |
| VoiceLeader.GreedyVL | voiceleading.py:372-448 | ValueError exactly for no sources or no targets. Otherwise equal pitches get equal notes and, in order of first appearance, each pitch gets a note from the cheapest tier whose draw did not repeat the previous note, from the group nearest that note, and never the previous note itself |
| VoiceLeader.GreedyNotesDiffer | voiceleading.py:433-446 | greedy notes never repeat the note of the pitch placed before |
| VoiceLeader.GreedyTakesCheapestTier | voiceleading.py:414-446 | C4 onto the targets C4 and D4 can only give C4: the cheapest tier is taken first |
| VoiceLeader.LastIndexOfDistinct | voiceleading.py:347-349 | in a list of distinct pitches, the last position of an element is its own |
| VoiceLeader.DirectVL | voiceleading.py:347-349 | each pitch gets the target at its last position, and distinct pitches get the targets unchanged |
| VoiceLeader.NaiveVL | voiceleading.py:350-367 | KeyError exactly for a non-empty fragment with no targets. Otherwise each pitch's nearest target in its own octave |
| VoiceLeader.TymoczkoLookup | voiceleading.py:368-371 | reading every fragment pitch back from the zip of the fragment with the output of voicelead gives KeyError exactly for a pitch past the zip's end, notes from the targets or the fragment otherwise, and that output itself for distinct pitches |
| VoiceLeader.TymoczkoVL | voiceleading.py:368-371 | ValueError for an empty fragment. Otherwise the result looks each fragment pitch up in the zip of the fragment with the output of voicelead (top_n = 2, drawn entry `pick`): KeyError exactly when some pitch is past the zip's end, and for a fragment of distinct pitches answered in full the output of voicelead itself |
| VoiceLeader.Calculate | voiceleading.py:328-449 | KeyError when the scale mapping fails. Otherwise the strategy chosen by reorder_notes meets its specification (the Tymoczko branch the zip of voicelead's output, the greedy branch the cheapest passable tier, the nearest group, equal notes for equal pitches and no repeat of the previous note), and an unknown strategy looks up an empty mapping |
| VoiceLeader.UnknownStrategy | voiceleading.py:347-448 | with no strategy matched, only the empty fragment succeeds, and any other raises KeyError |
| NumberUtils.NumeralMapTable | numberutils.py:3-6 | the numeral table has positive values and non-empty numerals, and its values strictly decrease along the table |
| NumberUtils.NumeralMapShaped | numberutils.py:3-6 | the numerals alternate between single letters and subtractive pairs, with ranks falling along the table |
| NumberUtils.IntToRoman | numberutils.py:8-14 | the greedy loop over the table computes the Roman numeral |
| NumberUtils.RomanAlphabet | numberutils.py:8-14 | a numeral uses only M, D, C, L, X, V and I, and 0 is the empty string |
| NumberUtils.NegativeRoman | numberutils.py:8-14 | with floor division, a negative number converts as its residue modulo 1000 |
| NumberUtils.RomanToInt | numberutils.py:16-22 | the matching loop computes the parsed value, which is never negative |
| NumberUtils.RomanRoundTrip | numberutils.py:8-22 | roman_to_int(int_to_roman(i)) == i for every i >= 0 |
| NumberUtils.RomanSeven | numberutils.py:108 | 7 is VII |
| NumberUtils.RomanYear | numberutils.py:109 | 1832 is MDCCCXXXII |
| NumberUtils.ParseNine | numberutils.py:110 | IX is 9 |
| NumberUtils.ParseSeven | numberutils.py:111 | VII is 7 |
| NumberUtils.ParseIgnoresRest | numberutils.py:112 | XM reads as 10, because M is not matched after X |
| NumberUtils.NumWord | numberutils.py:24-26 | the names are letters only, and the name is empty only for 0 |
| NumberUtils.NumsAt | numberutils.py:45-46 | Python tuple indexing: IndexError below -20, and negative indices count from the end |
| NumberUtils.TextShape | numberutils.py:30-51 | every number >= 0 has a non-empty all-letter name, which is Zero exactly for 0 |
| NumberUtils.IntToTextMeaning | numberutils.py:30-51 | the result is Zero exactly for 0 and -20, and IndexError exactly below -20 |
| NumberUtils.TextExample | numberutils.py:113 | 12323 is TwelveThousandThreeHundredTwentyThree |
| NumberUtils.Spell | numberutils.py:68 | the digits are spelled through chars, most significant first |
| NumberUtils.LetterCode | numberutils.py:53-68 | a code uses only the given characters and is empty exactly for numbers <= 0 |
| NumberUtils.IntToLetter | numberutils.py:53-68 | ZeroDivisionError exactly for a positive number with no characters. Otherwise the bijective base-n code |
| NumberUtils.LetterRoundTrip | numberutils.py:53-68 | with distinct characters, reading the code back gives the number, for every number >= 0 |
| NumberUtils.LetterExamples | numberutils.py:56-57 | 0 is empty, 1 is A, 26 is Z, 27 is AA and 28 is AB |
| NumberUtils.StartsWithOneOf | numberutils.py:70-79 | true exactly when some entry is a prefix |
| NumberUtils.AccidentalOf | numberutils.py:96-102 | a double accidental when the suffix starts with bb or ##, else a single one when it starts with b or #, else none |
| NumberUtils.SplitFromLongest | numberutils.py:90-104 | the scan from the longest prefix finds the longest valid numeral, or none when no prefix is valid |
| NumberUtils.SplitRomanPrefix | numberutils.py:84-104 | None exactly when no prefix is a valid numeral. Otherwise the three parts concatenate back to the input, the numeral is the longest valid prefix, and the accidental follows it |
| NumberUtils.SplitIVm | numberutils.py:115 | IVm splits into IV, no accidental, m |
| NumberUtils.SplitIV | numberutils.py:116 | IV splits into IV and two empty parts |
| NumberUtils.SplitVIbm7 | numberutils.py:84-89 | VIbm7 splits into VI, b, m7 |
| StyleCompiler.Dict.Empty | stylecompiler.py:14 | a new dictionary is empty |
| StyleCompiler.Dict.Copy | stylecompiler.py:14 | the shallow copy is a new dictionary with the same entries |
| StyleCompiler.Dict.Update | stylecompiler.py:15 | keys of both, and y's value wherever y has the key |
| StyleCompiler.MergeDicts | stylecompiler.py:12-16 | a new dictionary with the keys of both, y's values winning, and neither argument changed |
| StyleCompiler.RemoveAll | stylecompiler.py:19-20 | removing a character leaves none of it and adds nothing |
| StyleCompiler.CleanupKeepsOrder | stylecompiler.py:19-20 | cleanup keeps every other character, in order |
| StyleCompiler.CleanupConcat | stylecompiler.py:19-20 | cleanup distributes over concatenation |
| StyleCompiler.CleanupFixed | stylecompiler.py:19-20 | a name is unchanged exactly when it has no underscore and no dash |
| StyleCompiler.CleanupIdempotent | stylecompiler.py:19-20 | cleaning twice is cleaning once |
| StyleCompiler.StartsWithOneOf | stylecompiler.py:22-26 | the loop is true exactly when some entry is a prefix, agreeing with the numberutils version |
| StyleCompiler.FragmentName | stylecompiler.py:79-83 | a fragment name has no underscore or dash |
| StyleCompiler.VoiceName | stylecompiler.py:85-88 | a voice name has no underscore or dash |
| StyleCompiler.VoiceFragmentName | stylecompiler.py:90-91 | a voice fragment name has no underscore or dash and ends in Voice |
| StyleCompiler.FragmentNameJoined | stylecompiler.py:79-83 | cleaning the parts one by one equals cleaning their concatenation |
| StyleCompiler.FragmentNamesJoin | stylecompiler.py:79-83 | two track and staff names give the same fragment name for a chord exactly when their concatenations clean to the same text |
| StyleCompiler.ChordDefinitionsEach | stylecompiler.py:206-213 | one definition per chord of a staff, in order, naming the fragment and its content |
| StyleCompiler.StavesDefinitionsCount | stylecompiler.py:206-213 | a track has as many definitions as its staves have chords |
| StyleCompiler.StavesDefinitionsMembers | stylecompiler.py:206-213 | a string is a definition of a track exactly when it defines one of its staves' chords |
| StyleCompiler.KnownChordsMembers | stylecompiler.py:199-215 | the known chords are exactly the chord names of every track |
| StyleCompiler.DefinitionsKeys | stylecompiler.py:199-215 | the definitions have one key per track name |
| StyleCompiler.DefinitionsOfLast | stylecompiler.py:202-205 | a repeated track name keeps only its last track's definitions |
| StyleCompiler.AddStaffDefinitions | stylecompiler.py:207-213 | the loop over a staff's chords appends its definitions and records its names |
| StyleCompiler.AddTrackDefinitions | stylecompiler.py:202-213 | one track's iteration resets its list, then collects every staff |
| StyleCompiler.CalculateChordDefinitions | stylecompiler.py:199-215 | the loop computes the definitions of every track and the set of known chord names |

## Left out

- music21 is not part of this model:
  - A `Scale` is a pair of functions: the degree and accidental of a pitch, and the pitch of a degree.
  - `simplifyEnharmonic` is a parameter. Its only required behaviour is to keep the MIDI number and give an alteration within a double accidental.
  - music21's folding of MIDI numbers into 0..127 is not modelled.
- Randomness is a parameter:
  - `random.randrange` in voicelead is the index `pick`;
  - `random.choice` in the greedy strategy is an oracle `choose(d, n) < n`.
- The greedy search retries a pitch without bound (the source's own TODO asks whether another note is guaranteed to exist). VoiceLeader.GreedyVL bounds the retries with `fuel` and reports OutOfFuel when they run out. Because of that bound, it does not model a search that never ends.
- The module globals shared by `build_matrix` and `find_matrix_vl`, and the function attributes `bijective_vl.full_list`, `bijective_vl.size` and `vl_normal_form.transposition`, are results or parameters instead of globals.
- `nonbijective_vl` and `build_matrix` with `pcs=False`:
  - NonBijective.NonBijectiveVL models only the IndexError of that path, which comes from indexing an empty temporary target;
  - the pitch (absolute distance) matrix is not modelled.
- VoiceLead.Voicelead: its results are plain values, so the sharing of pitch objects between input and output is not modelled.
- VoiceLead.Voicelead: chords of unequal length are not modelled. There `bijective_vl` returns False: with top_n = 1, `paths[:]` on False raises TypeError (voiceleading.py:110); otherwise voicelead reads the `full_list` left over from an earlier call. `calculate` always passes chords of equal length.
- VoiceLead.ChooseLeading: for the same reason, it requires chords of equal length.
- VoiceLeader.Calculate: Python's dictionary iteration order matters only through the greedy strategy's tier lists. Those are sequences kept in insertion order.
- StyleCompiler.MergeDicts: the merged dictionary is a map, so the order of its keys (x's keys first, then y's new ones) is not modelled; no modelled operation reads that order.
- Dictionaries with repeated keys:
  - Pitch keys compare by letter, alteration and octave; music21's hashing of pitches is not modelled.
  - StyleCompiler.CalculateChordDefinitions takes tracks as a sequence. A repeated name resets that track's list, as the dictionary loop would; the source's duplicate-name warning (a print) is left out.
  - Staves and chords are sequences; the fragment content is an opaque string.
- `lyricsfragmentname` (stylecompiler.py:93-94) calls a method that does not exist (`voicenamefragmentname`), so it always raises AttributeError. It is not modelled.
- The second `split_roman_prefix` in stylecompiler.py:28-45 is not modelled. It prints, calls `roman_to_int` on shifted prefixes and swallows every exception; the numberutils version is the one modelled.
- Not modelled, because they are file, YAML and template I/O:
  - `load_style`, `load_song`, `compile`;
  - `calculate_staff_definitions` and `calculate_voice_definitions`;
  - the `StyleCompiler` constructor.
- The `__main__` demonstrations are stated as lemmas about their inputs, not as printed output.

## Findings

| source | as written | input that shows it | evidently intended | confidence | as-written member | corrected member |
|---|---|---|---|---|---|---|
| voiceleading.py:83-85 | the keep-the-best test is outside the rotation loop, so `bijective_vl` returns the pairing of the last round, which is the unrotated target | `bijective_vl([0,4,7],[5,9,0])`: the result moves 15 semitones, while rotation 1 moves 3 | the test inside the loop, keeping the first rotation of least size | not executed | Bijective.BijectiveVLAsWritten, Bijective.UnrotatedPairingIsNotMinimal, VoiceLead.ChooseLeading (top_n = 1 keeps the as-written result, as voicelead does) | Bijective.BijectiveVL |
| voiceleading.py:217-222 | when the upper cell beats the diagonal and the left cell beats the upper, the walk sets `new_i = i` but keeps `new_j = j`, so it stays on the same cell forever | `nonbijective_vl([0,1,2],[3,8])`: in the first round the walk reaches cell (2,3) and never leaves it | the left move goes to (i, j-1) | not executed | NonBijective.StepAsWritten, NonBijective.StepAsWrittenStalls, NonBijective.FindMatrixVLAsWrittenStalls | NonBijective.StepBack, NonBijective.FindMatrixVL |
