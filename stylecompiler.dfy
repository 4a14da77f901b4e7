/**
 * The name and definition helpers of the style compiler (stylecompiler.py):
 * merging the global settings of a style and a song, turning track, staff and
 * chord names into LilyPond identifiers, and collecting one LilyPond chord
 * definition per chord of every staff of every track of a style.
 */
module StyleCompiler {
  import NumberUtils

  // merge_dicts (stylecompiler.py:12-16)

  /** A Python dictionary: an object whose entries are changed in place. */
  class Dict<K(==), V> {
    var items: map<K, V>

    constructor Empty()
      ensures items == map[]
    {
      items := map[];
    }

    /** `d.copy()`: a new dictionary holding the same entries (a shallow copy). */
    method Copy() returns (d: Dict<K, V>)
      ensures fresh(d) && d.items == items
    {
      d := new Dict.Empty();
      d.items := items;
    }

    /** `d.update(y)`: every key of y now maps to y's value; other keys keep theirs. */
    method Update(y: Dict<K, V>)
      modifies this
      ensures items.Keys == old(items).Keys + old(y.items).Keys
      ensures forall k :: k in old(y.items) ==> items[k] == old(y.items)[k]
      ensures forall k :: k in old(items) && k !in old(y.items) ==> items[k] == old(items)[k]
    {
      items := items + y.items;
    }
  }

  /** merge_dicts: a new dictionary with the keys of both, the value of y where
      both have a key, and x left as it was. */
  method MergeDicts<K(==), V>(x: Dict<K, V>, y: Dict<K, V>) returns (z: Dict<K, V>)
    ensures fresh(z)
    ensures z.items.Keys == x.items.Keys + y.items.Keys
    ensures forall k :: k in y.items ==> z.items[k] == y.items[k]
    ensures forall k :: k in x.items && k !in y.items ==> z.items[k] == x.items[k]
    ensures x.items == old(x.items) && y.items == old(y.items)
  {
    z := x.Copy();
    z.Update(y);
  }

  // cleanup_string_for_lilypond (stylecompiler.py:19-20)

  /** `s.replace(c, "")` for a one-character c: every c is dropped, and nothing
      is added. */
  function RemoveAll(s: string, c: char): (r: string)
    ensures c !in r && |r| <= |s|
    ensures forall d :: d in r ==> d in s
  {
    if s == [] then [] else (if s[0] == c then [] else [s[0]]) + RemoveAll(s[1..], c)
  }

  /** Dropping a character from a concatenation drops it from each part. */
  lemma {:induction false} RemoveAllConcat(a: string, b: string, c: char)
    ensures RemoveAll(a + b, c) == RemoveAll(a, c) + RemoveAll(b, c)
  {
    if a == [] {
      assert a + b == b;
    } else {
      assert (a + b)[0] == a[0] && (a + b)[1..] == a[1..] + b;
      RemoveAllConcat(a[1..], b, c);
    }
  }

  /** A string is left as it is exactly when it holds no c. */
  lemma {:induction false} RemoveAllFixed(s: string, c: char)
    ensures RemoveAll(s, c) == s <==> c !in s
  {
    if s != [] && c !in s {
      assert c !in s[1..];
      RemoveAllFixed(s[1..], c);
      assert s == [s[0]] + s[1..];
    }
  }

  /** A character of a LilyPond identifier: anything but '_' and '-'. */
  predicate Kept(d: char)
  {
    d != '_' && d != '-'
  }

  /** The characters of s that are Kept, in their order: the meaning of the cleanup. */
  function KeptOf(s: string): (r: string)
    ensures forall d :: d in r ==> Kept(d)
  {
    if s == [] then [] else (if Kept(s[0]) then [s[0]] else []) + KeptOf(s[1..])
  }

  /** cleanup_string_for_lilypond: the underscores removed, then the dashes. */
  function Cleanup(s: string): (r: string)
    ensures '_' !in r && '-' !in r && |r| <= |s|
  {
    RemoveAll(RemoveAll(s, '_'), '-')
  }

  /** The two replacements together keep exactly the Kept characters, in order. */
  lemma {:induction false} CleanupKeepsOrder(s: string)
    ensures Cleanup(s) == KeptOf(s)
  {
    if s != [] {
      assert s == [s[0]] + s[1..];
      RemoveAllConcat([s[0]], s[1..], '_');
      RemoveAllConcat(RemoveAll([s[0]], '_'), RemoveAll(s[1..], '_'), '-');
      CleanupKeepsOrder(s[1..]);
    }
  }

  /** The cleanup of a concatenation is the concatenation of the cleanups. */
  lemma CleanupConcat(a: string, b: string)
    ensures Cleanup(a + b) == Cleanup(a) + Cleanup(b)
  {
    RemoveAllConcat(a, b, '_');
    RemoveAllConcat(RemoveAll(a, '_'), RemoveAll(b, '_'), '-');
  }

  /** A name is left as it is exactly when it has no '_' and no '-'. */
  lemma CleanupFixed(s: string)
    ensures Cleanup(s) == s <==> '_' !in s && '-' !in s
  {
    RemoveAllFixed(s, '_');
    RemoveAllFixed(RemoveAll(s, '_'), '-');
    if Cleanup(s) == s {
      assert '_' !in s && '-' !in s;
    }
  }

  /** Cleaning up twice is cleaning up once. */
  lemma CleanupIdempotent(s: string)
    ensures Cleanup(Cleanup(s)) == Cleanup(s)
  {
    CleanupFixed(Cleanup(s));
  }

  // starts_with_one_of (stylecompiler.py:22-26)

  /** starts_with_one_of: the entries are tried in order and the first prefix
      of strng ends the search. */
  method StartsWithOneOf(strng: string, prefixes: seq<string>) returns (b: bool)
    ensures b <==> exists j :: 0 <= j < |prefixes| && NumberUtils.StartsWith(strng, prefixes[j])
    ensures b == NumberUtils.StartsWithOneOf(strng, prefixes)
  {
    for j := 0 to |prefixes|
      invariant forall m :: 0 <= m < j ==> !NumberUtils.StartsWith(strng, prefixes[m])
    {
      if NumberUtils.StartsWith(strng, prefixes[j]) {
        return true;
      }
    }
    return false;
  }

  // fragmentname, voicename, voicefragmentname (stylecompiler.py:79-91)

  /** fragmentname: the cleaned track, staff and chord names run together. */
  function FragmentName(trackname: string, staffname: string, chordname: string): (r: string)
    ensures '_' !in r && '-' !in r
  {
    Cleanup(trackname) + Cleanup(staffname) + Cleanup(chordname)
  }

  /** voicename: the cleaned track and staff names run together. */
  function VoiceName(trackname: string, staffname: string): (r: string)
    ensures '_' !in r && '-' !in r
  {
    Cleanup(trackname) + Cleanup(staffname)
  }

  /** voicefragmentname: the voice name with "Voice" after it. */
  function VoiceFragmentName(trackname: string, staffname: string): (r: string)
    ensures '_' !in r && '-' !in r
    ensures |r| >= 5 && r[|r| - 5..] == "Voice"
  {
    VoiceName(trackname, staffname) + "Voice"
  }

  /** A fragment name is the cleanup of the names joined, and it begins with the
      voice name of its track and staff. */
  lemma FragmentNameJoined(trackname: string, staffname: string, chordname: string)
    ensures FragmentName(trackname, staffname, chordname) == Cleanup(trackname + staffname + chordname)
    ensures FragmentName(trackname, staffname, chordname) ==
      VoiceName(trackname, staffname) + Cleanup(chordname)
  {
    CleanupConcat(trackname, staffname);
    CleanupConcat(trackname + staffname, chordname);
  }

  /** A voice fragment name is the cleanup of the names joined with "Voice". */
  lemma VoiceFragmentNameJoined(trackname: string, staffname: string)
    ensures VoiceFragmentName(trackname, staffname) == Cleanup(trackname + staffname + "Voice")
  {
    CleanupConcat(trackname, staffname);
    CleanupConcat(trackname + staffname, "Voice");
    CleanupFixed("Voice");
  }

  /** Different names can give the same identifier: two track and staff names
      give the same fragment name for a chord exactly when their concatenations
      clean to the same text, so where the track name ends and the staff name
      begins is lost ... */
  lemma FragmentNamesJoin(track1: string, staff1: string, track2: string, staff2: string, chord: string)
    ensures FragmentName(track1, staff1, chord) == FragmentName(track2, staff2, chord) <==>
      Cleanup(track1 + staff1) == Cleanup(track2 + staff2)
  {
    FragmentNameJoined(track1, staff1, chord);
    FragmentNameJoined(track2, staff2, chord);
    CleanupConcat(track1, staff1);
    CleanupConcat(track2, staff2);
    var x, y, z := Cleanup(track1 + staff1), Cleanup(track2 + staff2), Cleanup(chord);
    if x + z == y + z {
      assert |x| == |y|;
      assert x == (x + z)[..|x|] && y == (y + z)[..|y|];
    }
  }

  /** ... and so are the dashes and underscores of every name. */
  lemma FragmentNamesDropDashes(trackname: string, staffname: string, chordname: string)
    ensures FragmentName(trackname, staffname, chordname) ==
      FragmentName(Cleanup(trackname), Cleanup(staffname), Cleanup(chordname))
  {
    CleanupIdempotent(trackname);
    CleanupIdempotent(staffname);
    CleanupIdempotent(chordname);
  }

  // calculate_chord_definitions (stylecompiler.py:199-215)

  /** One entry of a staff's "chords" mapping: the chord's name and its LilyPond text. */
  datatype Chord = Chord(name: string, content: string)

  /** One entry of a track's "staves" mapping. */
  datatype Staff = Staff(name: string, chords: seq<Chord>)

  /** One entry of the style's "tracks" mapping. */
  datatype Track = Track(name: string, staves: seq<Staff>)

  /** `"{0} = {1}".format(fragname, fragcontent)` */
  function Definition(trackname: string, staffname: string, chord: Chord): string
  {
    FragmentName(trackname, staffname, chord.name) + " = " + chord.content
  }

  /** The definitions of the first chords of one staff, in order. */
  function ChordDefinitions(trackname: string, staffname: string, chords: seq<Chord>): (r: seq<string>)
  {
    if chords == [] then []
    else
      var previous := ChordDefinitions(trackname, staffname, chords[..|chords| - 1]);
      previous + [Definition(trackname, staffname, chords[|chords| - 1])]
  }

  /** How many chords the staves hold together. */
  function ChordCount(staves: seq<Staff>): nat
  {
    if staves == [] then 0 else ChordCount(staves[..|staves| - 1]) + |staves[|staves| - 1].chords|
  }

  /** The definitions of the chords of the first staves of a track, staff by staff. */
  function StavesDefinitions(trackname: string, staves: seq<Staff>): (r: seq<string>)
  {
    if staves == [] then []
    else
      var last := staves[|staves| - 1];
      StavesDefinitions(trackname, staves[..|staves| - 1]) + ChordDefinitions(trackname, last.name, last.chords)
  }

  /** The chord names of the first chords of one staff. */
  function ChordNames(chords: seq<Chord>): (r: set<string>)
  {
    if chords == [] then {} else ChordNames(chords[..|chords| - 1]) + {chords[|chords| - 1].name}
  }

  /** The chord names of the first staves of a track. */
  function StavesChordNames(staves: seq<Staff>): (r: set<string>)
  {
    if staves == [] then {}
    else StavesChordNames(staves[..|staves| - 1]) + ChordNames(staves[|staves| - 1].chords)
  }

  /** knownchords after the first tracks. */
  function KnownChords(tracks: seq<Track>): (r: set<string>)
  {
    if tracks == [] then {}
    else KnownChords(tracks[..|tracks| - 1]) + StavesChordNames(tracks[|tracks| - 1].staves)
  }

  /** chorddefinitions after the first tracks: a later track of the same name
      starts its list afresh. */
  function DefinitionsOf(tracks: seq<Track>): (r: map<string, seq<string>>)
  {
    if tracks == [] then map[]
    else
      var last := tracks[|tracks| - 1];
      DefinitionsOf(tracks[..|tracks| - 1])[last.name := StavesDefinitions(last.name, last.staves)]
  }

  /** f is the definition of some chord of some staff. */
  ghost predicate DefinesChord(trackname: string, staves: seq<Staff>, f: string)
  {
    exists j, k :: 0 <= j < |staves| && 0 <= k < |staves[j].chords| &&
      f == Definition(trackname, staves[j].name, staves[j].chords[k])
  }

  /** c names some chord of some staff. */
  ghost predicate NamesChord(staves: seq<Staff>, c: string)
  {
    exists j, k :: 0 <= j < |staves| && 0 <= k < |staves[j].chords| && staves[j].chords[k].name == c
  }

  /** c names some chord of some staff of some track. */
  ghost predicate NamesTrackChord(tracks: seq<Track>, c: string)
  {
    exists i :: 0 <= i < |tracks| && NamesChord(tracks[i].staves, c)
  }

  /** One definition per chord of a staff, in the staff's order. */
  lemma {:induction false} ChordDefinitionsEach(trackname: string, staffname: string, chords: seq<Chord>)
    ensures |ChordDefinitions(trackname, staffname, chords)| == |chords|
    ensures forall k :: 0 <= k < |chords| ==>
      ChordDefinitions(trackname, staffname, chords)[k] == Definition(trackname, staffname, chords[k])
  {
    if chords != [] {
      var n := |chords| - 1;
      var front := chords[..n];
      ChordDefinitionsEach(trackname, staffname, front);
      assert ChordDefinitions(trackname, staffname, chords) ==
        ChordDefinitions(trackname, staffname, front) + [Definition(trackname, staffname, chords[n])];
      assert forall k :: 0 <= k < n ==> front[k] == chords[k];
    }
  }

  /** One definition per chord of every staff of a track. */
  lemma {:induction false} StavesDefinitionsCount(trackname: string, staves: seq<Staff>)
    ensures |StavesDefinitions(trackname, staves)| == ChordCount(staves)
  {
    if staves != [] {
      var last := staves[|staves| - 1];
      StavesDefinitionsCount(trackname, staves[..|staves| - 1]);
      ChordDefinitionsEach(trackname, last.name, last.chords);
    }
  }

  /** Every definition of a track is that of a chord of one of its staves ... */
  lemma {:induction false} StavesDefinitionsSound(trackname: string, staves: seq<Staff>, f: string)
    requires f in StavesDefinitions(trackname, staves)
    ensures DefinesChord(trackname, staves, f)
  {
    var n := |staves| - 1;
    var front, last := staves[..n], staves[n];
    var lastDefs := ChordDefinitions(trackname, last.name, last.chords);
    if f in lastDefs {
      ChordDefinitionsEach(trackname, last.name, last.chords);
      var k :| 0 <= k < |lastDefs| && lastDefs[k] == f;
      assert 0 <= k < |staves[n].chords| && f == Definition(trackname, staves[n].name, staves[n].chords[k]);
    } else {
      StavesDefinitionsSound(trackname, front, f);
      var j, k :| 0 <= j < |front| && 0 <= k < |front[j].chords| &&
        f == Definition(trackname, front[j].name, front[j].chords[k]);
      assert staves[j] == front[j];
    }
  }

  /** ... and the definition of every chord of its staves is among them. */
  lemma {:induction false} StavesDefinitionsComplete(trackname: string, staves: seq<Staff>, j: nat, k: nat)
    requires j < |staves| && k < |staves[j].chords|
    ensures Definition(trackname, staves[j].name, staves[j].chords[k]) in StavesDefinitions(trackname, staves)
  {
    var n := |staves| - 1;
    var front, last := staves[..n], staves[n];
    var lastDefs := ChordDefinitions(trackname, last.name, last.chords);
    if j < n {
      assert front[j] == staves[j];
      StavesDefinitionsComplete(trackname, front, j, k);
    } else {
      ChordDefinitionsEach(trackname, last.name, last.chords);
      assert lastDefs[k] == Definition(trackname, staves[j].name, staves[j].chords[k]);
    }
  }

  /** The definitions of a track are those of the chords of its staves and no others. */
  lemma StavesDefinitionsMembers(trackname: string, staves: seq<Staff>, f: string)
    ensures f in StavesDefinitions(trackname, staves) <==> DefinesChord(trackname, staves, f)
  {
    if f in StavesDefinitions(trackname, staves) {
      StavesDefinitionsSound(trackname, staves, f);
    }
    if DefinesChord(trackname, staves, f) {
      var j, k :| 0 <= j < |staves| && 0 <= k < |staves[j].chords| &&
        f == Definition(trackname, staves[j].name, staves[j].chords[k]);
      StavesDefinitionsComplete(trackname, staves, j, k);
    }
  }

  /** The chord names of a staff are the names of its chords. */
  lemma {:induction false} ChordNamesMembers(chords: seq<Chord>, c: string)
    ensures c in ChordNames(chords) <==> exists k :: 0 <= k < |chords| && chords[k].name == c
  {
    if chords != [] {
      var n := |chords| - 1;
      ChordNamesMembers(chords[..n], c);
      if exists k :: 0 <= k < |chords| && chords[k].name == c {
        var k :| 0 <= k < |chords| && chords[k].name == c;
        if k < n {
          assert chords[..n][k] == chords[k];
        }
      }
    }
  }

  /** The chord names of a track are the names of the chords of its staves. */
  lemma {:induction false} StavesChordNamesMembers(staves: seq<Staff>, c: string)
    ensures c in StavesChordNames(staves) <==> NamesChord(staves, c)
  {
    if staves != [] {
      var n := |staves| - 1;
      StavesChordNamesMembers(staves[..n], c);
      ChordNamesMembers(staves[n].chords, c);
      if NamesChord(staves, c) {
        var j, k :| 0 <= j < |staves| && 0 <= k < |staves[j].chords| && staves[j].chords[k].name == c;
        if j < n {
          assert staves[..n][j] == staves[j];
        }
      }
    }
  }

  /** knownchords holds exactly the chord names of every staff of every track. */
  lemma {:induction false} KnownChordsMembers(tracks: seq<Track>, c: string)
    ensures c in KnownChords(tracks) <==> NamesTrackChord(tracks, c)
  {
    if tracks != [] {
      var n := |tracks| - 1;
      KnownChordsMembers(tracks[..n], c);
      StavesChordNamesMembers(tracks[n].staves, c);
      if NamesTrackChord(tracks, c) {
        var i :| 0 <= i < |tracks| && NamesChord(tracks[i].staves, c);
        if i < n {
          assert tracks[..n][i] == tracks[i];
        }
      }
    }
  }

  /** Every track name is a key of the definitions, and nothing else is. */
  lemma {:induction false} DefinitionsKeys(tracks: seq<Track>)
    ensures DefinitionsOf(tracks).Keys == set i | 0 <= i < |tracks| :: tracks[i].name
  {
    if tracks != [] {
      var n := |tracks| - 1;
      DefinitionsKeys(tracks[..n]);
      assert forall i :: 0 <= i < n ==> tracks[..n][i] == tracks[i];
    }
  }

  /** A track name maps to the definitions of the last track of that name: an
      earlier track of the same name (the case warned about) is overwritten. */
  lemma {:induction false} DefinitionsOfLast(tracks: seq<Track>, i: nat)
    requires i < |tracks|
    requires forall m :: i < m < |tracks| ==> tracks[m].name != tracks[i].name
    ensures tracks[i].name in DefinitionsOf(tracks)
    ensures DefinitionsOf(tracks)[tracks[i].name] == StavesDefinitions(tracks[i].name, tracks[i].staves)
  {
    var n := |tracks| - 1;
    if i < n {
      assert tracks[..n][i] == tracks[i];
      DefinitionsOfLast(tracks[..n], i);
    }
  }

  /** Writing a key twice leaves the second value. */
  lemma UpdateTwice(m: map<string, seq<string>>, key: string, first: seq<string>, second: seq<string>)
    ensures m[key := first][key := second] == m[key := second]
  {
  }

  /** The innermost loop of calculate_chord_definitions, over the chords of one
      staff: each adds its definition to the track's list and its name to the
      known chords. */
  method AddStaffDefinitions(chorddefinitions: map<string, seq<string>>, knownchords: set<string>,
                             name: string, staff: Staff)
    returns (defs: map<string, seq<string>>, known: set<string>)
    requires name in chorddefinitions
    ensures defs == chorddefinitions[name := chorddefinitions[name] + ChordDefinitions(name, staff.name, staff.chords)]
    ensures known == knownchords + ChordNames(staff.chords)
  {
    defs, known := chorddefinitions, knownchords;
    ghost var done := chorddefinitions[name];
    assert done + ChordDefinitions(name, staff.name, staff.chords[..0]) == done;
    assert chorddefinitions[name := done] == chorddefinitions;
    for k := 0 to |staff.chords|
      invariant defs == chorddefinitions[name := done + ChordDefinitions(name, staff.name, staff.chords[..k])]
      invariant known == knownchords + ChordNames(staff.chords[..k])
    {
      assert staff.chords[..k + 1][..k] == staff.chords[..k];
      known := known + {staff.chords[k].name};
      var fragment := Definition(name, staff.name, staff.chords[k]);
      ghost var before := ChordDefinitions(name, staff.name, staff.chords[..k]);
      assert ChordDefinitions(name, staff.name, staff.chords[..k + 1]) == before + [fragment];
      assert defs[name] + [fragment] == done + (before + [fragment]);
      defs := defs[name := defs[name] + [fragment]];
      UpdateTwice(chorddefinitions, name, done + before, done + (before + [fragment]));
    }
    assert staff.chords[..|staff.chords|] == staff.chords;
  }

  /** The body of the outer loop of calculate_chord_definitions, for one track:
      its list is reset, then every staff adds the definitions of its chords. */
  method AddTrackDefinitions(chorddefinitions: map<string, seq<string>>, knownchords: set<string>, track: Track)
    returns (defs: map<string, seq<string>>, known: set<string>)
    ensures defs == chorddefinitions[track.name := StavesDefinitions(track.name, track.staves)]
    ensures known == knownchords + StavesChordNames(track.staves)
  {
    var name, staves := track.name, track.staves;
    defs := chorddefinitions[name := []];
    known := knownchords;
    assert staves[..0] == [];
    for j := 0 to |staves|
      invariant defs == chorddefinitions[name := StavesDefinitions(name, staves[..j])]
      invariant known == knownchords + StavesChordNames(staves[..j])
    {
      assert staves[..j + 1][..j] == staves[..j];
      ghost var before := StavesDefinitions(name, staves[..j]);
      ghost var added := ChordDefinitions(name, staves[j].name, staves[j].chords);
      assert StavesDefinitions(name, staves[..j + 1]) == before + added;
      assert StavesChordNames(staves[..j + 1]) == StavesChordNames(staves[..j]) + ChordNames(staves[j].chords);
      defs, known := AddStaffDefinitions(defs, known, name, staves[j]);
      UpdateTwice(chorddefinitions, name, before, before + added);
    }
    assert staves[..|staves|] == staves;
  }

  /** calculate_chord_definitions: the tracks in turn, each adding the
      definitions of the chords of its staves. */
  method CalculateChordDefinitions(tracks: seq<Track>) returns (chorddefinitions: map<string, seq<string>>, knownchords: set<string>)
    ensures chorddefinitions == DefinitionsOf(tracks)
    ensures knownchords == KnownChords(tracks)
  {
    chorddefinitions := map[];
    knownchords := {};
    for i := 0 to |tracks|
      invariant chorddefinitions == DefinitionsOf(tracks[..i])
      invariant knownchords == KnownChords(tracks[..i])
    {
      assert tracks[..i + 1][..i] == tracks[..i];
      chorddefinitions, knownchords := AddTrackDefinitions(chorddefinitions, knownchords, tracks[i]);
    }
    assert tracks[..|tracks|] == tracks;
  }
}
