/** numberutils.py: Roman numerals, English number names and letter counters used
    to build LilyPond identifiers, and the split of a chord symbol such as `VIbm7`
    into numeral, accidental and rest. */
module NumberUtils {

  import opened Wrappers
  import opened Arith

  // ---------------------------------------------------------------------------
  // numeral_map (numberutils.py:3-6)

  datatype Entry = Entry(value: int, numeral: string)

  /** numeral_map: the thirteen entries in the order the loops visit them, largest
      value first. */
  const NumeralMap: seq<Entry> := [
    Entry(1000, "M"), Entry(900, "CM"), Entry(500, "D"), Entry(400, "CD"),
    Entry(100, "C"), Entry(90, "XC"), Entry(50, "L"), Entry(40, "XL"),
    Entry(10, "X"), Entry(9, "IX"), Entry(5, "V"), Entry(4, "IV"), Entry(1, "I")]

  /** t holds the entries of numeral_map, stated index by index. */
  ghost predicate ListsNumeralMap(t: seq<Entry>)
  {
    && |t| == 13
    && t[0] == Entry(1000, "M") && t[1] == Entry(900, "CM") && t[2] == Entry(500, "D")
    && t[3] == Entry(400, "CD") && t[4] == Entry(100, "C") && t[5] == Entry(90, "XC")
    && t[6] == Entry(50, "L") && t[7] == Entry(40, "XL") && t[8] == Entry(10, "X")
    && t[9] == Entry(9, "IX") && t[10] == Entry(5, "V") && t[11] == Entry(4, "IV")
    && t[12] == Entry(1, "I")
  }

  /** What the loops of int_to_roman and roman_to_int need of a table: positive
      values (a divisor) and non-empty numerals (the reading loop advances). */
  predicate IsTable(t: seq<Entry>)
  {
    forall k :: 0 <= k < |t| ==> t[k].value >= 1 && t[k].numeral != []
  }

  /** The Roman letters ranked by value, 0 for any other character. */
  function Rank(c: char): nat
  {
    match c
    case 'I' => 1
    case 'V' => 2
    case 'X' => 3
    case 'L' => 4
    case 'C' => 5
    case 'D' => 6
    case 'M' => 7
    case _ => 0
  }

  /** The shape of numeral_map that makes reading undo writing: single letters at
      even positions and subtractive pairs at odd ones, the highest letter of entry
      k has rank 7 - k/2, a single letter differs from the first letter of the pair
      after it, and the values decrease down to 1. */
  ghost predicate RomanShaped(t: seq<Entry>)
  {
    && IsTable(t)
    && |t| > 0 && t[|t| - 1].value == 1
    && (forall k, c :: 0 <= k < |t| && c in t[k].numeral ==> 1 <= Rank(c) <= 7 - k / 2)
    && (forall k :: 0 <= k < |t| && k % 2 == 0 ==>
          |t[k].numeral| == 1 && Rank(t[k].numeral[0]) == 7 - k / 2)
    && (forall k :: 0 <= k < |t| && k % 2 == 1 ==>
          |t[k].numeral| == 2 && Rank(t[k].numeral[1]) == 7 - k / 2)
    && (forall j, k :: 0 <= j < k < |t| && k == j + 1 && k % 2 == 1 ==>
          t[k].numeral[0] != t[j].numeral[0])
    && (forall j, k :: 0 <= j < k < |t| ==> t[k].value < t[j].value)
  }

  /** The shape of one entry of numeral_map. */
  lemma EntryShape(k: nat)
    requires k < |NumeralMap|
    ensures NumeralMap[k].value >= 1 && NumeralMap[k].numeral != []
    ensures forall c :: c in NumeralMap[k].numeral ==> 1 <= Rank(c) <= 7 - k / 2
    ensures k % 2 == 0 ==> |NumeralMap[k].numeral| == 1 && Rank(NumeralMap[k].numeral[0]) == 7 - k / 2
    ensures k % 2 == 1 ==> |NumeralMap[k].numeral| == 2 && Rank(NumeralMap[k].numeral[1]) == 7 - k / 2
  {
    if k < 4 {
      EntryShapeLarge(k);
    } else if k < 8 {
      EntryShapeMiddle(k);
    } else {
      EntryShapeSmall(k);
    }
  }

  lemma EntryShapeLarge(k: nat)
    requires k < 4
    ensures NumeralMap[k].value >= 1 && NumeralMap[k].numeral != []
    ensures forall c :: c in NumeralMap[k].numeral ==> 1 <= Rank(c) <= 7 - k / 2
    ensures k % 2 == 0 ==> |NumeralMap[k].numeral| == 1 && Rank(NumeralMap[k].numeral[0]) == 7 - k / 2
    ensures k % 2 == 1 ==> |NumeralMap[k].numeral| == 2 && Rank(NumeralMap[k].numeral[1]) == 7 - k / 2
  {
    if k == 0 {} else if k == 1 {} else if k == 2 {} else {}
  }

  lemma EntryShapeMiddle(k: nat)
    requires 4 <= k < 8
    ensures NumeralMap[k].value >= 1 && NumeralMap[k].numeral != []
    ensures forall c :: c in NumeralMap[k].numeral ==> 1 <= Rank(c) <= 7 - k / 2
    ensures k % 2 == 0 ==> |NumeralMap[k].numeral| == 1 && Rank(NumeralMap[k].numeral[0]) == 7 - k / 2
    ensures k % 2 == 1 ==> |NumeralMap[k].numeral| == 2 && Rank(NumeralMap[k].numeral[1]) == 7 - k / 2
  {
    if k == 4 {} else if k == 5 {} else if k == 6 {} else {}
  }

  lemma EntryShapeSmall(k: nat)
    requires 8 <= k < |NumeralMap|
    ensures NumeralMap[k].value >= 1 && NumeralMap[k].numeral != []
    ensures forall c :: c in NumeralMap[k].numeral ==> 1 <= Rank(c) <= 7 - k / 2
    ensures k % 2 == 0 ==> |NumeralMap[k].numeral| == 1 && Rank(NumeralMap[k].numeral[0]) == 7 - k / 2
    ensures k % 2 == 1 ==> |NumeralMap[k].numeral| == 2 && Rank(NumeralMap[k].numeral[1]) == 7 - k / 2
  {
    if k == 8 {} else if k == 9 {} else if k == 10 {} else if k == 11 {} else {}
  }

  /** How one entry of numeral_map relates to the one before it. */
  lemma EntryAfter(k: nat)
    requires 0 < k < |NumeralMap|
    ensures NumeralMap[k].value < NumeralMap[k - 1].value
    ensures k % 2 == 1 ==> NumeralMap[k].numeral[0] != NumeralMap[k - 1].numeral[0]
  {
    if k < 4 {
      if k == 1 {} else if k == 2 {} else {}
    } else if k < 8 {
      if k == 4 {} else if k == 5 {} else if k == 6 {} else {}
    } else {
      if k == 8 {} else if k == 9 {} else if k == 10 {} else if k == 11 {} else {}
    }
  }

  lemma {:induction false} Decreasing(t: seq<Entry>, j: nat, k: nat)
    requires forall m :: 0 < m < |t| ==> t[m].value < t[m - 1].value
    requires j < k < |t|
    ensures t[k].value < t[j].value
    decreases k - j
  {
    if j < k - 1 {
      Decreasing(t, j, k - 1);
    }
  }

  /** numeral_map has positive values and non-empty numerals, listed from the
      largest value down. */
  lemma NumeralMapTable()
    ensures IsTable(NumeralMap)
    ensures forall j, k :: 0 <= j < k < |NumeralMap| ==> NumeralMap[k].value < NumeralMap[j].value
  {
    forall k | 0 <= k < |NumeralMap|
      ensures NumeralMap[k].value >= 1 && NumeralMap[k].numeral != []
    {
      EntryShape(k);
    }
    forall k | 0 < k < |NumeralMap|
      ensures NumeralMap[k].value < NumeralMap[k - 1].value
    {
      EntryAfter(k);
    }
    forall j, k | 0 <= j < k < |NumeralMap|
      ensures NumeralMap[k].value < NumeralMap[j].value
    {
      Decreasing(NumeralMap, j, k);
    }
  }

  lemma NumeralMapShaped()
    ensures RomanShaped(NumeralMap)
  {
    forall k | 0 <= k < |NumeralMap|
      ensures NumeralMap[k].value >= 1 && NumeralMap[k].numeral != []
      ensures forall c :: c in NumeralMap[k].numeral ==> 1 <= Rank(c) <= 7 - k / 2
      ensures k % 2 == 0 ==> |NumeralMap[k].numeral| == 1 && Rank(NumeralMap[k].numeral[0]) == 7 - k / 2
      ensures k % 2 == 1 ==> |NumeralMap[k].numeral| == 2 && Rank(NumeralMap[k].numeral[1]) == 7 - k / 2
    {
      EntryShape(k);
    }
    forall k | 0 < k < |NumeralMap|
      ensures NumeralMap[k].value < NumeralMap[k - 1].value
      ensures k % 2 == 1 ==> NumeralMap[k].numeral[0] != NumeralMap[k - 1].numeral[0]
    {
      EntryAfter(k);
    }
    forall j, k | 0 <= j < k < |NumeralMap|
      ensures NumeralMap[k].value < NumeralMap[j].value
    {
      Decreasing(NumeralMap, j, k);
    }
  }

  /** `s * n` for a string: n copies of s, nothing when n is not positive. */
  function Repeat(s: string, n: int): (r: string)
    ensures forall c :: c in r ==> c in s
    decreases n
  {
    if n <= 0 then "" else s + Repeat(s, n - 1)
  }

  /** What one entry leaves: the remainder, and no copy at all of the entry when
      there is less than its value. */
  lemma RestOfEntry(i: int, v: int)
    requires v >= 1
    ensures 0 <= i - v * (i / v) < v
    ensures i - v * (i / v) == i % v
    ensures 0 <= i < v ==> i / v == 0
    ensures 0 <= i ==> 0 <= i / v
  {
    assert i == (i / v) * v + i % v;
    if 0 <= i < v {
      DivModUnique(i, v, 0, i);
    }
    if 0 <= i {
      DivBounds(i, v);
    }
  }

  // ---------------------------------------------------------------------------
  // int_to_roman (numberutils.py:8-14)

  /** What the loop of int_to_roman appends from entry k of table t on, with i
      left to write. `//` is floor division, which for the positive values of the
      table is Dafny's `/`. */
  function RomanFrom(t: seq<Entry>, i: int, k: nat): string
    requires IsTable(t)
    decreases |t| - k, i
  {
    if k >= |t| then ""
    else
      var e := t[k];
      var count := i / e.value;
      Repeat(e.numeral, count) + RomanFrom(t, i - e.value * count, k + 1)
  }

  /** int_to_roman: for each entry, its numeral as often as its value fits. */
  method IntToRoman(i: int) returns (s: string)
    ensures IsTable(NumeralMap) && s == RomanFrom(NumeralMap, i, 0)
  {
    NumeralMapShaped();
    s := RomanWith(NumeralMap, i);
  }

  /** The loop of int_to_roman over a table. */
  method RomanWith(t: seq<Entry>, i: int) returns (s: string)
    requires IsTable(t)
    ensures s == RomanFrom(t, i, 0)
  {
    s := "";
    var rest := i;
    for k := 0 to |t|
      invariant s + RomanFrom(t, rest, k) == RomanFrom(t, i, 0)
    {
      var e := t[k];
      var count := rest / e.value;
      s := s + Repeat(e.numeral, count);
      rest := rest - e.value * count;
    }
  }

  /** The characters written from entry k on are Roman letters of rank at most 7 - k/2. */
  lemma {:induction false} RomanRanks(t: seq<Entry>, i: int, k: nat)
    requires RomanShaped(t)
    ensures forall c :: c in RomanFrom(t, i, k) ==> 1 <= Rank(c) <= 7 - k / 2
    decreases |t| - k
  {
    if k < |t| {
      var e := t[k];
      RomanRanks(t, i - e.value * (i / e.value), k + 1);
    }
  }

  lemma {:induction false} RomanOfZero(t: seq<Entry>, k: nat)
    requires IsTable(t)
    ensures RomanFrom(t, 0, k) == ""
    decreases |t| - k
  {
    if k < |t| {
      RestOfEntry(0, t[k].value);
      RomanOfZero(t, k + 1);
    }
  }

  /** int_to_roman writes only the letters M, D, C, L, X, V and I, and nothing for 0. */
  lemma RomanAlphabet(i: int)
    ensures IsTable(NumeralMap)
    ensures forall c :: c in RomanFrom(NumeralMap, i, 0) ==> c in "MDCLXVI"
    ensures RomanFrom(NumeralMap, 0, 0) == ""
  {
    NumeralMapShaped();
    RomanRanks(NumeralMap, i, 0);
    forall c | c in RomanFrom(NumeralMap, i, 0) ensures c in "MDCLXVI" {
      assert 1 <= Rank(c);
    }
    RomanOfZero(NumeralMap, 0);
  }

  /** A negative argument gives no M (`'M' * count` with a negative count) and
      leaves i mod 1000 for the rest: int_to_roman(i) is int_to_roman(i mod 1000). */
  lemma NegativeRoman(i: int)
    requires i < 0
    ensures IsTable(NumeralMap)
    ensures RomanFrom(NumeralMap, i, 0) == RomanFrom(NumeralMap, i % 1000, 0)
  {
    NumeralMapTable();
    var t := NumeralMap;
    assert t[0] == Entry(1000, "M");
    var m := i % 1000;
    RestOfEntry(i, 1000);
    RestOfEntry(m, 1000);
    assert i / 1000 < 0;
    RomanTake(t, i, 0, i / 1000, m);
    RomanTake(t, m, 0, 0, m);
    assert Repeat("M", i / 1000) + RomanFrom(t, m, 1) == RomanFrom(t, m, 1);
    assert Repeat("M", 0) + RomanFrom(t, m, 1) == RomanFrom(t, m, 1);
  }

  // ---------------------------------------------------------------------------
  // roman_to_int (numberutils.py:16-22)

  /** `n[i:i + len(p)] == p`: Python's slice stops at the end of the string. */
  predicate StartsWith(n: string, p: string)
  {
    |p| <= |n| && n[..|p|] == p
  }

  /** What roman_to_int adds up reading s from entry k of table t on: a numeral is
      read as often as it repeats, then the next entry is tried; whatever is left
      when the table runs out is ignored. */
  function Parse(t: seq<Entry>, s: string, k: nat): (n: int)
    requires IsTable(t)
    ensures n >= 0
    decreases |t| - k, |s|
  {
    if k >= |t| then 0
    else
      var e := t[k];
      if StartsWith(s, e.numeral) then e.value + Parse(t, s[|e.numeral|..], k)
      else Parse(t, s, k + 1)
  }

  /** roman_to_int: for each entry, read its numeral as long as it repeats. */
  method RomanToInt(n: string) returns (result: int)
    ensures IsTable(NumeralMap) && result == Parse(NumeralMap, n, 0)
    ensures result >= 0
  {
    NumeralMapShaped();
    result := ReadWith(NumeralMap, n);
  }

  /** The loops of roman_to_int over a table. */
  method ReadWith(t: seq<Entry>, n: string) returns (result: int)
    requires IsTable(t)
    ensures result == Parse(t, n, 0)
  {
    var i := 0;
    result := 0;
    for k := 0 to |t|
      invariant i <= |n|
      invariant result + Parse(t, n[i..], k) == Parse(t, n, 0)
    {
      var e := t[k];
      while i + |e.numeral| <= |n| && n[i..i + |e.numeral|] == e.numeral
        invariant i <= |n|
        invariant result + Parse(t, n[i..], k) == Parse(t, n, 0)
        decreases |n| - i
      {
        assert n[i..][..|e.numeral|] == e.numeral;
        assert n[i..][|e.numeral|..] == n[i + |e.numeral|..];
        result := result + e.value;
        i := i + |e.numeral|;
      }
      assert !StartsWith(n[i..], e.numeral) by {
        if |e.numeral| <= |n[i..]| {
          assert n[i..][..|e.numeral|] == n[i..i + |e.numeral|];
        }
      }
    }
  }

  /** Reading repeated copies of entry k adds its value once per copy. */
  lemma {:induction false} ParseRepeat(t: seq<Entry>, k: nat, count: nat, s: string)
    requires IsTable(t) && k < |t|
    ensures Parse(t, Repeat(t[k].numeral, count) + s, k) == count * t[k].value + Parse(t, s, k)
  {
    if count > 0 {
      var numeral, v := t[k].numeral, t[k].value;
      var w := Repeat(numeral, count) + s;
      var rest := Repeat(numeral, count - 1) + s;
      assert w == numeral + rest;
      assert w[..|numeral|] == numeral;
      assert w[|numeral|..] == rest;
      assert Parse(t, w, k) == v + Parse(t, rest, k);
      ParseRepeat(t, k, count - 1, s);
      assert count * v == (count - 1) * v + v;
    } else {
      assert Repeat(t[k].numeral, count) + s == s;
    }
  }

  /** What follows a subtractive pair never starts with it: its second letter
      outranks every letter written after it. */
  lemma NoRestartPair(t: seq<Entry>, r: int, k: nat)
    requires RomanShaped(t) && k < |t| && k % 2 == 1
    ensures !StartsWith(RomanFrom(t, r, k + 1), t[k].numeral)
  {
    var w := RomanFrom(t, r, k + 1);
    var p := t[k].numeral;
    RomanRanks(t, r, k + 1);
    assert |p| == 2 && Rank(p[1]) == 7 - k / 2;
    assert (k + 1) / 2 == k / 2 + 1;
    if 2 <= |w| {
      assert w[1] in w;
      assert Rank(w[1]) < Rank(p[1]);
      assert w[..2][1] == w[1];
    }
  }

  /** What follows a single letter never starts with it: the pair after it starts
      with another letter, and the entries after the pair have lower ranks. */
  lemma NoRestartSingle(t: seq<Entry>, r: int, k: nat)
    requires RomanShaped(t) && k < |t| && k % 2 == 0
    ensures !StartsWith(RomanFrom(t, r, k + 1), t[k].numeral)
  {
    var w := RomanFrom(t, r, k + 1);
    var p := t[k].numeral;
    assert |p| == 1 && Rank(p[0]) == 7 - k / 2;
    var k1 := k + 1;
    if k1 < |t| && w != [] {
      var q := t[k1].numeral;
      var v := t[k1].value;
      var count := r / v;
      var r2 := r - v * count;
      var rest := RomanFrom(t, r2, k1 + 1);
      RomanTake(t, r, k1, count, r2);
      if count > 0 {
        assert Repeat(q, count) == q + Repeat(q, count - 1);
        assert w[0] == q[0];
        assert q[0] != p[0];
      } else {
        assert w == rest;
        RomanRanks(t, r2, k1 + 1);
        assert w[0] in rest;
        assert Rank(w[0]) < Rank(p[0]);
      }
      assert w[..1][0] == w[0];
    }
  }

  /** After entry k, what int_to_roman writes from entry k + 1 on never starts with
      entry k again. */
  lemma NoRestart(t: seq<Entry>, r: int, k: nat)
    requires RomanShaped(t) && k < |t|
    ensures !StartsWith(RomanFrom(t, r, k + 1), t[k].numeral)
  {
    if k % 2 == 1 {
      NoRestartPair(t, r, k);
    } else {
      NoRestartSingle(t, r, k);
    }
  }

  /** Entry k reads nothing from a string that does not start with it. */
  lemma ParseSkipAll(t: seq<Entry>, s: string, k: nat)
    requires IsTable(t) && k < |t| && !StartsWith(s, t[k].numeral)
    ensures Parse(t, s, k) == Parse(t, s, k + 1)
  {
  }

  /** Reading what int_to_roman writes from entry k on gives back the number, when
      the entries before k have taken all they can. */
  lemma {:induction false} ParseRoman(t: seq<Entry>, r: int, k: nat)
    requires RomanShaped(t) && k <= |t| && 0 <= r && (k > 0 ==> r < t[k - 1].value)
    ensures Parse(t, RomanFrom(t, r, k), k) == r
    decreases |t| - k
  {
    if k == |t| {
      assert r < t[|t| - 1].value;
    } else {
      var v := t[k].value;
      var count := r / v;
      var r2 := r - v * count;
      RestOfEntry(r, v);
      var w := RomanFrom(t, r2, k + 1);
      var copies := Repeat(t[k].numeral, count);
      RomanTake(t, r, k, count, r2);
      ParseRepeat(t, k, count, w);
      assert Parse(t, copies + w, k) == count * v + Parse(t, w, k);
      NoRestart(t, r2, k);
      ParseSkipAll(t, w, k);
      ParseRoman(t, r2, k + 1);
      assert Parse(t, w, k) == r2;
      assert r == count * v + r2;
    }
  }

  /** roman_to_int(int_to_roman(i)) == i for every i >= 0. */
  lemma RomanRoundTrip(i: int)
    requires 0 <= i
    ensures IsTable(NumeralMap)
    ensures Parse(NumeralMap, RomanFrom(NumeralMap, i, 0), 0) == i
  {
    NumeralMapShaped();
    ParseRoman(NumeralMap, i, 0);
  }

  // The examples below unfold the definitions one entry at a time through small
  // lemmas about symbolic arguments, which keeps the solver's work per step small.

  lemma RomanStep(t: seq<Entry>, i: int, k: nat)
    requires IsTable(t) && k < |t|
    ensures RomanFrom(t, i, k) ==
      Repeat(t[k].numeral, i / t[k].value) + RomanFrom(t, i - t[k].value * (i / t[k].value), k + 1)
  {
  }

  /** Entry k writes nothing for a number below its value. */
  lemma RomanSkipOne(t: seq<Entry>, i: int, k: nat)
    requires IsTable(t) && k < |t| && 0 <= i < t[k].value
    ensures RomanFrom(t, i, k) == RomanFrom(t, i, k + 1)
  {
    var v := t[k].value;
    RestOfEntry(i, v);
    assert i / v == 0 && v * (i / v) == 0;
    var rest := RomanFrom(t, i, k + 1);
    assert RomanFrom(t, i, k) == Repeat(t[k].numeral, 0) + rest;
    assert Repeat(t[k].numeral, 0) + rest == rest;
  }

  lemma RepeatSmall(s: string)
    ensures Repeat(s, 1) == s && Repeat(s, 2) == s + s && Repeat(s, 3) == s + s + s
  {
    assert Repeat(s, 1) == s + "";
  }

  /** Entries k up to j write nothing for a number below all their values. */
  lemma {:induction false} RomanSkip(t: seq<Entry>, i: int, k: nat, j: nat)
    requires IsTable(t) && k <= j <= |t| && 0 <= i
    requires forall m :: k <= m < j ==> i < t[m].value
    ensures RomanFrom(t, i, k) == RomanFrom(t, i, j)
    decreases j - k
  {
    if k < j {
      RomanSkipOne(t, i, k);
      RomanSkip(t, i, k + 1, j);
    }
  }

  /** int_to_roman(7) on any table whose entries before the last three are worth
      more than 7 and whose last three are V, IV and I. */
  lemma RomanSevenWith(t: seq<Entry>)
    requires IsTable(t) && |t| == 13
    requires t[10] == Entry(5, "V") && t[11] == Entry(4, "IV") && t[12] == Entry(1, "I")
    requires forall m :: 0 <= m < 10 ==> 7 < t[m].value
    ensures RomanFrom(t, 7, 0) == "VII"
  {
    RomanSkip(t, 7, 0, 10);
    RomanTail(t);
  }

  lemma RomanTail(t: seq<Entry>)
    requires IsTable(t) && |t| == 13
    requires t[10] == Entry(5, "V") && t[11] == Entry(4, "IV") && t[12] == Entry(1, "I")
    ensures RomanFrom(t, 7, 10) == "VII"
  {
    RepeatSmall("V");
    RepeatSmall("I");
    assert 7 / 5 == 1 && 7 - 5 * 1 == 2 && 2 / 1 == 2 && 2 - 1 * 2 == 0;
    RomanStep(t, 7, 10);
    assert RomanFrom(t, 7, 10) == "V" + RomanFrom(t, 2, 11);
    RomanSkipOne(t, 2, 11);
    RomanStep(t, 2, 12);
    assert RomanFrom(t, 2, 12) == "II" + RomanFrom(t, 0, 13);
    assert RomanFrom(t, 0, 13) == "";
    assert "V" + ("II" + "") == "VII";
  }

  /** The example of numberutils.py:108. */
  lemma RomanSeven()
    ensures IsTable(NumeralMap) && RomanFrom(NumeralMap, 7, 0) == "VII"
  {
    NumeralMapShaped();
    assert NumeralMap[9].value == 9;
    RomanSevenWith(NumeralMap);
  }

  /** One entry that is written count times and leaves rest. */
  lemma RomanTake(t: seq<Entry>, i: int, k: nat, count: int, rest: int)
    requires IsTable(t) && k < |t| && count == i / t[k].value && rest == i - t[k].value * count
    ensures RomanFrom(t, i, k) == Repeat(t[k].numeral, count) + RomanFrom(t, rest, k + 1)
  {
  }

  lemma YearLetters()
    ensures "XXX" + ("II" + "") == "XXXII" && "CCC" + "XXXII" == "CCCXXXII"
    ensures "D" + "CCCXXXII" == "DCCCXXXII" && "M" + "DCCCXXXII" == "MDCCCXXXII"
  {
  }

  lemma RomanYearUnits(t: seq<Entry>)
    requires IsTable(t) && ListsNumeralMap(t)
    ensures RomanFrom(t, 32, 5) == "XXXII"
  {
    RepeatSmall("X"); RepeatSmall("I");
    RomanSkip(t, 2, 9, 12);
    RomanTake(t, 2, 12, 2, 0);
    assert RomanFrom(t, 0, 13) == "";
    RomanSkip(t, 32, 5, 8);
    RomanTake(t, 32, 8, 3, 2);
    YearLetters();
  }

  lemma RomanYearTens(t: seq<Entry>)
    requires IsTable(t) && ListsNumeralMap(t)
    ensures RomanFrom(t, 332, 3) == "CCCXXXII"
  {
    RepeatSmall("C");
    RomanYearUnits(t);
    RomanTake(t, 332, 4, 3, 32);
    RomanSkipOne(t, 332, 3);
    YearLetters();
  }

  lemma RomanYearHundreds(t: seq<Entry>)
    requires IsTable(t) && ListsNumeralMap(t)
    ensures RomanFrom(t, 832, 1) == "DCCCXXXII"
  {
    RepeatSmall("D");
    RomanYearTens(t);
    RomanTake(t, 832, 2, 1, 332);
    RomanSkipOne(t, 832, 1);
    YearLetters();
  }

  lemma RomanYearWith(t: seq<Entry>)
    requires IsTable(t) && ListsNumeralMap(t)
    ensures RomanFrom(t, 1832, 0) == "MDCCCXXXII"
  {
    RepeatSmall("M");
    RomanYearHundreds(t);
    RomanTake(t, 1832, 0, 1, 832);
    YearLetters();
  }

  /** The example of numberutils.py:109. */
  lemma RomanYear()
    ensures IsTable(NumeralMap) && RomanFrom(NumeralMap, 1832, 0) == "MDCCCXXXII"
  {
    NumeralMapTable();
    RomanYearWith(NumeralMap);
  }

  lemma ParseStep(t: seq<Entry>, s: string, k: nat)
    requires IsTable(t) && k < |t| && StartsWith(s, t[k].numeral)
    ensures Parse(t, s, k) == t[k].value + Parse(t, s[|t[k].numeral|..], k)
  {
  }

  /** Entry k reads nothing from a string that differs from it in the first or
      the second letter. */
  lemma ParseSkip(t: seq<Entry>, s: string, k: nat)
    requires IsTable(t) && k < |t|
    requires var p := t[k].numeral;
      || s == [] || s[0] != p[0]
      || (|p| == 2 && (|s| < 2 || s[1] != p[1]))
    ensures Parse(t, s, k) == Parse(t, s, k + 1)
  {
    var p := t[k].numeral;
    if s != [] && |p| <= |s| {
      assert s[..|p|][0] == s[0];
      if |p| == 2 {
        assert s[..|p|][1] == s[1];
      }
    }
  }

  lemma {:induction false} ParseEmpty(t: seq<Entry>, k: nat)
    requires IsTable(t)
    ensures Parse(t, "", k) == 0
    decreases |t| - k
  {
    if k < |t| {
      ParseEmpty(t, k + 1);
    }
  }

  lemma ParseNineWith(t: seq<Entry>)
    requires IsTable(t) && ListsNumeralMap(t)
    ensures Parse(t, "IX", 0) == 9
  {
    ParseEmpty(t, 10);
    ParseSkip(t, "IX", 0); ParseSkip(t, "IX", 1); ParseSkip(t, "IX", 2); ParseSkip(t, "IX", 3);
    ParseSkip(t, "IX", 4); ParseSkip(t, "IX", 5); ParseSkip(t, "IX", 6); ParseSkip(t, "IX", 7);
    ParseSkip(t, "IX", 8);
    ParseStep(t, "IX", 9);
    ParseSkip(t, "", 9);
  }

  /** The example of numberutils.py:110. */
  lemma ParseNine()
    ensures IsTable(NumeralMap) && Parse(NumeralMap, "IX", 0) == 9
  {
    NumeralMapTable();
    ParseNineWith(NumeralMap);
  }

  lemma ParseSevenWith(t: seq<Entry>)
    requires IsTable(t) && ListsNumeralMap(t)
    ensures Parse(t, "VII", 0) == 7
  {
    ParseEmpty(t, 13);
    ParseSkip(t, "VII", 0); ParseSkip(t, "VII", 1); ParseSkip(t, "VII", 2); ParseSkip(t, "VII", 3);
    ParseSkip(t, "VII", 4); ParseSkip(t, "VII", 5); ParseSkip(t, "VII", 6); ParseSkip(t, "VII", 7);
    ParseSkip(t, "VII", 8); ParseSkip(t, "VII", 9);
    ParseStep(t, "VII", 10);
    assert "VII"[1..] == "II";
    ParseSkip(t, "II", 10); ParseSkip(t, "II", 11);
    ParseStep(t, "II", 12);
    assert "II"[1..] == "I";
    ParseStep(t, "I", 12);
    assert "I"[1..] == "";
  }

  /** The example of numberutils.py:111. */
  lemma ParseSeven()
    ensures IsTable(NumeralMap) && Parse(NumeralMap, "VII", 0) == 7
  {
    NumeralMapTable();
    ParseSevenWith(NumeralMap);
  }

  lemma ParseIgnoresRestWith(t: seq<Entry>)
    requires IsTable(t) && ListsNumeralMap(t)
    ensures Parse(t, "XM", 0) == 10
  {
    ParseSkip(t, "XM", 0); ParseSkip(t, "XM", 1); ParseSkip(t, "XM", 2); ParseSkip(t, "XM", 3);
    ParseSkip(t, "XM", 4); ParseSkip(t, "XM", 5); ParseSkip(t, "XM", 6); ParseSkip(t, "XM", 7);
    ParseStep(t, "XM", 8);
    assert "XM"[1..] == "M";
    ParseSkip(t, "M", 8); ParseSkip(t, "M", 9); ParseSkip(t, "M", 10); ParseSkip(t, "M", 11);
    ParseSkip(t, "M", 12);
  }

  /** numberutils.py:112: reading "XM" stops at the M, which comes after an X. */
  lemma ParseIgnoresRest()
    ensures IsTable(NumeralMap) && Parse(NumeralMap, "XM", 0) == 10
  {
    NumeralMapTable();
    ParseIgnoresRestWith(NumeralMap);
  }

  // ---------------------------------------------------------------------------
  // int_to_text (numberutils.py:24-51)

  predicate IsLetter(c: char)
  {
    'A' <= c <= 'Z' || 'a' <= c <= 'z'
  }

  predicate Letters(s: string)
  {
    forall c :: c in s ==> IsLetter(c)
  }

  /** `_nums[k]`: the names of 0 to 19, the empty word for 0. */
  function NumWord(k: nat): (w: string)
    requires k < 20
    ensures Letters(w)
    ensures w == "" <==> k == 0
    ensures w != "" ==> w[0] != 'Z'
  {
    match k
    case 0 => ""
    case 1 => "One"
    case 2 => "Two"
    case 3 => "Three"
    case 4 => "Four"
    case 5 => "Five"
    case 6 => "Six"
    case 7 => "Seven"
    case 8 => "Eight"
    case 9 => "Nine"
    case 10 => "Ten"
    case 11 => "Eleven"
    case 12 => "Twelve"
    case 13 => "Thirteen"
    case 14 => "Fourteen"
    case 15 => "Fifteen"
    case 16 => "Sixteen"
    case 17 => "Seventeen"
    case 18 => "Eighteen"
    case _ => "Nineteen"
  }

  /** `_tens[k]`: the names of 20, 30, ..., 90. */
  function TensWord(k: nat): (w: string)
    requires k < 8
    ensures Letters(w) && w != "" && w[0] != 'Z'
  {
    match k
    case 0 => "Twenty"
    case 1 => "Thirty"
    case 2 => "Forty"
    case 3 => "Fifty"
    case 4 => "Sixty"
    case 5 => "Seventy"
    case 6 => "Eighty"
    case _ => "Ninety"
  }

  /** `_nums[n]` with Python's indexing: -20 <= n < 0 counts from the end, and
      anything below fails. */
  function NumsAt(n: int): (r: Result<string>)
    requires n < 20
    ensures r.Ok? <==> -20 <= n
    ensures r.Err? ==> r.error == IndexError
    ensures r.Ok? ==> r.value == NumWord(if n >= 0 then n else 20 + n)
  {
    if n >= 0 then Ok(NumWord(n))
    else if n >= -20 then Ok(NumWord(20 + n))
    else Err(IndexError)
  }

  /** The part of int_to_text after the thousands: the hundreds, then a name
      below 20 or a tens word with a unit. */
  function BelowThousand(n: int): (r: Result<string>)
    requires n < 1000
  {
    var hundreds := if n >= 100 then NumWord(n / 100) + "Hundred" else "";
    var n' := if n >= 100 then n % 100 else n;
    var last: Result<string> :=
      if n' < 20 then NumsAt(n')
      else Ok(TensWord(n' / 10 - 2) + NumWord(n' % 10));
    if last.Err? then last else Ok(hundreds + last.value)
  }

  /** int_to_text: the thousands (named recursively) followed by the rest;
      "Zero" when nothing is written. */
  function IntToText(number: int): (r: Result<string>)
    decreases if number < 0 then 0 else number
  {
    var thousands: Result<string> :=
      if number >= 1000 then
        var t := IntToText(number / 1000);
        if t.Err? then t else Ok(t.value + "Thousand")
      else Ok("");
    var rest := BelowThousand(if number >= 1000 then number % 1000 else number);
    if thousands.Err? then thousands
    else if rest.Err? then rest
    else
      var text := thousands.value + rest.value;
      Ok(if text == "" then "Zero" else text)
  }

  lemma ConcatFirst(a: string, b: string)
    ensures a + b == "" <==> a == "" && b == ""
    ensures a != "" ==> (a + b)[0] == a[0]
    ensures a == "" ==> a + b == b
    ensures Letters(a) && Letters(b) ==> Letters(a + b)
  {
    if Letters(a) && Letters(b) {
      forall c | c in a + b ensures IsLetter(c) {
        assert c in a || c in b;
      }
    }
  }

  /** Below a thousand the words are letters only, empty for 0 alone, and never
      start with Z. */
  lemma BelowThousandShape(n: int)
    requires 0 <= n < 1000
    ensures BelowThousand(n).Ok? && Letters(BelowThousand(n).value)
    ensures BelowThousand(n).value == "" <==> n == 0
    ensures BelowThousand(n).value != "" ==> BelowThousand(n).value[0] != 'Z'
  {
    var n' := if n >= 100 then n % 100 else n;
    var hundreds := if n >= 100 then NumWord(n / 100) + "Hundred" else "";
    var last := if n' < 20 then NumWord(n') else TensWord(n' / 10 - 2) + NumWord(n' % 10);
    assert BelowThousand(n) == Ok(hundreds + last);
    assert Letters("Hundred");
    ConcatFirst(hundreds, last);
    if n >= 100 {
      ConcatFirst(NumWord(n / 100), "Hundred");
    }
    if n' >= 20 {
      ConcatFirst(TensWord(n' / 10 - 2), NumWord(n' % 10));
    }
  }

  /** For every number that is not negative the name is letters only, and a
      positive number's name does not start with Z, so it is never "Zero". */
  lemma {:induction false} TextShape(number: int)
    requires number >= 0
    ensures IntToText(number).Ok?
    ensures Letters(IntToText(number).value) && IntToText(number).value != ""
    ensures number == 0 <==> IntToText(number).value == "Zero"
    ensures number > 0 ==> IntToText(number).value[0] != 'Z'
    decreases number
  {
    assert Letters("Zero");
    if number >= 1000 {
      TextShape(number / 1000);
      var t := IntToText(number / 1000).value;
      var w := BelowThousand(number % 1000).value;
      BelowThousandShape(number % 1000);
      assert Letters("Thousand");
      ConcatFirst(t, "Thousand");
      ConcatFirst(t + "Thousand", w);
      assert IntToText(number) == Ok(t + "Thousand" + w);
    } else {
      BelowThousandShape(number);
      var w := BelowThousand(number).value;
      assert "" + w == w;
    }
  }

  lemma TextTwelve()
    ensures IntToText(12) == Ok("Twelve")
  {
    assert NumsAt(12) == Ok("Twelve");
    assert "" + "Twelve" == "Twelve";
    assert BelowThousand(12) == Ok("Twelve");
    assert "" + "Twelve" + "" == "Twelve";
  }

  lemma TextOfRest()
    ensures BelowThousand(323) == Ok(("Three" + "Hundred") + ("Twenty" + "Three"))
  {
    assert 323 / 100 == 3 && 323 % 100 == 23 && 23 / 10 - 2 == 0 && 23 % 10 == 3;
  }

  /** The example of numberutils.py:113, word by word. */
  lemma TextExample()
    ensures IntToText(12323) == Ok("Twelve" + "Thousand" + (("Three" + "Hundred") + ("Twenty" + "Three")))
  {
    TextTwelve();
    TextOfRest();
    assert 12323 / 1000 == 12 && 12323 % 1000 == 323;
  }

  /** int_to_text gives "Zero" exactly for 0 and -20 (where `_nums[-20]` is the
      empty word), fails with IndexError below -20, and gives a non-empty name made
      of letters only for every number that is not negative. */
  lemma IntToTextMeaning(number: int)
    ensures IntToText(number) == Ok("Zero") <==> number == 0 || number == -20
    ensures IntToText(number).Err? <==> number < -20
    ensures IntToText(number).Err? ==> IntToText(number).error == IndexError
    ensures number >= 0 ==> IntToText(number).Ok?
    ensures number >= 0 ==> IntToText(number).value != "" && Letters(IntToText(number).value)
  {
    if number >= 0 {
      TextShape(number);
    } else if number >= -20 {
      var w := NumWord(20 + number);
      assert BelowThousand(number) == Ok("" + w);
      assert "" + w == w;
    }
  }

  // ---------------------------------------------------------------------------
  // int_to_letter (numberutils.py:53-68)

  /** The capitals, Python's `string.ascii_uppercase`. */
  const Uppercase: string := "ABCDEFGHIJKLMNOPQRSTUVWXYZ"

  /** The letters int_to_letter writes for number: a bijective numeration in base
      |chars| whose digit d is written chars[d]. */
  function LetterCode(number: int, chars: string): (r: string)
    requires |chars| > 0
    ensures forall c :: c in r ==> c in chars
    ensures number > 0 <==> r != ""
    decreases if number < 0 then 0 else number
  {
    if number <= 0 then ""
    else
      DivBounds(number - 1, |chars|);
      LetterCode((number - 1) / |chars|, chars) + [chars[(number - 1) % |chars|]]
  }

  /** `"".join(chars[c] for c in reversed(result))`. */
  function Spell(digits: seq<nat>, chars: string): (r: string)
    requires forall k :: 0 <= k < |digits| ==> digits[k] < |chars|
    ensures |r| == |digits|
    ensures forall k :: 0 <= k < |digits| ==> r[k] == chars[digits[|digits| - 1 - k]]
  {
    if digits == [] then ""
    else
      var last := |digits| - 1;
      [chars[digits[last]]] + Spell(digits[..last], chars)
  }

  /** int_to_letter: ZeroDivisionError for an empty alphabet when there is a digit
      to write, otherwise the letters of LetterCode. */
  method IntToLetter(number: int, chars: string) returns (r: Result<string>)
    ensures r.Err? <==> number > 0 && chars == []
    ensures r.Err? ==> r.error == ZeroDivision
    ensures r.Ok? && chars != [] ==> r.value == LetterCode(number, chars)
    ensures r.Ok? && chars == [] ==> r.value == ""
  {
    var mod := |chars|;
    var result: seq<nat> := [];
    var n := number;
    if n > 0 && mod == 0 {
      return Err(ZeroDivision);
    }
    while n > 0
      invariant mod > 0 || n <= 0
      invariant forall k :: 0 <= k < |result| ==> result[k] < mod
      invariant mod > 0 ==> LetterCode(number, chars) == LetterCode(n, chars) + Spell(result, chars)
      decreases n
    {
      var c := (n - 1) % mod;
      assert Spell(result + [c], chars) == [chars[c]] + Spell(result, chars) by {
        assert (result + [c])[..|result|] == result;
      }
      DivBounds(n - 1, mod);
      n := (n - 1) / mod;
      result := result + [c];
    }
    r := Ok(Spell(result, chars));
  }

  /** The value of a bijective numeral written with digits 0 .. base-1 for 1 .. base,
      most significant first. */
  function LetterValue(s: string, chars: string): int
    requires forall c :: c in s ==> c in chars
  {
    if s == [] then 0
    else
      var last := s[|s| - 1];
      LetterValue(s[..|s| - 1], chars) * |chars| + IndexOf(chars, last) + 1
  }

  /** The first position of c in chars. */
  function IndexOf(chars: string, c: char): (k: nat)
    requires c in chars
    ensures k < |chars| && chars[k] == c
  {
    if chars[0] == c then 0 else 1 + IndexOf(chars[1..], c)
  }

  /** In an alphabet with no repeated character, a character's first position is
      its only one. */
  lemma {:induction false} IndexOfDistinct(chars: string, d: nat)
    requires d < |chars| && forall i, j :: 0 <= i < j < |chars| ==> chars[i] != chars[j]
    ensures IndexOf(chars, chars[d]) == d
  {
    if d > 0 {
      assert chars[0] != chars[d];
      assert chars[1..][d - 1] == chars[d];
      IndexOfDistinct(chars[1..], d - 1);
    }
  }

  /** A letter code reads back as its number when the alphabet has no repeated
      character. */
  lemma {:induction false} LetterRoundTrip(number: int, chars: string)
    requires |chars| > 0 && forall i, j :: 0 <= i < j < |chars| ==> chars[i] != chars[j]
    requires number >= 0
    ensures LetterValue(LetterCode(number, chars), chars) == number
    decreases number
  {
    if number > 0 {
      var m := |chars|;
      var x := number - 1;
      var q, d := x / m, x % m;
      assert x == q * m + d;
      DivBounds(x, m);
      var t := LetterCode(q, chars);
      var s := t + [chars[d]];
      assert LetterCode(number, chars) == s;
      LetterRoundTrip(q, chars);
      assert s[..|s| - 1] == t;
      IndexOfDistinct(chars, d);
      assert LetterValue(s, chars) == LetterValue(t, chars) * m + d + 1;
    }
  }

  /** One digit of a letter code, for a quotient and remainder given outright. */
  lemma LetterStep(number: int, chars: string, q: int, d: int)
    requires |chars| > 0 && 0 <= d < |chars| && q >= 0
    requires number - 1 == q * |chars| + d
    ensures LetterCode(number, chars) == LetterCode(q, chars) + [chars[d]]
  {
    DivModUnique(number - 1, |chars|, q, d);
  }

  /** Examples of the docstring and numberutils.py:114 (28 is "AB"). */
  lemma LetterExamples()
    ensures LetterCode(0, Uppercase) == ""
    ensures LetterCode(1, Uppercase) == "A"
    ensures LetterCode(26, Uppercase) == "Z"
    ensures LetterCode(27, Uppercase) == "AA"
    ensures LetterCode(28, Uppercase) == "AB"
  {
    LetterStep(1, Uppercase, 0, 0);
    LetterStep(26, Uppercase, 0, 25);
    LetterStep(27, Uppercase, 1, 0);
    LetterStep(28, Uppercase, 1, 1);
  }

  // ---------------------------------------------------------------------------
  // starts_with_one_of, is_valid_music_numeral, split_roman_prefix (numberutils.py:70-104)

  /** starts_with_one_of: true as soon as an entry is a prefix of s. */
  function StartsWithOneOf(s: string, entries: seq<string>): (b: bool)
    ensures b <==> exists j :: 0 <= j < |entries| && StartsWith(s, entries[j])
  {
    if entries == [] then false
    else if StartsWith(s, entries[0]) then true
    else
      var b := StartsWithOneOf(s, entries[1..]);
      assert forall j :: 1 <= j < |entries| ==> entries[j] == entries[1..][j - 1];
      b
  }

  const MusicNumerals: seq<string> := ["I", "II", "III", "IV", "V", "VI", "VII", "VIII"]

  predicate IsValidMusicNumeral(s: string)
  {
    s in MusicNumerals
  }

  /** starts_with_one_of on a list of two. */
  lemma StartsWithOneOfTwo(s: string, x: string, y: string)
    ensures StartsWithOneOf(s, [x, y]) <==> StartsWith(s, x) || StartsWith(s, y)
  {
    assert [x, y][0] == x && [x, y][1] == y;
  }

  /** The accidental read after the numeral: a double one before a single one,
      and nothing when neither is there. */
  function AccidentalOf(suffix: string): (a: string)
    ensures StartsWith(suffix, a) && |a| <= 2
    ensures |a| == 2 <==> StartsWith(suffix, "bb") || StartsWith(suffix, "##")
    ensures |a| == 1 <==>
      !(StartsWith(suffix, "bb") || StartsWith(suffix, "##")) &&
      (StartsWith(suffix, "b") || StartsWith(suffix, "#"))
  {
    StartsWithOneOfTwo(suffix, "bb", "##");
    StartsWithOneOfTwo(suffix, "b", "#");
    if StartsWithOneOf(suffix, ["bb", "##"]) then suffix[..2]
    else if StartsWithOneOf(suffix, ["b", "#"]) then suffix[..1]
    else ""
  }

  datatype Split = Split(numeral: string, accidental: string, rest: string)

  /** Cutting s after the numeral and after the accidental that starts the rest. */
  lemma SplitAt(s: string, i: nat, a: string)
    requires i <= |s| && StartsWith(s[i..], a)
    ensures s[..i] + a + s[i..][|a|..] == s
  {
    assert s[i..] == a + s[i..][|a|..];
    assert s == s[..i] + s[i..];
  }

  /** The loop of split_roman_prefix from prefix length i down to 1, for the list
      of numerals it accepts: the numeral found, the accidental after it and what
      follows that. */
  function SplitFrom(s: string, i: nat, numerals: seq<string>): (r: Option<Split>)
    requires i <= |s|
    ensures r.Some? ==> 1 <= |r.value.numeral| <= i && r.value.numeral == s[..|r.value.numeral|]
    ensures r.Some? ==> r.value.numeral in numerals
    ensures r.Some? ==> r.value.accidental == AccidentalOf(s[|r.value.numeral|..])
    ensures r.Some? ==> r.value.numeral + r.value.accidental + r.value.rest == s
  {
    if i == 0 then None
    else if s[..i] in numerals then
      var accidental := AccidentalOf(s[i..]);
      SplitAt(s, i, accidental);
      Some(Split(s[..i], accidental, s[i..][|accidental|..]))
    else SplitFrom(s, i - 1, numerals)
  }

  /** The loop finds nothing exactly when no prefix of length 1 .. i is a numeral,
      and what it finds is the longest such prefix. */
  lemma {:induction false} SplitFromLongest(s: string, i: nat, numerals: seq<string>)
    requires i <= |s|
    ensures SplitFrom(s, i, numerals).None? <==> forall j :: 1 <= j <= i ==> s[..j] !in numerals
    ensures SplitFrom(s, i, numerals).Some? ==>
      forall j :: |SplitFrom(s, i, numerals).value.numeral| < j <= i ==> s[..j] !in numerals
  {
    if i > 0 && s[..i] !in numerals {
      SplitFromLongest(s, i - 1, numerals);
    }
  }

  /** split_roman_prefix: the longest prefix that is one of I .. VIII, the accidental
      after it and the rest; None (the source's `(None, None, None)`) when no
      prefix is a numeral. */
  function SplitRomanPrefix(s: string): (r: Option<Split>)
    ensures r.None? <==> forall j :: 1 <= j <= |s| ==> !IsValidMusicNumeral(s[..j])
    ensures r.Some? ==> r.value.numeral + r.value.accidental + r.value.rest == s
    ensures r.Some? ==> IsValidMusicNumeral(r.value.numeral)
    ensures r.Some? ==> forall j :: |r.value.numeral| < j <= |s| ==> !IsValidMusicNumeral(s[..j])
    ensures r.Some? ==> r.value.accidental == AccidentalOf(s[|r.value.numeral|..])
  {
    SplitFromLongest(s, |s|, MusicNumerals);
    SplitFrom(s, |s|, MusicNumerals)
  }

  /** One step of the loop past a prefix that is not a numeral. */
  lemma SplitSkip(s: string, i: nat, numerals: seq<string>)
    requires 0 < i <= |s| && s[..i] !in numerals
    ensures SplitFrom(s, i, numerals) == SplitFrom(s, i - 1, numerals)
  {
  }

  /** The loop stops at a prefix that is a numeral. */
  lemma SplitHit(s: string, i: nat, numerals: seq<string>, a: string)
    requires 0 < i <= |s| && s[..i] in numerals && a == AccidentalOf(s[i..])
    ensures SplitFrom(s, i, numerals) == Some(Split(s[..i], a, s[i + |a|..]))
  {
    assert s[i..][|a|..] == s[i + |a|..];
  }

  /** A string holding a character other than I and V is not a music numeral. */
  lemma NotNumeral(s: string, k: nat)
    requires k < |s| && s[k] != 'I' && s[k] != 'V'
    ensures !IsValidMusicNumeral(s)
  {
    forall j | 0 <= j < |MusicNumerals|
      ensures forall c :: c in MusicNumerals[j] ==> c == 'I' || c == 'V'
    {
    }
    assert s[k] in s;
  }

  /** The example of numberutils.py:115: the longest numeral of "IVm" is IV. */
  lemma SplitIVm()
    ensures SplitRomanPrefix("IVm") == Some(Split("IV", "", "m"))
  {
    var s := "IVm";
    assert MusicNumerals[3] == "IV";
    NotNumeral(s[..3], 2);
    SplitSkip(s, 3, MusicNumerals);
    assert s[..2] == "IV" && s[2..] == "m";
    SplitHit(s, 2, MusicNumerals, "");
  }

  /** The example of numberutils.py:116: a bare numeral. */
  lemma SplitIV()
    ensures SplitRomanPrefix("IV") == Some(Split("IV", "", ""))
  {
    var s := "IV";
    assert MusicNumerals[3] == "IV";
    assert s[..2] == "IV" && s[2..] == "";
    SplitHit(s, 2, MusicNumerals, "");
  }

  /** A flat before the quality: the accidental of "bm7" is "b". */
  lemma FlatOfbm7()
    ensures AccidentalOf("bm7") == "b"
  {
    assert "bm7"[..1] == "b" && "bm7"[..2] == "bm";
    assert "bm"[1] != "bb"[1] && "bm"[0] != "##"[0];
  }

  /** Of "VIbm7", no prefix longer than "VI" is a numeral. */
  lemma SkipToVI()
    ensures SplitFrom("VIbm7", 5, MusicNumerals) == SplitFrom("VIbm7", 2, MusicNumerals)
  {
    var s := "VIbm7";
    NotNumeral(s[..5], 2);
    NotNumeral(s[..4], 2);
    NotNumeral(s[..3], 2);
    SplitSkip(s, 5, MusicNumerals);
    SplitSkip(s, 4, MusicNumerals);
    SplitSkip(s, 3, MusicNumerals);
  }

  /** The example of the docstring of split_roman_prefix: VI, a flat, then m7. */
  lemma SplitVIbm7()
    ensures SplitRomanPrefix("VIbm7") == Some(Split("VI", "b", "m7"))
  {
    var s := "VIbm7";
    assert MusicNumerals[5] == "VI";
    SkipToVI();
    assert s[..2] == "VI" && s[2..] == "bm7" && s[3..] == "m7";
    FlatOfbm7();
    SplitHit(s, 2, MusicNumerals, "b");
  }

  /** A name with no numeral at its start splits into nothing. */
  lemma SplitNone()
    ensures SplitRomanPrefix("m7") == None
  {
    NotNumeral("m7"[..2], 0);
    NotNumeral("m7"[..1], 0);
  }
}
