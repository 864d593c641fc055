/**
 * `Scale` helpers of the Treequencer (src/treequencer.cpp:121-143): note names, the offset of a
 * note within a scale, and transposition. The scale table at lines 146-154 is `Scales`.
 */
module Scale {
  import opened CArith
  import opened Decimal

  datatype Scale = Scale(name: string, notes: seq<int>)

  const NoteNames: seq<string> := ["C", "C#", "D", "D#", "E", "F", "F#", "G", "G#", "A", "A#", "B"]

  /** The built-in scales, all starting at C. */
  const Scales: seq<Scale> := [
    Scale("Chromatic", [0, 1, 2, 3, 4, 5, 6, 7, 8, 9, 10, 11]),
    Scale("Major", [0, 2, 4, 5, 7, 9, 11]),
    Scale("Minor", [0, 2, 3, 5, 7, 8, 10]),
    Scale("Pentatonic", [0, 2, 5, 7, 10]),
    Scale("Blues", [0, 3, 5, 6, 7, 10]),
    Scale("Dorian", [0, 2, 3, 5, 7, 9, 10]),
    Scale("Mixolydian", [0, 2, 4, 5, 7, 9, 10])
  ]

  // ---------------------------------------------------------------------------------------------
  // getNoteString

  /** `getNoteString` as written: name `abs(note % 12)` and octave `note / 12 + 1`, both truncating. */
  function GetNoteStringAsWritten(note: int, withOctave: bool): (s: string)
    ensures !withOctave ==> s == NoteNames[Abs(TruncMod(note, 12))]
  {
    var name := NoteNames[Abs(TruncMod(note, 12))];
    if withOctave then name + IntToString(TruncDiv(note, 12) + 1) else name
  }

  /**
   * `getNoteString` with the pitch class and octave taken by flooring, so that a negative note
   * (output -1 is the B below C) is named by its own pitch class instead of its mirror image.
   */
  function GetNoteString(note: int, withOctave: bool): (s: string)
    ensures !withOctave ==> s == NoteNames[note % 12]
    ensures note >= 0 ==> s == GetNoteStringAsWritten(note, withOctave)
  {
    var name := NoteNames[note % 12];
    if withOctave then name + IntToString(note / 12 + 1) else name
  }

  /** The pitch class a note name stands for: a letter, plus one for a trailing '#'. */
  function NameIndex(name: string): int
  {
    if name == [] then -1
    else
      var base := match name[0]
        case 'C' => 0 case 'D' => 2 case 'E' => 4 case 'F' => 5
        case 'G' => 7 case 'A' => 9 case 'B' => 11 case _ => -1;
      if |name| >= 2 && name[1] == '#' then base + 1 else base
  }

  /** Reads a note back from its name and octave, as `getNoteString(note, true)` prints them. */
  function DecodeNoteString(s: string): int
  {
    var nameLen := if |s| >= 2 && s[1] == '#' then 2 else 1;
    if |s| < nameLen then 0
    else 12 * (ParseInt(s[nameLen..]) - 1) + NameIndex(s[..nameLen])
  }

  lemma NameIndexOfNoteName(k: nat)
    requires k < 12
    ensures 1 <= |NoteNames[k]| <= 2
    ensures |NoteNames[k]| == 2 ==> NoteNames[k][1] == '#'
    ensures NameIndex(NoteNames[k]) == k
  {
    if k < 4 {
      assert k == 0 || k == 1 || k == 2 || k == 3;
    } else if k < 8 {
      assert k == 4 || k == 5 || k == 6 || k == 7;
    } else {
      assert k == 8 || k == 9 || k == 10 || k == 11;
    }
  }

  /** Round trip: every note, negative ones included, can be read back from its name and octave. */
  lemma NoteStringRoundTrip(note: int)
    ensures DecodeNoteString(GetNoteString(note, true)) == note
  {
    var k, o := note % 12, note / 12 + 1;
    var name, digits := NoteNames[k], IntToString(o);
    var s := GetNoteString(note, true);
    assert s == name + digits;
    NameIndexOfNoteName(k);
    ParseIntToString(o);
    assert s[..|name|] == name && s[|name|..] == digits;
    assert |name| == 1 ==> s[1] == digits[0];
  }

  /** Hence different notes get different names. */
  lemma NoteStringInjective(a: int, b: int)
    requires GetNoteString(a, true) == GetNoteString(b, true)
    ensures a == b
  {
    NoteStringRoundTrip(a);
    NoteStringRoundTrip(b);
  }

  /**
   * As written, note -1 (the lowest output a node draws) is named "C#" like note 1, and with the
   * octave "C#1" like note 1, although it sounds the B below C.
   */
  lemma AsWrittenMirrorsNegativeNotes()
    ensures GetNoteStringAsWritten(-1, false) == GetNoteStringAsWritten(1, false) == "C#"
    ensures GetNoteStringAsWritten(-1, true) == GetNoteStringAsWritten(1, true) == "C#1"
    ensures GetNoteString(-1, false) == "B" && GetNoteString(-1, true) == "B0"
  {
    assert IntToString(1) == "1" by { assert NatToString(1) == [DigitChar(1)]; }
    assert IntToString(0) == "0" by { assert NatToString(0) == [DigitChar(0)]; }
  }

  // ---------------------------------------------------------------------------------------------
  // toOffset

  /** The first index holding `x`, or -1. */
  function FirstIndexOf(xs: seq<int>, x: int): (i: int)
    ensures -1 <= i < |xs|
    ensures i >= 0 ==> xs[i] == x && forall j :: 0 <= j < i ==> xs[j] != x
    ensures i == -1 <==> x !in xs
  {
    if xs == [] then -1
    else if xs[0] == x then 0
    else
      var i := FirstIndexOf(xs[1..], x);
      assert forall j :: 1 <= j < |xs| ==> xs[j] == xs[1..][j - 1];
      assert x in xs[1..] ==> x in xs;
      if i == -1 then -1 else i + 1
  }

  /**
   * `toOffset`: the position in the scale of the note's pitch class (taken as `abs(note % size)`)
   * times the note's octave count `note / size`; 0 when the pitch class is not in the scale or the
   * scale is empty.
   */
  method ToOffset(sc: Scale, note: int) returns (offset: int)
    ensures sc.notes == [] ==> offset == 0
    ensures sc.notes != [] ==>
      var n := |sc.notes|;
      var i := FirstIndexOf(sc.notes, Abs(TruncMod(note, n)));
      offset == if i == -1 then 0 else i * TruncDiv(note, n)
  {
    var i := 0;
    while i < |sc.notes|
      invariant 0 <= i <= |sc.notes|
      invariant forall j :: 0 <= j < i ==> sc.notes[j] != Abs(TruncMod(note, |sc.notes|))
    {
      if sc.notes[i] == Abs(TruncMod(note, |sc.notes|)) {
        return i * TruncDiv(note, |sc.notes|);
      }
      i := i + 1;
    }
    return 0;
  }

  // ---------------------------------------------------------------------------------------------
  // getTransposedBy

  /** The scale's notes moved by `k` semitones. */
  function Shift(notes: seq<int>, k: int): (r: seq<int>)
    ensures |r| == |notes| && forall i :: 0 <= i < |notes| ==> r[i] == notes[i] + k
  {
    seq(|notes|, i requires 0 <= i < |notes| => notes[i] + k)
  }

  /**
   * `getTransposedBy`: named after the new root note (with the note name of `GetNoteString`), every
   * note moved by `note` semitones.
   */
  method GetTransposedBy(sc: Scale, note: int) returns (r: Scale)
    ensures r.name == GetNoteString(note, false) + " " + sc.name
    ensures r.notes == Shift(sc.notes, note)
  {
    var notes: seq<int> := [];
    var i := 0;
    while i < |sc.notes|
      invariant 0 <= i <= |sc.notes|
      invariant notes == Shift(sc.notes[..i], note)
    {
      notes := notes + [sc.notes[i] + note];
      i := i + 1;
    }
    assert sc.notes[..i] == sc.notes;
    r := Scale(GetNoteString(note, false) + " " + sc.name, notes);
  }

  /** Transposing back undoes a transposition, and transposition keeps every interval of the scale. */
  lemma ShiftInverse(notes: seq<int>, k: int)
    ensures Shift(Shift(notes, k), -k) == notes
    ensures forall i, j :: 0 <= i < |notes| && 0 <= j < |notes| ==>
      Shift(notes, k)[i] - Shift(notes, k)[j] == notes[i] - notes[j]
  {
  }
}
