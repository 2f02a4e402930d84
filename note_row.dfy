/** NoteRow: one row of an Etterna chart, one note per column.

    Notes and rows are values here; the timing pass (EtternaNoteInfo)
    rewrites them by reassigning the chart's sequence of measures. */
module NoteRows {
  import opened Wrappers
  import opened NoteTypes
  import opened Vsrg

  /** A note: its times (null until timed), its start and end kinds (equal
      until a hold is paired) and its column. */
  datatype Note = Note(startTime: Option<real>, endTime: Option<real>,
                       startNote: NoteType, endNote: NoteType, column: int)

  /** new Note(type) followed by setColumn(column). */
  function NewNote(t: NoteType, column: int): Note {
    Note(None, None, t, t, column)
  }

  /** A row: its notes and the BPM the timing pass assigns to it. */
  datatype NoteRow = NoteRow(notes: seq<Note>, bpm: Option<Bpm>)

  // ---------------------------------------------------------------------
  // NOTE_MAPPING: four-column x/- patterns to their bitmask
  // ---------------------------------------------------------------------

  /** The keys list of the static initialiser, in order. */
  const Keys: seq<string> := [
    "----", "x---", "-x--", "xx--", "--x-", "x-x-", "-xx-",
    "xxx-", "---x", "x--x", "-x-x", "xx-x", "--xx", "x-xx",
    "-xxx", "xxxx"
  ]

  /** The sum of 2^c over the columns c that hold an 'x'. */
  function PatternMask(p: string): nat {
    if p == [] then 0 else (if p[0] == 'x' then 1 else 0) + 2 * PatternMask(p[1..])
  }

  /** A four-column pattern of 'x' and '-'. */
  predicate IsPattern(p: string) {
    |p| == 4 && forall i :: 0 <= i < 4 ==> p[i] == 'x' || p[i] == '-'
  }

  /** The pattern whose mask is b: column c holds 'x' iff bit c of b is set. */
  function MaskPattern(b: nat): (p: string)
    requires b < 16
    ensures IsPattern(p)
  {
    seq(4, c requires 0 <= c < 4 => if (b / [1, 2, 4, 8][c]) % 2 == 1 then 'x' else '-')
  }

  function Bit(c: char): nat { if c == 'x' then 1 else 0 }

  lemma PatternMaskOfFour(p: string)
    requires |p| == 4
    ensures PatternMask(p) == Bit(p[0]) + 2 * Bit(p[1]) + 4 * Bit(p[2]) + 8 * Bit(p[3])
  {
    var p1 := p[1..];
    var p2 := p1[1..];
    var p3 := p2[1..];
    assert p1[0] == p[1] && p2[0] == p[2] && p3[0] == p[3];
    assert p3[1..] == [];
    assert PatternMask(p3) == Bit(p[3]);
  }

  /** The keys list enumerates the patterns in mask order. */
  lemma KeysAreMaskPatterns(i: nat)
    requires i < 16
    ensures Keys[i] == MaskPattern(i)
  {
    var k := Keys[i];
    assert IsPattern(k);
    PatternMaskOfFour(k);
    assert PatternMask(k) == i;
    PatternMaskRoundTrip(k);
  }

  /** Masks and patterns are inverse: NOTE_MAPPING is a bijection between
      the sixteen four-column patterns and 0..15. */
  lemma MaskPatternRoundTrip(b: nat)
    requires b < 16
    ensures PatternMask(MaskPattern(b)) == b
  {
    PatternMaskOfFour(MaskPattern(b));
  }

  lemma PatternMaskRoundTrip(p: string)
    requires IsPattern(p)
    ensures PatternMask(p) < 16
    ensures MaskPattern(PatternMask(p)) == p
  {
    PatternMaskOfFour(p);
    var m := PatternMask(p);
    MaskBits(Bit(p[0]), Bit(p[1]), Bit(p[2]), Bit(p[3]), m);
    var q := MaskPattern(m);
    SamePattern(p, q, m);
  }

  /** The four bits of a mask built from four bits. */
  lemma MaskBits(b0: nat, b1: nat, b2: nat, b3: nat, m: nat)
    requires b0 <= 1 && b1 <= 1 && b2 <= 1 && b3 <= 1
    requires m == b0 + 2 * b1 + 4 * b2 + 8 * b3
    ensures m < 16
    ensures (m / [1, 2, 4, 8][0]) % 2 == b0 && (m / [1, 2, 4, 8][1]) % 2 == b1
    ensures (m / [1, 2, 4, 8][2]) % 2 == b2 && (m / [1, 2, 4, 8][3]) % 2 == b3
  {
    assert m / 2 == b1 + 2 * b2 + 4 * b3;
    assert m / 4 == b2 + 2 * b3;
    assert m / 8 == b3;
  }

  lemma SamePattern(p: string, q: string, m: nat)
    requires IsPattern(p) && m < 16 && q == MaskPattern(m)
    requires (m / [1, 2, 4, 8][0]) % 2 == Bit(p[0]) && (m / [1, 2, 4, 8][1]) % 2 == Bit(p[1])
    requires (m / [1, 2, 4, 8][2]) % 2 == Bit(p[2]) && (m / [1, 2, 4, 8][3]) % 2 == Bit(p[3])
    ensures q == p
  {
    forall c | 0 <= c < 4 ensures q[c] == p[c] {
    }
  }

  /** NOTE_MAPPING after the first i puts of the static initialiser. */
  function TableAfter(i: nat): map<string, int>
    requires i <= |Keys|
  {
    if i == 0 then map[] else TableAfter(i - 1)[Keys[i - 1] := i - 1]
  }

  /** NOTE_MAPPING once the static initialiser has run. */
  function NoteMappingTable(): map<string, int> {
    TableAfter(|Keys|)
  }

  /** The static initialiser: put(keys[i], i) for each i in order. */
  method BuildNoteMapping() returns (m: map<string, int>)
    ensures forall p :: p in m <==> IsPattern(p)
    ensures forall p :: p in m ==> m[p] == PatternMask(p)
  {
    m := map[];
    var i := 0;
    while i < |Keys|
      invariant 0 <= i <= |Keys|
      invariant m == TableAfter(i)
    {
      m := m[Keys[i] := i];
      i := i + 1;
    }
    forall p ensures (p in m <==> IsPattern(p)) && (p in m ==> m[p] == PatternMask(p)) {
      NoteMappingTableIsMask(p);
    }
  }

  lemma {:induction false} TableAfterIsMask(i: nat, p: string)
    requires i <= |Keys|
    ensures p in TableAfter(i) <==> IsPattern(p) && PatternMask(p) < i
    ensures p in TableAfter(i) ==> TableAfter(i)[p] == PatternMask(p)
  {
    if i > 0 {
      var k := Keys[i - 1];
      TableAfterIsMask(i - 1, p);
      assert IsPattern(k) && PatternMask(k) == i - 1 by {
        KeysAreMaskPatterns(i - 1);
        MaskPatternRoundTrip(i - 1);
      }
      assert TableAfter(i) == TableAfter(i - 1)[k := i - 1];
      if p != k && IsPattern(p) && PatternMask(p) == i - 1 {
        KeysAreMaskPatterns(i - 1);
        PatternMaskRoundTrip(p);
        assert false;
      }
    }
  }

  /** NOTE_MAPPING holds exactly the four-column patterns, each mapped to
      the sum of 2^c over its 'x' columns. */
  lemma NoteMappingTableIsMask(p: string)
    ensures p in NoteMappingTable() <==> IsPattern(p)
    ensures p in NoteMappingTable() ==> NoteMappingTable()[p] == PatternMask(p)
  {
    TableAfterIsMask(|Keys|, p);
    if IsPattern(p) {
      PatternMaskRoundTrip(p);
    }
  }

  // ---------------------------------------------------------------------
  // Loading a row from text
  // ---------------------------------------------------------------------

  /** What loadFromStr yields: IllegalStateException for an unreserved
      character, and again (from the constructor) for an empty row;
      otherwise one fresh note per character, its column its index. */
  function ParseRow(raw: string): Result<NoteRow> {
    if !IsOnlyReserved(raw) || |raw| == 0 then Err(IllegalStateException)
    else Ok(NoteRow(seq(|raw|, i requires 0 <= i < |raw| => NewNote(CharType(raw[i]), i)), None))
  }

  /** NoteRow.loadFromStr: check the characters, then build one note per
      character with `of` and set its column. */
  method LoadFromStr(raw: string) returns (r: Result<NoteRow>)
    ensures r == ParseRow(raw)
  {
    if !IsOnlyReserved(raw) {
      return Err(IllegalStateException);
    }
    var notes: seq<Note> := [];
    var index := 0;
    while index < |raw|
      invariant 0 <= index <= |raw|
      invariant |notes| == index
      invariant forall i :: 0 <= i < index ==> notes[i] == NewNote(CharType(raw[i]), i)
    {
      var t := Of([raw[index]]);
      TypeOfChar(raw[index]);
      notes := notes + [NewNote(t.value, index)];
      index := index + 1;
    }
    if |notes| == 0 {
      return Err(IllegalStateException);
    }
    assert notes == seq(|raw|, i requires 0 <= i < |raw| => NewNote(CharType(raw[i]), i));
    r := Ok(NoteRow(notes, None));
  }

  /** The row's text: each note's identity character. */
  function RowString(row: NoteRow): (s: string)
    ensures |s| == |row.notes|
  {
    seq(|row.notes|, i requires 0 <= i < |row.notes| => row.notes[i].startNote.IdentityChar())
  }

  /** A freshly loaded row, untimed, with each note in its own column. */
  predicate IsFreshRow(row: NoteRow) {
    |row.notes| >= 1 && row.bpm.None? &&
    forall i :: 0 <= i < |row.notes| ==> row.notes[i] == NewNote(row.notes[i].startNote, i)
  }

  /** Printing a fresh row and loading the text gives the same row back. */
  lemma ParseRowString(row: NoteRow)
    requires IsFreshRow(row)
    ensures ParseRow(RowString(row)) == Ok(row)
  {
    var s := RowString(row);
    forall i | 0 <= i < |s|
      ensures IsReserved(s[i]) && CharType(s[i]) == row.notes[i].startNote
    {
      TypeOfIdentityChar(row.notes[i].startNote);
      TypeOfChar(s[i]);
    }
    assert ParseRow(s).value.notes == row.notes;
  }

  /** A loaded row has one note per character, in column order, and the
      characters of its text are the kinds `of` gives. */
  lemma ParseRowShape(raw: string)
    requires ParseRow(raw).Ok?
    ensures IsFreshRow(ParseRow(raw).value)
    ensures |ParseRow(raw).value.notes| == |raw|
    ensures forall i :: 0 <= i < |raw| ==> TypeOf([raw[i]]) == Ok(ParseRow(raw).value.notes[i].startNote)
  {
    forall i | 0 <= i < |raw| ensures TypeOf([raw[i]]) == Ok(CharType(raw[i])) {
      TypeOfChar(raw[i]);
    }
  }

  // ---------------------------------------------------------------------
  // Read-only scans
  // ---------------------------------------------------------------------

  /** NoteRow.isEmpty: false at the first note whose start kind is TAP,
      HOLD_HEAD, FAKE, MINE, AUTO_KEY_SOUND or LIFT; true otherwise. So a
      row is empty exactly when every note is EMPTY or HOLD_TAIL (not, as
      its comment says, "Hold Head, or Empty"). */
  method IsEmpty(row: NoteRow) returns (empty: bool)
    ensures empty <==> forall i :: 0 <= i < |row.notes| ==> row.notes[i].startNote in {EMPTY, HOLD_TAIL}
  {
    var i := 0;
    while i < |row.notes|
      invariant 0 <= i <= |row.notes|
      invariant forall j :: 0 <= j < i ==> row.notes[j].startNote in {EMPTY, HOLD_TAIL}
    {
      match row.notes[i].startNote
      case TAP => return false;
      case HOLD_HEAD => return false;
      case FAKE => return false;
      case MINE => return false;
      case AUTO_KEY_SOUND => return false;
      case LIFT => return false;
      case _ =>
      i := i + 1;
    }
    return true;
  }

  /** A lone hold head is not an empty row and a lone hold tail is, which
      is the reverse of what the comment on isEmpty says. */
  method IsEmptyOnHolds() returns (headEmpty: bool, tailEmpty: bool)
    ensures !headEmpty && tailEmpty
  {
    var head := NoteRow([NewNote(HOLD_HEAD, 0)], None);
    headEmpty := IsEmpty(head);
    assert head.notes[0].startNote == HOLD_HEAD;
    tailEmpty := IsEmpty(NoteRow([NewNote(HOLD_TAIL, 0)], None));
  }

  /** The x/- pattern getNoteMapping builds for a row, given which kinds
      the engine assesses. */
  function RowPattern(notes: seq<Note>, assessed: NoteType -> bool): (p: string)
    ensures |p| == |notes|
  {
    seq(|notes|, i requires 0 <= i < |notes| => if assessed(notes[i].startNote) then 'x' else '-')
  }

  /** The bitmask of the assessed columns: the sum of 2^c over them. */
  function AssessedMask(notes: seq<Note>, assessed: NoteType -> bool): nat {
    if notes == [] then 0
    else (if assessed(notes[0].startNote) then 1 else 0) + 2 * AssessedMask(notes[1..], assessed)
  }

  lemma {:induction false} RowPatternMask(notes: seq<Note>, assessed: NoteType -> bool)
    ensures PatternMask(RowPattern(notes, assessed)) == AssessedMask(notes, assessed)
    decreases |notes|
  {
    if notes != [] {
      assert RowPattern(notes, assessed)[1..] == RowPattern(notes[1..], assessed);
      RowPatternMask(notes[1..], assessed);
    }
  }

  /** NoteRow.getNoteMapping: build the x/- pattern and look it up in
      NOTE_MAPPING. The lookup gives null for a row that is not four
      columns wide, and unboxing null raises NullPointerException.
      Which kinds the engine assesses (NoteType.isMinaAssessedNote) is a
      parameter: that method is not part of this model. */
  method NoteMapping(row: NoteRow, assessed: NoteType -> bool) returns (r: Result<int>)
    ensures r.Ok? <==> |row.notes| == 4
    ensures r.Ok? ==> r.value == AssessedMask(row.notes, assessed) && 0 <= r.value < 16
  {
    var table := BuildNoteMapping();
    var sb: string := "";
    var i := 0;
    while i < |row.notes|
      invariant 0 <= i <= |row.notes|
      invariant sb == RowPattern(row.notes[..i], assessed)
    {
      sb := sb + [if assessed(row.notes[i].startNote) then 'x' else '-'];
      i := i + 1;
    }
    assert row.notes[..i] == row.notes;
    NoteMappingTableIsMask(sb);
    if sb in table {
      RowPatternMask(row.notes, assessed);
      PatternMaskRoundTrip(sb);
      r := Ok(table[sb]);
    } else {
      r := Err(NullPointerException);
    }
  }
}
