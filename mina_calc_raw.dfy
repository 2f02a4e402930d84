/** MinaCalc.RawNotes, the Java side of the scoring bridge: the two
    parallel arrays the engine reads, one entry per row whose assessed
    columns are not all empty, holding the row's bitmask and the time at
    which the row starts.

    The time walk uses its own TimingSequence, advanced once per row with
    the size of the row's measure and the row's BPM. The conversion of
    the times to float is not modelled (times stay exact). */
module MinaCalcRaw {
  import opened Wrappers
  import opened NoteTypes
  import opened NoteRows
  import opened NoteMeasures
  import opened Vsrg

  /** The notes and times arrays, as values. */
  datatype RawNotes = RawNotes(notes: seq<int>, times: seq<real>)

  predicate NonDecreasing(ts: seq<real>) {
    forall i, j :: 0 <= i < j < |ts| ==> ts[i] <= ts[j]
  }

  /** The bitmasks of the rows from visit i on whose mask is not zero, in
      row order. */
  function NonZeroMasks(vs: seq<Visit>, i: nat, assessed: NoteType -> bool): seq<int>
    requires i <= |vs|
    decreases |vs| - i
  {
    if i == |vs| then []
    else
      var n := AssessedMask(vs[i].row.notes, assessed);
      (if n != 0 then [n as int] else []) + NonZeroMasks(vs, i + 1, assessed)
  }

  /** The walk of the RawNotes constructor from visit i on, with `ns` and
      `ts` collected so far and the sequence at `s`. A row that is not
      four columns wide has no mapping (the lookup yields null and the
      unboxing throws NullPointerException), a row without a BPM throws
      NullPointerException, and a BPM that is not positive makes the
      sequence raise java.lang.Error. */
  function RawFrom(vs: seq<Visit>, i: nat, assessed: NoteType -> bool, s: TimingSequence,
                   ns: seq<int>, ts: seq<real>): Result<RawNotes>
    requires i <= |vs|
    decreases |vs| - i
  {
    if i == |vs| then Ok(RawNotes(ns, ts))
    else
      var row := vs[i].row;
      if |row.notes| != 4 then Err(NullPointerException)
      else
        var n := AssessedMask(row.notes, assessed);
        var ns' := if n != 0 then ns + [n] else ns;
        var ts' := if n != 0 then ts + [s.TimeScaled()] else ts;
        if row.bpm.None? then Err(NullPointerException)
        else match s.Advance(vs[i].size, row.bpm.value.value)
          case Err(e) => Err(e)
          case Ok(next) => RawFrom(vs, i + 1, assessed, next, ns', ts')
  }

  /** What new RawNotes(info) yields for the rows of a chart. */
  function RawNotesOf(measures: seq<NoteMeasure>, assessed: NoteType -> bool): Result<RawNotes> {
    RawFrom(Visits(measures), 0, assessed, Start, [], [])
  }

  /** The walk keeps the arrays parallel, the notes are exactly the
      non-zero masks in row order (so each lies in 1..15), and the times
      never decrease: each is taken before the sequence advances, and
      advancing only moves time forward. */
  lemma {:induction false} RawFromShape(vs: seq<Visit>, i: nat, assessed: NoteType -> bool, s: TimingSequence,
                                        ns: seq<int>, ts: seq<real>)
    requires i <= |vs| && |ns| == |ts| && NonDecreasing(ts)
    requires |ts| > 0 ==> ts[|ts| - 1] <= s.TimeScaled()
    ensures RawFrom(vs, i, assessed, s, ns, ts).Ok? ==>
      var raw := RawFrom(vs, i, assessed, s, ns, ts).value;
      |raw.notes| == |raw.times| && NonDecreasing(raw.times) &&
      raw.notes == ns + NonZeroMasks(vs, i, assessed) && raw.times[..|ts|] == ts
    decreases |vs| - i
  {
    if i < |vs| && RawFrom(vs, i, assessed, s, ns, ts).Ok? {
      var row := vs[i].row;
      var n := AssessedMask(row.notes, assessed);
      var next := s.Advance(vs[i].size, row.bpm.value.value).value;
      TimeScaledMonotone(s, next);
      var ns' := if n != 0 then ns + [n] else ns;
      var ts' := if n != 0 then ts + [s.TimeScaled()] else ts;
      assert NonDecreasing(ts');
      RawFromShape(vs, i + 1, assessed, next, ns', ts');
      var raw := RawFrom(vs, i, assessed, s, ns, ts).value;
      assert raw.times[..|ts'|][..|ts|] == raw.times[..|ts|];
    }
  }

  /** Every stored note is a non-zero four-column mask. */
  lemma {:induction false} NonZeroMasksRange(vs: seq<Visit>, i: nat, assessed: NoteType -> bool)
    requires i <= |vs|
    requires forall k :: i <= k < |vs| ==> |vs[k].row.notes| == 4
    ensures forall k :: 0 <= k < |NonZeroMasks(vs, i, assessed)| ==> 0 < NonZeroMasks(vs, i, assessed)[k] < 16
    decreases |vs| - i
  {
    if i < |vs| {
      MaskOfFourBelow16(vs[i].row.notes, assessed);
      NonZeroMasksRange(vs, i + 1, assessed);
    }
  }

  lemma MaskOfFourBelow16(notes: seq<Note>, assessed: NoteType -> bool)
    requires |notes| == 4
    ensures AssessedMask(notes, assessed) < 16
  {
    MaskBound(notes, assessed);
  }

  function Pow2(n: nat): nat {
    if n == 0 then 1 else 2 * Pow2(n - 1)
  }

  /** A mask of n columns has n bits. */
  lemma {:induction false} MaskBound(notes: seq<Note>, assessed: NoteType -> bool)
    ensures AssessedMask(notes, assessed) < Pow2(|notes|)
    decreases |notes|
  {
    if notes != [] {
      MaskBound(notes[1..], assessed);
    }
  }

  /** A successful walk only saw four-column rows. */
  lemma {:induction false} RawFromFourWide(vs: seq<Visit>, i: nat, assessed: NoteType -> bool, s: TimingSequence,
                                           ns: seq<int>, ts: seq<real>)
    requires i <= |vs|
    requires RawFrom(vs, i, assessed, s, ns, ts).Ok?
    ensures forall k :: i <= k < |vs| ==> |vs[k].row.notes| == 4
    decreases |vs| - i
  {
    if i < |vs| {
      var row := vs[i].row;
      var n := AssessedMask(row.notes, assessed);
      var next := s.Advance(vs[i].size, row.bpm.value.value).value;
      var ns' := if n != 0 then ns + [n] else ns;
      var ts' := if n != 0 then ts + [s.TimeScaled()] else ts;
      RawFromFourWide(vs, i + 1, assessed, next, ns', ts');
    }
  }

  /** The raw notes of a chart: parallel arrays, one entry per row with a
      non-zero mask, masks in 1..15, times in order. */
  lemma RawNotesOfShape(measures: seq<NoteMeasure>, assessed: NoteType -> bool)
    ensures RawNotesOf(measures, assessed).Ok? ==>
      var raw := RawNotesOf(measures, assessed).value;
      |raw.notes| == |raw.times| && NonDecreasing(raw.times) &&
      raw.notes == NonZeroMasks(Visits(measures), 0, assessed) &&
      forall k :: 0 <= k < |raw.notes| ==> 0 < raw.notes[k] < 16
  {
    var vs := Visits(measures);
    RawFromShape(vs, 0, assessed, Start, [], []);
    if RawNotesOf(measures, assessed).Ok? {
      RawFromFourWide(vs, 0, assessed, Start, [], []);
      NonZeroMasksRange(vs, 0, assessed);
    }
  }

  /** new RawNotes(info): walk the rows collecting (mask, time) pairs in
      two lists, then copy the lists into two arrays of their length. */
  method BuildRawNotes(measures: seq<NoteMeasure>, assessed: NoteType -> bool) returns (r: Result<RawNotes>)
    ensures r == RawNotesOf(measures, assessed)
  {
    var vs := Visits(measures);
    var notes: seq<int> := [];
    var times: seq<real> := [];
    var sequence := Start;
    for i := 0 to |vs|
      invariant |notes| == |times|
      invariant RawNotesOf(measures, assessed) == RawFrom(vs, i, assessed, sequence, notes, times)
    {
      var row := vs[i].row;
      var n := NoteMapping(row, assessed);
      if n.Err? {
        return Err(NullPointerException);
      }
      if n.value != 0 {
        notes := notes + [n.value];
        times := times + [sequence.TimeScaled()];
      }
      if row.bpm.None? {
        return Err(NullPointerException);
      }
      var next := sequence.Advance(vs[i].size, row.bpm.value.value);
      if next.Err? {
        return Err(next.thrown);
      }
      sequence := next.value;
    }
    var noteArray := new int[|notes|];
    var timeArray := new real[|notes|];
    for i := 0 to |notes|
      invariant forall k :: 0 <= k < i ==> noteArray[k] == notes[k] && timeArray[k] == times[k]
    {
      noteArray[i] := notes[i];
      timeArray[i] := times[i];
    }
    assert noteArray[..] == notes && timeArray[..] == times;
    return Ok(RawNotes(noteArray[..], timeArray[..]));
  }
}
