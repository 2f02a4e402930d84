/** EtternaNoteInfo: the measures of one chart and the timing pass that
    gives every note its start time, pairs hold heads with their tails
    column by column, and gives every row the BPM in force at its beat.

    The chart is a sequence of measures held by the object and rewritten
    as the pass goes; a note is addressed by its position (measure, row,
    column). The hold flags are the 99-slot array of the source, holding
    the position of the open hold of each column. */
module EtternaNoteInfos {
  import opened Wrappers
  import opened Decimals
  import opened NoteTypes
  import opened NoteRows
  import opened NoteMeasures
  import opened Vsrg
  import opened EtternaTimings
  import opened MinaCalcRaw

  /** MAX_COLUMNS: the number of hold flags. */
  const MaxColumns: nat := 99

  // ---------------------------------------------------------------------
  // Positions in a chart
  // ---------------------------------------------------------------------

  datatype Pos = Pos(m: nat, r: nat, c: nat)

  predicate ValidPos(ms: seq<NoteMeasure>, p: Pos) {
    p.m < |ms| && p.r < |ms[p.m].rows| && p.c < |ms[p.m].rows[p.r].notes|
  }

  function NoteAt(ms: seq<NoteMeasure>, p: Pos): Note
    requires ValidPos(ms, p)
  {
    ms[p.m].rows[p.r].notes[p.c]
  }

  predicate ValidRow(ms: seq<NoteMeasure>, m: int, r: int) {
    0 <= m < |ms| && 0 <= r < |ms[m].rows|
  }

  /** The order in which the pass visits notes. */
  predicate Precedes(a: Pos, b: Pos) {
    a.m < b.m || (a.m == b.m && (a.r < b.r || (a.r == b.r && a.c < b.c)))
  }

  /** Two charts with the same measures, rows and columns, and the same
      kind and column number in every note. */
  ghost predicate SameShape(a: seq<NoteMeasure>, b: seq<NoteMeasure>) {
    |a| == |b| &&
    (forall m :: 0 <= m < |a| ==> |a[m].rows| == |b[m].rows|) &&
    (forall m, r :: ValidRow(a, m, r) ==> |a[m].rows[r].notes| == |b[m].rows[r].notes|) &&
    (forall q :: ValidPos(a, q) ==>
      NoteAt(a, q).startNote == NoteAt(b, q).startNote && NoteAt(a, q).column == NoteAt(b, q).column)
  }

  lemma SameShapeTrans(a: seq<NoteMeasure>, b: seq<NoteMeasure>, c: seq<NoteMeasure>)
    requires SameShape(a, b) && SameShape(b, c)
    ensures SameShape(a, c)
  {
  }

  /** Replace the note at p by n, which keeps its kind and column. */
  function SetNote(ms: seq<NoteMeasure>, p: Pos, n: Note): (res: seq<NoteMeasure>)
    requires ValidPos(ms, p)
    requires n.startNote == NoteAt(ms, p).startNote && n.column == NoteAt(ms, p).column
    ensures SameShape(ms, res)
    ensures forall q :: ValidPos(res, q) <==> ValidPos(ms, q)
    ensures NoteAt(res, p) == n
    ensures forall q :: ValidPos(ms, q) && q != p ==> NoteAt(res, q) == NoteAt(ms, q)
    ensures forall m, r :: ValidRow(ms, m, r) ==> res[m].rows[r].bpm == ms[m].rows[r].bpm
  {
    var row := ms[p.m].rows[p.r];
    ms[p.m := NoteMeasure(ms[p.m].rows[p.r := NoteRow(row.notes[p.c := n], row.bpm)])]
  }

  /** row.setBpm(b) on row r of measure m. */
  function SetRowBpm(ms: seq<NoteMeasure>, m: nat, r: nat, b: Bpm): (res: seq<NoteMeasure>)
    requires ValidRow(ms, m, r)
    ensures SameShape(ms, res)
    ensures forall q :: ValidPos(res, q) <==> ValidPos(ms, q)
    ensures forall q :: ValidPos(ms, q) ==> NoteAt(res, q) == NoteAt(ms, q)
    ensures res[m].rows[r].bpm == Some(b)
    ensures forall m', r' :: ValidRow(ms, m', r') && (m' != m || r' != r) ==>
      res[m'].rows[r'].bpm == ms[m'].rows[r'].bpm
  {
    ms[m := NoteMeasure(ms[m].rows[r := NoteRow(ms[m].rows[r].notes, Some(b))])]
  }

  // ---------------------------------------------------------------------
  // The timing pass, one step at a time
  // ---------------------------------------------------------------------

  /** The state of the pass: the chart, the timing sequence and the flags. */
  datatype Walk = Walk(ms: seq<NoteMeasure>, s: TimingSequence, flags: seq<Option<Pos>>)

  /** A step's new state and the exception it raised, if any. */
  datatype Step = Step(w: Walk, error: Option<Thrown>)

  /** The outcome of the whole pass: the chart as the pass left it, and the
      exception that stopped it, if any. */
  datatype Timed = Timed(ms: seq<NoteMeasure>, error: Option<Thrown>)

  /** Every flag holds the position of a hold in its own column. */
  predicate FlagsOk(ms: seq<NoteMeasure>, flags: seq<Option<Pos>>) {
    |flags| == MaxColumns &&
    forall k :: 0 <= k < |flags| && flags[k].Some? ==>
      ValidPos(ms, flags[k].value) && flags[k].value.c == k && NoteAt(ms, flags[k].value).startNote.IsHold()
  }

  /** Every flagged note was visited before the cursor. */
  predicate FlagsBefore(flags: seq<Option<Pos>>, cur: Pos) {
    forall k :: 0 <= k < |flags| && flags[k].Some? ==> Precedes(flags[k].value, cur)
  }

  lemma FlagsBeforeLater(flags: seq<Option<Pos>>, a: Pos, b: Pos)
    requires FlagsBefore(flags, a) && Precedes(a, b)
    ensures FlagsBefore(flags, b)
  {
  }

  /** A note the step at p may rewrite: p itself, or the open hold of its
      column when p closes it. */
  predicate Touched(w: Walk, p: Pos, q: Pos)
    requires ValidPos(w.ms, p) && |w.flags| == MaxColumns
  {
    q == p ||
    (NoteAt(w.ms, p).startNote.IsHold() && p.c < MaxColumns && w.flags[p.c] == Some(q))
  }

  /** The body of the per-note action: the note starts at the current
      scaled time; a hold with no open hold in its column opens one, and a
      hold with an open one closes it, giving the head its end time and end
      kind and this note the head's kind as end kind. A hold past the last
      flag slot raises an index error after its time is set. */
  function TimeNote(w: Walk, p: Pos): (st: Step)
    requires ValidPos(w.ms, p) && FlagsOk(w.ms, w.flags) && FlagsBefore(w.flags, p)
    ensures |st.w.ms| == |w.ms| && |st.w.ms[p.m].rows| == |w.ms[p.m].rows|
    ensures |st.w.ms[p.m].rows[p.r].notes| == |w.ms[p.m].rows[p.r].notes|
    ensures st.w.s == w.s
    ensures FlagsOk(st.w.ms, st.w.flags) && FlagsBefore(st.w.flags, p.(c := p.c + 1))
  {
    var t := w.s.TimeScaled();
    var note := NoteAt(w.ms, p).(startTime := Some(t));
    var ms1 := SetNote(w.ms, p, note);
    FlagsKept(w.ms, ms1, w.flags);
    FlagsBeforeLater(w.flags, p, p.(c := p.c + 1));
    if !note.startNote.IsHold() then Step(w.(ms := ms1), None)
    else if p.c >= MaxColumns then Step(w.(ms := ms1), Some(IndexOutOfBoundsException))
    else match w.flags[p.c]
      case None =>
        FlagOpened(ms1, w.flags, p);
        Step(Walk(ms1, w.s, w.flags[p.c := Some(p)]), None)
      case Some(h) =>
        var head := NoteAt(ms1, h);
        var ms2 := SetNote(ms1, h, head.(endTime := Some(t), endNote := note.startNote));
        var ms3 := SetNote(ms2, p, note.(endNote := head.startNote));
        SameShapeTrans(w.ms, ms1, ms2);
        SameShapeTrans(w.ms, ms2, ms3);
        FlagsKept(w.ms, ms3, w.flags);
        FlagClosed(ms3, w.flags, p.c, p.(c := p.c + 1));
        Step(Walk(ms3, w.s, w.flags[p.c := None]), None)
  }

  /** Flags stay valid on a chart of the same shape. */
  lemma FlagsKept(ms: seq<NoteMeasure>, ms': seq<NoteMeasure>, flags: seq<Option<Pos>>)
    requires SameShape(ms, ms')
    ensures FlagsOk(ms, flags) ==> FlagsOk(ms', flags)
  {
    if FlagsOk(ms, flags) {
      forall k | 0 <= k < |flags| && flags[k].Some?
        ensures ValidPos(ms', flags[k].value) && NoteAt(ms', flags[k].value).startNote.IsHold()
      {
        assert ValidPos(ms, flags[k].value);
      }
    }
  }

  /** Opening column p.c's flag at the hold p. */
  lemma FlagOpened(ms: seq<NoteMeasure>, flags: seq<Option<Pos>>, p: Pos)
    requires FlagsOk(ms, flags) && FlagsBefore(flags, p.(c := p.c + 1))
    requires ValidPos(ms, p) && p.c < MaxColumns && NoteAt(ms, p).startNote.IsHold()
    ensures FlagsOk(ms, flags[p.c := Some(p)]) && FlagsBefore(flags[p.c := Some(p)], p.(c := p.c + 1))
  {
  }

  /** Closing flag k. */
  lemma FlagClosed(ms: seq<NoteMeasure>, flags: seq<Option<Pos>>, k: nat, cur: Pos)
    requires FlagsOk(ms, flags) && FlagsBefore(flags, cur) && k < |flags|
    ensures FlagsOk(ms, flags[k := None]) && FlagsBefore(flags[k := None], cur)
  {
  }

  /** Timing the note at p changes no position, no row's BPM, and no note
      but p and the open hold it closes; p, and p alone, gets the current
      scaled time as its start time. */
  lemma TimeNoteKeeps(w: Walk, p: Pos)
    requires ValidPos(w.ms, p) && FlagsOk(w.ms, w.flags) && FlagsBefore(w.flags, p)
    ensures var st := TimeNote(w, p);
      forall q :: ValidPos(st.w.ms, q) <==> ValidPos(w.ms, q)
    ensures var st := TimeNote(w, p);
      forall m, r :: ValidRow(w.ms, m, r) ==> st.w.ms[m].rows[r].bpm == w.ms[m].rows[r].bpm
    ensures var st := TimeNote(w, p);
      forall q :: ValidPos(w.ms, q) && !Touched(w, p, q) ==> NoteAt(st.w.ms, q) == NoteAt(w.ms, q)
    ensures var st := TimeNote(w, p);
      forall q :: ValidPos(w.ms, q) ==>
        NoteAt(st.w.ms, q).startTime == (if q == p then Some(w.s.TimeScaled()) else NoteAt(w.ms, q).startTime)
  {
    TimeNoteShape(w, p);
  }

  /** The only exception of the note step: a hold past the last flag slot. */
  lemma TimeNoteError(w: Walk, p: Pos)
    requires ValidPos(w.ms, p) && FlagsOk(w.ms, w.flags) && FlagsBefore(w.flags, p)
    ensures TimeNote(w, p).error.Some? <==> NoteAt(w.ms, p).startNote.IsHold() && p.c >= MaxColumns
    ensures TimeNote(w, p).error.Some? ==> TimeNote(w, p).error == Some(IndexOutOfBoundsException)
  {
  }

  /** The flags after the note step: a note that is not a hold leaves them
      alone; a hold opens its column's flag when none is open, and
      otherwise closes it, pairing head and tail. */
  lemma TimeNoteHolds(w: Walk, p: Pos)
    requires ValidPos(w.ms, p) && FlagsOk(w.ms, w.flags) && FlagsBefore(w.flags, p)
    ensures var st := TimeNote(w, p);
      !NoteAt(w.ms, p).startNote.IsHold() ==>
        st.w.flags == w.flags && NoteAt(st.w.ms, p) == NoteAt(w.ms, p).(startTime := Some(w.s.TimeScaled()))
    ensures var st := TimeNote(w, p);
      NoteAt(w.ms, p).startNote.IsHold() && p.c < MaxColumns && w.flags[p.c].None? ==>
        st.w.flags == w.flags[p.c := Some(p)] &&
        NoteAt(st.w.ms, p) == NoteAt(w.ms, p).(startTime := Some(w.s.TimeScaled()))
    ensures var st := TimeNote(w, p);
      NoteAt(w.ms, p).startNote.IsHold() && p.c < MaxColumns && w.flags[p.c].Some? ==>
        var h := w.flags[p.c].value;
        h != p && st.w.flags == w.flags[p.c := None] &&
        NoteAt(st.w.ms, h) == NoteAt(w.ms, h).(endTime := Some(w.s.TimeScaled()), endNote := NoteAt(w.ms, p).startNote) &&
        NoteAt(st.w.ms, p) == NoteAt(w.ms, p).(startTime := Some(w.s.TimeScaled()), endNote := NoteAt(w.ms, h).startNote)
  {
  }

  /** The end of a row: the row gets the BPM in force at the current scaled
      beat, and the sequence advances by one row of the measure at that BPM.
      No BPM in force raises IllegalStateException (the row keeps no BPM);
      a BPM that is not positive raises java.lang.Error after the row has
      been given it. */
  function RowEnd(bpms: seq<Bpm>, w: Walk, m: nat, r: nat): (st: Step)
    requires ValidRow(w.ms, m, r)
    ensures |st.w.ms| == |w.ms| && |st.w.ms[m].rows| == |w.ms[m].rows| && st.w.flags == w.flags
    ensures FlagsOk(w.ms, w.flags) ==> FlagsOk(st.w.ms, st.w.flags)
  {
    var b := Latest(bpms, w.s.BeatScaled());
    if b.Err? then Step(w, Some(b.thrown))
    else
      var ms1 := SetRowBpm(w.ms, m, r, b.value);
      FlagsKept(w.ms, ms1, w.flags);
      match w.s.Advance(|w.ms[m].rows|, b.value.value)
      case Err(e) => Step(w.(ms := ms1), Some(e))
      case Ok(next) => Step(Walk(ms1, next, w.flags), None)
  }

  /** The row's end changes no position, no note, and no other row's BPM. */
  lemma RowEndKeeps(bpms: seq<Bpm>, w: Walk, m: nat, r: nat)
    requires ValidRow(w.ms, m, r)
    ensures var st := RowEnd(bpms, w, m, r);
      forall q :: ValidPos(st.w.ms, q) <==> ValidPos(w.ms, q)
    ensures var st := RowEnd(bpms, w, m, r);
      forall q :: ValidPos(w.ms, q) ==> NoteAt(st.w.ms, q) == NoteAt(w.ms, q)
    ensures var st := RowEnd(bpms, w, m, r);
      forall m', r' :: ValidRow(w.ms, m', r') && (m' != m || r' != r) ==>
        st.w.ms[m'].rows[r'].bpm == w.ms[m'].rows[r'].bpm
  {
  }

  /** A completed row's end gives the row the latest BPM and moves the
      sequence strictly forward; the exceptions are IllegalStateException
      exactly when no BPM is in force, and java.lang.Error. */
  lemma RowEndBpm(bpms: seq<Bpm>, w: Walk, m: nat, r: nat)
    requires ValidRow(w.ms, m, r)
    ensures var st := RowEnd(bpms, w, m, r);
      st.error.None? ==>
        Latest(bpms, w.s.BeatScaled()).Ok? && st.w.ms[m].rows[r].bpm == Some(Latest(bpms, w.s.BeatScaled()).value)
    ensures var st := RowEnd(bpms, w, m, r);
      st.error.None? ==> st.w.s.time > w.s.time
    ensures var st := RowEnd(bpms, w, m, r);
      st.error.Some? ==> st.error == Some(IllegalStateException) || st.error == Some(JavaError)
    ensures var st := RowEnd(bpms, w, m, r);
      st.error == Some(IllegalStateException) <==> Latest(bpms, w.s.BeatScaled()).Err?
  {
  }

  // ---------------------------------------------------------------------
  // The whole pass
  // ---------------------------------------------------------------------

  /** A cursor of the pass: a measure (or one past the last), a row of it
      (or one past its last) and a column of that row (or one past its
      last, the row's end). */
  predicate Cursor(ms: seq<NoteMeasure>, cur: Pos) {
    cur.m <= |ms| &&
    (cur.m < |ms| ==>
      cur.r <= |ms[cur.m].rows| &&
      (cur.r < |ms[cur.m].rows| ==> cur.c <= |ms[cur.m].rows[cur.r].notes|))
  }

  function RowsLeft(ms: seq<NoteMeasure>, cur: Pos): nat {
    if cur.m < |ms| && cur.r <= |ms[cur.m].rows| then |ms[cur.m].rows| - cur.r else 0
  }

  function NotesLeft(ms: seq<NoteMeasure>, cur: Pos): nat {
    if ValidRow(ms, cur.m, cur.r) && cur.c <= |ms[cur.m].rows[cur.r].notes|
    then |ms[cur.m].rows[cur.r].notes| - cur.c else 0
  }

  /** timeNotes from the cursor on: every note of a row, then the row's
      end, row after row and measure after measure. An exception stops the
      pass and leaves the chart as far as it got. */
  function TimeFrom(bpms: seq<Bpm>, w: Walk, cur: Pos): Timed
    requires Cursor(w.ms, cur) && FlagsOk(w.ms, w.flags) && FlagsBefore(w.flags, cur)
    decreases |w.ms| - cur.m, RowsLeft(w.ms, cur), NotesLeft(w.ms, cur)
  {
    if cur.m == |w.ms| then Timed(w.ms, None)
    else if cur.r == |w.ms[cur.m].rows| then TimeFrom(bpms, w, Pos(cur.m + 1, 0, 0))
    else if cur.c < |w.ms[cur.m].rows[cur.r].notes| then
      var st := TimeNote(w, cur);
      if st.error.Some? then Timed(st.w.ms, st.error)
      else TimeFrom(bpms, st.w, cur.(c := cur.c + 1))
    else
      var st := RowEnd(bpms, w, cur.m, cur.r);
      if st.error.Some? then Timed(st.w.ms, st.error)
      else TimeFrom(bpms, st.w, Pos(cur.m, cur.r + 1, 0))
  }

  lemma TimeFromAtRowEnd(bpms: seq<Bpm>, w: Walk, cur: Pos)
    requires ValidRow(w.ms, cur.m, cur.r) && cur.c == |w.ms[cur.m].rows[cur.r].notes|
    requires FlagsOk(w.ms, w.flags) && FlagsBefore(w.flags, cur)
    requires RowEnd(bpms, w, cur.m, cur.r).error.None?
    ensures TimeFrom(bpms, w, cur) == TimeFrom(bpms, RowEnd(bpms, w, cur.m, cur.r).w, Pos(cur.m, cur.r + 1, 0))
  {
    RowEndNext(bpms, w, cur);
  }

  /** At the end of a measure the pass goes on with the next one. */
  lemma TimeFromAtMeasureEnd(bpms: seq<Bpm>, w: Walk, cur: Pos)
    requires cur.m < |w.ms| && cur.r == |w.ms[cur.m].rows|
    requires FlagsOk(w.ms, w.flags) && FlagsBefore(w.flags, cur)
    ensures FlagsBefore(w.flags, Pos(cur.m + 1, 0, 0))
    ensures TimeFrom(bpms, w, cur) == TimeFrom(bpms, w, Pos(cur.m + 1, 0, 0))
  {
    FlagsBeforeLater(w.flags, cur, Pos(cur.m + 1, 0, 0));
  }

  /** Where the pass goes on after a row's end. */
  lemma RowEndNext(bpms: seq<Bpm>, w: Walk, cur: Pos)
    requires ValidRow(w.ms, cur.m, cur.r) && cur.c == |w.ms[cur.m].rows[cur.r].notes|
    requires FlagsOk(w.ms, w.flags) && FlagsBefore(w.flags, cur)
    ensures var st := RowEnd(bpms, w, cur.m, cur.r);
      var next := Pos(cur.m, cur.r + 1, 0);
      Cursor(st.w.ms, next) && FlagsOk(st.w.ms, st.w.flags) && FlagsBefore(st.w.flags, next)
  {
    FlagsBeforeLater(w.flags, cur, Pos(cur.m, cur.r + 1, 0));
  }

  /** No column has an open hold. */
  function NoFlags(): (flags: seq<Option<Pos>>)
    ensures |flags| == MaxColumns && forall k :: 0 <= k < MaxColumns ==> flags[k].None?
  {
    seq(MaxColumns, _ => None)
  }

  /** timeNotes(timingInfo) on a chart, with the BPMs of the timing info:
      a new sequence at time 0, no open holds, from the first note on. */
  function TimeNotesSpec(ms: seq<NoteMeasure>, bpms: seq<Bpm>): Timed {
    TimeFrom(bpms, Walk(ms, Start, NoFlags()), Pos(0, 0, 0))
  }

  /** The pass never changes the chart's shape or any note's kind, and the
      only exceptions it raises are the missing BPM, the BPM that is not
      positive and the hold past the last flag slot. */
  lemma {:induction false} TimeFromShape(bpms: seq<Bpm>, w: Walk, cur: Pos)
    requires Cursor(w.ms, cur) && FlagsOk(w.ms, w.flags) && FlagsBefore(w.flags, cur)
    ensures SameShape(w.ms, TimeFrom(bpms, w, cur).ms)
    ensures TimeFrom(bpms, w, cur).error in
      {None, Some(IllegalStateException), Some(JavaError), Some(IndexOutOfBoundsException)}
    decreases |w.ms| - cur.m, RowsLeft(w.ms, cur), NotesLeft(w.ms, cur)
  {
    if cur.m == |w.ms| {
    } else if cur.r == |w.ms[cur.m].rows| {
      TimeFromShape(bpms, w, Pos(cur.m + 1, 0, 0));
    } else if cur.c < |w.ms[cur.m].rows[cur.r].notes| {
      var st := TimeNote(w, cur);
      TimeNoteShape(w, cur);
      if st.error.None? {
        var next := cur.(c := cur.c + 1);
        TimeFromAtNote(bpms, w, cur);
        TimeFromShape(bpms, st.w, next);
        ShapeCarried(w.ms, st.w.ms, TimeFrom(bpms, w, cur), TimeFrom(bpms, st.w, next));
      } else {
        TimeFromNoteFails(bpms, w, cur);
      }
    } else {
      var st := RowEnd(bpms, w, cur.m, cur.r);
      RowEndShape(bpms, w, cur.m, cur.r);
      if st.error.None? {
        var next := Pos(cur.m, cur.r + 1, 0);
        TimeFromAtRowEnd(bpms, w, cur);
        TimeFromShape(bpms, st.w, next);
        ShapeCarried(w.ms, st.w.ms, TimeFrom(bpms, w, cur), TimeFrom(bpms, st.w, next));
      } else {
        TimeFromRowEndFails(bpms, w, cur);
      }
    }
  }

  /** The shape and error facts of TimeFromShape, carried back over a step. */
  lemma ShapeCarried(ms: seq<NoteMeasure>, ms1: seq<NoteMeasure>, t: Timed, t1: Timed)
    requires SameShape(ms, ms1) && t == t1 && SameShape(ms1, t1.ms)
    requires t1.error in {None, Some(IllegalStateException), Some(JavaError), Some(IndexOutOfBoundsException)}
    ensures SameShape(ms, t.ms)
    ensures t.error in {None, Some(IllegalStateException), Some(JavaError), Some(IndexOutOfBoundsException)}
  {
    SameShapeTrans(ms, ms1, t1.ms);
  }

  lemma TimeNoteShape(w: Walk, p: Pos)
    requires ValidPos(w.ms, p) && FlagsOk(w.ms, w.flags) && FlagsBefore(w.flags, p)
    ensures SameShape(w.ms, TimeNote(w, p).w.ms)
    ensures TimeNote(w, p).error in {None, Some(IndexOutOfBoundsException)}
  {
    var t := w.s.TimeScaled();
    var note := NoteAt(w.ms, p).(startTime := Some(t));
    var ms1 := SetNote(w.ms, p, note);
    if note.startNote.IsHold() && p.c < MaxColumns && w.flags[p.c].Some? {
      var h := w.flags[p.c].value;
      var head := NoteAt(ms1, h);
      var ms2 := SetNote(ms1, h, head.(endTime := Some(t), endNote := note.startNote));
      var ms3 := SetNote(ms2, p, note.(endNote := head.startNote));
      SameShapeTrans(w.ms, ms1, ms2);
      SameShapeTrans(w.ms, ms2, ms3);
    }
    TimeNoteError(w, p);
  }

  lemma RowEndShape(bpms: seq<Bpm>, w: Walk, m: nat, r: nat)
    requires ValidRow(w.ms, m, r)
    ensures SameShape(w.ms, RowEnd(bpms, w, m, r).w.ms)
    ensures RowEnd(bpms, w, m, r).error in {None, Some(IllegalStateException), Some(JavaError)}
  {
    RowEndBpm(bpms, w, m, r);
  }

  lemma TimeFromAtNote(bpms: seq<Bpm>, w: Walk, cur: Pos)
    requires ValidPos(w.ms, cur) && FlagsOk(w.ms, w.flags) && FlagsBefore(w.flags, cur)
    requires TimeNote(w, cur).error.None?
    ensures TimeFrom(bpms, w, cur) == TimeFrom(bpms, TimeNote(w, cur).w, cur.(c := cur.c + 1))
  {
    NoteNext(w, cur);
    assert cur.m != |w.ms| && cur.r != |w.ms[cur.m].rows| && cur.c < |w.ms[cur.m].rows[cur.r].notes|;
  }

  /** Where the pass goes on after a note. */
  lemma NoteNext(w: Walk, cur: Pos)
    requires ValidPos(w.ms, cur) && FlagsOk(w.ms, w.flags) && FlagsBefore(w.flags, cur)
    ensures var st := TimeNote(w, cur);
      Cursor(st.w.ms, cur.(c := cur.c + 1))
  {
  }

  lemma TimeFromNoteFails(bpms: seq<Bpm>, w: Walk, cur: Pos)
    requires ValidPos(w.ms, cur) && FlagsOk(w.ms, w.flags) && FlagsBefore(w.flags, cur)
    requires TimeNote(w, cur).error.Some?
    ensures TimeFrom(bpms, w, cur) == Timed(TimeNote(w, cur).w.ms, TimeNote(w, cur).error)
  {
  }

  lemma TimeFromRowEndFails(bpms: seq<Bpm>, w: Walk, cur: Pos)
    requires ValidRow(w.ms, cur.m, cur.r) && cur.c == |w.ms[cur.m].rows[cur.r].notes|
    requires FlagsOk(w.ms, w.flags) && FlagsBefore(w.flags, cur)
    requires RowEnd(bpms, w, cur.m, cur.r).error.Some?
    ensures TimeFrom(bpms, w, cur) == Timed(RowEnd(bpms, w, cur.m, cur.r).w.ms, RowEnd(bpms, w, cur.m, cur.r).error)
  {
  }

  /** What the pass has done to everything before the cursor: each note
      visited has a start time, the same as the first note of its row, the
      notes already visited in the current row start at the sequence's
      current scaled time, and each finished row has a BPM of the timing
      info. */
  ghost predicate TimedBefore(bpms: seq<Bpm>, w: Walk, cur: Pos) {
    (forall q :: ValidPos(w.ms, q) && Precedes(q, cur) ==>
      NoteAt(w.ms, q).startTime.Some? && NoteAt(w.ms, q).startTime == NoteAt(w.ms, q.(c := 0)).startTime) &&
    (forall q :: ValidPos(w.ms, q) && q.m == cur.m && q.r == cur.r && q.c < cur.c ==>
      NoteAt(w.ms, q).startTime == Some(w.s.TimeScaled())) &&
    (forall m, r :: ValidRow(w.ms, m, r) && (m < cur.m || (m == cur.m && r < cur.r)) ==>
      w.ms[m].rows[r].bpm.Some? && w.ms[m].rows[r].bpm.value in bpms)
  }

  /** A chart the pass got through: every note has a start time shared by
      its whole row, and every row has one of the timing info's BPMs. */
  ghost predicate FullyTimed(bpms: seq<Bpm>, ms: seq<NoteMeasure>) {
    (forall q :: ValidPos(ms, q) ==>
      NoteAt(ms, q).startTime.Some? && NoteAt(ms, q).startTime == NoteAt(ms, q.(c := 0)).startTime) &&
    (forall m, r :: ValidRow(ms, m, r) ==> ms[m].rows[r].bpm.Some? && ms[m].rows[r].bpm.value in bpms)
  }

  lemma TimedAfterNote(bpms: seq<Bpm>, w: Walk, cur: Pos)
    requires ValidPos(w.ms, cur) && FlagsOk(w.ms, w.flags) && FlagsBefore(w.flags, cur)
    requires TimedBefore(bpms, w, cur)
    ensures TimedBefore(bpms, TimeNote(w, cur).w, cur.(c := cur.c + 1))
  {
    TimeNoteKeeps(w, cur);
    VisitedAfterNote(bpms, w, cur);
  }

  /** The visited notes after the note step: all timed, each like its row's first. */
  lemma VisitedAfterNote(bpms: seq<Bpm>, w: Walk, cur: Pos)
    requires ValidPos(w.ms, cur) && FlagsOk(w.ms, w.flags) && FlagsBefore(w.flags, cur)
    requires TimedBefore(bpms, w, cur)
    ensures var w' := TimeNote(w, cur).w;
      forall q :: ValidPos(w'.ms, q) && Precedes(q, cur.(c := cur.c + 1)) ==>
        NoteAt(w'.ms, q).startTime.Some? && NoteAt(w'.ms, q).startTime == NoteAt(w'.ms, q.(c := 0)).startTime
  {
    var w' := TimeNote(w, cur).w;
    var t := w.s.TimeScaled();
    TimeNoteKeeps(w, cur);
    forall q | ValidPos(w'.ms, q) && Precedes(q, cur.(c := cur.c + 1))
      ensures NoteAt(w'.ms, q).startTime.Some? && NoteAt(w'.ms, q).startTime == NoteAt(w'.ms, q.(c := 0)).startTime
    {
      var q0 := q.(c := 0);
      assert ValidPos(w.ms, q0);
      if q == cur {
        assert NoteAt(w'.ms, q).startTime == Some(t);
        if q.c != 0 {
          assert NoteAt(w.ms, q0).startTime == Some(t);
        }
      } else {
        assert Precedes(q, cur);
      }
    }
  }

  lemma TimedAfterRowEnd(bpms: seq<Bpm>, w: Walk, cur: Pos)
    requires ValidRow(w.ms, cur.m, cur.r) && cur.c == |w.ms[cur.m].rows[cur.r].notes|
    requires TimedBefore(bpms, w, cur)
    requires RowEnd(bpms, w, cur.m, cur.r).error.None?
    ensures TimedBefore(bpms, RowEnd(bpms, w, cur.m, cur.r).w, Pos(cur.m, cur.r + 1, 0))
  {
    var w' := RowEnd(bpms, w, cur.m, cur.r).w;
    var next := Pos(cur.m, cur.r + 1, 0);
    RowEndKeeps(bpms, w, cur.m, cur.r);
    RowEndBpm(bpms, w, cur.m, cur.r);
    forall q | ValidPos(w'.ms, q) && Precedes(q, next)
      ensures NoteAt(w'.ms, q).startTime.Some? && NoteAt(w'.ms, q).startTime == NoteAt(w'.ms, q.(c := 0)).startTime
    {
      assert Precedes(q, cur);
      assert ValidPos(w.ms, q.(c := 0));
    }
    var b := Latest(bpms, w.s.BeatScaled());
    assert b.value in bpms;
  }

  lemma TimedAfterMeasure(bpms: seq<Bpm>, w: Walk, cur: Pos)
    requires cur.m < |w.ms| && cur.r == |w.ms[cur.m].rows|
    requires TimedBefore(bpms, w, cur)
    ensures TimedBefore(bpms, w, Pos(cur.m + 1, 0, 0))
  {
    forall q | ValidPos(w.ms, q) && Precedes(q, Pos(cur.m + 1, 0, 0))
      ensures NoteAt(w.ms, q).startTime.Some? && NoteAt(w.ms, q).startTime == NoteAt(w.ms, q.(c := 0)).startTime
    {
      assert Precedes(q, cur);
    }
  }

  lemma {:induction false} TimeFromTimed(bpms: seq<Bpm>, w: Walk, cur: Pos)
    requires Cursor(w.ms, cur) && FlagsOk(w.ms, w.flags) && FlagsBefore(w.flags, cur)
    requires TimedBefore(bpms, w, cur)
    ensures TimeFrom(bpms, w, cur).error.None? ==> FullyTimed(bpms, TimeFrom(bpms, w, cur).ms)
    decreases |w.ms| - cur.m, RowsLeft(w.ms, cur), NotesLeft(w.ms, cur)
  {
    if cur.m == |w.ms| {
      TimedAtEnd(bpms, w, cur);
    } else if cur.r == |w.ms[cur.m].rows| {
      var next := Pos(cur.m + 1, 0, 0);
      TimedAfterMeasure(bpms, w, cur);
      TimeFromAtMeasureEnd(bpms, w, cur);
      TimeFromTimed(bpms, w, next);
      TimedCarried(bpms, TimeFrom(bpms, w, cur), TimeFrom(bpms, w, next));
    } else if cur.c < |w.ms[cur.m].rows[cur.r].notes| {
      var st := TimeNote(w, cur);
      if st.error.None? {
        var next := cur.(c := cur.c + 1);
        TimedAfterNote(bpms, w, cur);
        TimeFromAtNote(bpms, w, cur);
        NoteNext(w, cur);
        TimeFromTimed(bpms, st.w, next);
        TimedCarried(bpms, TimeFrom(bpms, w, cur), TimeFrom(bpms, st.w, next));
      } else {
        TimeFromNoteFails(bpms, w, cur);
      }
    } else {
      var st := RowEnd(bpms, w, cur.m, cur.r);
      if st.error.None? {
        var next := Pos(cur.m, cur.r + 1, 0);
        TimedAfterRowEnd(bpms, w, cur);
        TimeFromAtRowEnd(bpms, w, cur);
        RowEndNext(bpms, w, cur);
        TimeFromTimed(bpms, st.w, next);
        TimedCarried(bpms, TimeFrom(bpms, w, cur), TimeFrom(bpms, st.w, next));
      } else {
        TimeFromRowEndFails(bpms, w, cur);
      }
    }
  }

  /** Past the last measure the pass is over and everything is timed. */
  lemma TimedAtEnd(bpms: seq<Bpm>, w: Walk, cur: Pos)
    requires cur.m == |w.ms| && FlagsOk(w.ms, w.flags) && FlagsBefore(w.flags, cur)
    requires TimedBefore(bpms, w, cur)
    ensures TimeFrom(bpms, w, cur) == Timed(w.ms, None)
    ensures FullyTimed(bpms, w.ms)
  {
    forall q | ValidPos(w.ms, q)
      ensures NoteAt(w.ms, q).startTime.Some? && NoteAt(w.ms, q).startTime == NoteAt(w.ms, q.(c := 0)).startTime
    {
      assert Precedes(q, cur);
    }
  }

  /** The fully-timed fact of TimeFromTimed, carried back over a step. */
  lemma TimedCarried(bpms: seq<Bpm>, t: Timed, t1: Timed)
    requires t == t1 && (t1.error.None? ==> FullyTimed(bpms, t1.ms))
    ensures t.error.None? ==> FullyTimed(bpms, t.ms)
  {
  }

  /** timeNotes keeps the chart's shape and kinds, raises only its three
      exceptions, and when it completes every note has its row's start time
      and every row one of the timing info's BPMs. */
  lemma TimeNotesOutcome(ms: seq<NoteMeasure>, bpms: seq<Bpm>)
    ensures SameShape(ms, TimeNotesSpec(ms, bpms).ms)
    ensures TimeNotesSpec(ms, bpms).error in
      {None, Some(IllegalStateException), Some(JavaError), Some(IndexOutOfBoundsException)}
    ensures TimeNotesSpec(ms, bpms).error.None? ==> FullyTimed(bpms, TimeNotesSpec(ms, bpms).ms)
  {
    var w := Walk(ms, Start, NoFlags());
    TimeFromShape(bpms, w, Pos(0, 0, 0));
    TimeFromTimed(bpms, w, Pos(0, 0, 0));
  }

  // ---------------------------------------------------------------------
  // Chart keys
  // ---------------------------------------------------------------------

  /** A row the chart key skips: every note is EMPTY or HOLD_TAIL. */
  predicate Blank(notes: seq<Note>) {
    forall i :: 0 <= i < |notes| ==> notes[i].startNote in {EMPTY, HOLD_TAIL}
  }

  /** The digit a note adds to the key: its kind's ordinal, or 0 for a
      hold tail. */
  function KindDigit(t: NoteType): (d: char)
    ensures IsDigit(d) && d != '3'
    ensures d == '0' <==> t in {EMPTY, HOLD_TAIL}
  {
    if t.IsHoldTail() then '0' else DigitChar(t.Ordinal())
  }

  function KindDigits(notes: seq<Note>): (s: string)
    ensures |s| == |notes|
    ensures forall i :: 0 <= i < |notes| ==> s[i] == KindDigit(notes[i].startNote)
  {
    if notes == [] then "" else KindDigits(notes[..|notes| - 1]) + [KindDigit(notes[|notes| - 1].startNote)]
  }

  /** NUMBER_PROBABLY_PULLED_OUT_OF_SOMEONES_ASS. */
  const BpmOffset: real := 0.374643

  /** The BPM part of a row's key: the BPM value plus the offset, cast to
      int (towards zero, saturating at the ends of the int range). A row
      without a BPM raises NullPointerException. */
  function BpmDigits(bpm: Option<Bpm>): Result<string> {
    match bpm
    case None => Err(NullPointerException)
    case Some(b) => Ok(IntToString(SaturateInt(Truncate(b.value + BpmOffset))))
  }

  /** The notes the key reads: all of them, or the first four for the
      strictly 4K key. */
  function KeyNotes(row: NoteRow, fourK: bool): (ns: seq<Note>)
    ensures fourK ==> |ns| == if |row.notes| <= 4 then |row.notes| else 4
    ensures !fourK || |row.notes| <= 4 ==> ns == row.notes
  {
    if fourK && |row.notes| > 4 then row.notes[..4] else row.notes
  }

  /** What one row appends to the key's blob: nothing for a blank row,
      else the digits of its notes and then its BPM part. */
  function RowKey(row: NoteRow, fourK: bool): Result<string> {
    var ns := KeyNotes(row, fourK);
    if Blank(ns) then Ok("")
    else match BpmDigits(row.bpm)
      case Err(e) => Err(e)
      case Ok(d) => Ok(KindDigits(ns) + d)
  }

  /** The blob from visit i on, with `acc` built so far. */
  function BlobFrom(vs: seq<Visit>, i: nat, acc: string, fourK: bool): Result<string>
    requires i <= |vs|
    decreases |vs| - i
  {
    if i == |vs| then Ok(acc)
    else match RowKey(vs[i].row, fourK)
      case Err(e) => Err(e)
      case Ok(b) => BlobFrom(vs, i + 1, acc + b, fourK)
  }

  /** The blob getChartKey (or getChartKey4K) hashes. */
  function ChartBlob(ms: seq<NoteMeasure>, fourK: bool): Result<string> {
    BlobFrom(Visits(ms), 0, "", fourK)
  }

  /** getChartKey / getChartKey4K: IllegalStateException on an untimed
      chart, else "X" and the SHA-1 hex digest of the blob. The digest is a
      parameter. */
  function ChartKeyOf(timed: bool, ms: seq<NoteMeasure>, fourK: bool, sha1Hex: string -> string): Result<string> {
    if !timed then Err(IllegalStateException)
    else match ChartBlob(ms, fourK)
      case Err(e) => Err(e)
      case Ok(blob) => Ok("X" + sha1Hex(blob))
  }

  /** The blob only fails on a non-blank row without a BPM, and then with
      NullPointerException; it grows from what was built so far. */
  lemma {:induction false} BlobFromOutcome(vs: seq<Visit>, i: nat, acc: string, fourK: bool)
    requires i <= |vs|
    ensures BlobFrom(vs, i, acc, fourK).Err? ==> BlobFrom(vs, i, acc, fourK).thrown == NullPointerException
    ensures BlobFrom(vs, i, acc, fourK).Ok? ==> acc <= BlobFrom(vs, i, acc, fourK).value
    ensures (forall k :: i <= k < |vs| ==> vs[k].row.bpm.Some? || Blank(KeyNotes(vs[k].row, fourK))) ==>
      BlobFrom(vs, i, acc, fourK).Ok?
    decreases |vs| - i
  {
    if i < |vs| && RowKey(vs[i].row, fourK).Ok? {
      var b := RowKey(vs[i].row, fourK).value;
      BlobFromOutcome(vs, i + 1, acc + b, fourK);
    }
  }

  /** On rows of at most four notes the strictly 4K blob is the full one. */
  lemma {:induction false} BlobFromNarrow(vs: seq<Visit>, i: nat, acc: string)
    requires i <= |vs|
    requires forall k :: i <= k < |vs| ==> |vs[k].row.notes| <= 4
    ensures BlobFrom(vs, i, acc, true) == BlobFrom(vs, i, acc, false)
    decreases |vs| - i
  {
    if i < |vs| && RowKey(vs[i].row, true).Ok? {
      BlobFromNarrow(vs, i + 1, acc + RowKey(vs[i].row, true).value);
    }
  }

  /** The strictly 4K blob ignores every column after the fourth: it is
      the full blob of the chart cut to four columns. */
  lemma {:induction false} BlobFromCut(vs: seq<Visit>, i: nat, acc: string)
    requires i <= |vs|
    ensures BlobFrom(vs, i, acc, true) == BlobFrom(CutVisits(vs), i, acc, false)
    decreases |vs| - i
  {
    if i < |vs| && RowKey(vs[i].row, true).Ok? {
      BlobFromCut(vs, i + 1, acc + RowKey(vs[i].row, true).value);
    }
  }

  /** Every row cut to its first four notes. */
  function CutVisits(vs: seq<Visit>): (cut: seq<Visit>)
    ensures |cut| == |vs|
    ensures forall k :: 0 <= k < |vs| ==>
      cut[k].size == vs[k].size && cut[k].row.bpm == vs[k].row.bpm && cut[k].row.notes == KeyNotes(vs[k].row, true)
  {
    seq(|vs|, k requires 0 <= k < |vs| => Visit(vs[k].size, NoteRow(KeyNotes(vs[k].row, true), vs[k].row.bpm)))
  }

  /** A chart whose rows are at most four wide has one key either way. */
  lemma ChartBlobNarrow(ms: seq<NoteMeasure>)
    requires forall m, r :: ValidRow(ms, m, r) ==> |ms[m].rows[r].notes| <= 4
    ensures ChartBlob(ms, true) == ChartBlob(ms, false)
  {
    VisitsRows(ms, (row: NoteRow) => |row.notes| <= 4);
    BlobFromNarrow(Visits(ms), 0, "");
  }

  /** A chart the timing pass got through has a key: no row lacks a BPM. */
  lemma TimedChartHasBlob(bpms: seq<Bpm>, ms: seq<NoteMeasure>, fourK: bool)
    requires FullyTimed(bpms, ms)
    ensures ChartBlob(ms, fourK).Ok?
  {
    VisitsRows(ms, (row: NoteRow) => row.bpm.Some?);
    BlobFromOutcome(Visits(ms), 0, "", fourK);
  }

  // ---------------------------------------------------------------------
  // The note info object
  // ---------------------------------------------------------------------

  class EtternaNoteInfo {
    var measures: seq<NoteMeasure>
    var curTimingInfo: EtternaTiming?
    const isDanceSingle: bool

    /** The required-arguments constructor: the measures and the steps-type
        flag; no timing info yet. */
    constructor (measures: seq<NoteMeasure>, isDanceSingle: bool)
      ensures this.measures == measures && this.isDanceSingle == isDanceSingle
      ensures curTimingInfo == null
    {
      this.measures := measures;
      this.isDanceSingle := isDanceSingle;
      curTimingInfo := null;
    }

    /** timeNotesWith: record the timing info, then time the notes with it.
        The timing info stays recorded even when the pass raises. */
    method TimeNotesWith(timingInfo: EtternaTiming) returns (thrown: Option<Thrown>)
      modifies this
      ensures curTimingInfo == timingInfo
      ensures Timed(measures, thrown) == TimeNotesSpec(old(measures), timingInfo.bpms)
    {
      curTimingInfo := timingInfo;
      thrown := TimeNotes(timingInfo);
    }

    /** timeNotes: a new sequence and empty flags, then every row of every
        measure in order. */
    method TimeNotes(timingInfo: EtternaTiming) returns (thrown: Option<Thrown>)
      modifies this
      ensures curTimingInfo == old(curTimingInfo)
      ensures Timed(measures, thrown) == TimeNotesSpec(old(measures), timingInfo.bpms)
    {
      ghost var goal := TimeNotesSpec(measures, timingInfo.bpms);
      ghost var shape := measures;
      var sequence := Start;
      var flags := new Option<Pos>[MaxColumns](_ => None);
      assert flags[..] == NoFlags();
      var m := 0;
      while m < |measures|
        invariant SameShape(shape, measures) && 0 <= m <= |measures|
        invariant FlagsOk(measures, flags[..]) && FlagsBefore(flags[..], Pos(m, 0, 0))
        invariant TimeFrom(timingInfo.bpms, Walk(measures, sequence, flags[..]), Pos(m, 0, 0)) == goal
        invariant curTimingInfo == old(curTimingInfo)
        decreases |shape| - m
      {
        ghost var before := measures;
        var err;
        err, sequence := TimeMeasure(timingInfo, m, sequence, flags);
        if err.Some? {
          return err;
        }
        SameShapeTrans(shape, before, measures);
        m := m + 1;
      }
      return None;
    }

    /** The rows of measure m, in order. */
    method TimeMeasure(timingInfo: EtternaTiming, m: nat, sequence: TimingSequence, flags: array<Option<Pos>>)
      returns (thrown: Option<Thrown>, next: TimingSequence)
      requires m < |measures| && FlagsOk(measures, flags[..]) && FlagsBefore(flags[..], Pos(m, 0, 0))
      modifies this, flags
      ensures curTimingInfo == old(curTimingInfo)
      ensures thrown.None? ==>
        SameShape(old(measures), measures) &&
        FlagsOk(measures, flags[..]) && FlagsBefore(flags[..], Pos(m + 1, 0, 0))
      ensures TimeFrom(timingInfo.bpms, Walk(old(measures), sequence, old(flags[..])), Pos(m, 0, 0)) ==
        if thrown.Some? then Timed(measures, thrown)
        else TimeFrom(timingInfo.bpms, Walk(measures, next, flags[..]), Pos(m + 1, 0, 0))
    {
      ghost var goal := TimeFrom(timingInfo.bpms, Walk(measures, sequence, flags[..]), Pos(m, 0, 0));
      ghost var shape := measures;
      next := sequence;
      var r := 0;
      while r < |measures[m].rows|
        invariant SameShape(shape, measures) && |measures| == |shape| && |measures[m].rows| == |shape[m].rows|
        invariant 0 <= r <= |measures[m].rows|
        invariant FlagsOk(measures, flags[..]) && FlagsBefore(flags[..], Pos(m, r, 0))
        invariant TimeFrom(timingInfo.bpms, Walk(measures, next, flags[..]), Pos(m, r, 0)) == goal
        invariant curTimingInfo == old(curTimingInfo)
        decreases |shape[m].rows| - r
      {
        ghost var before := measures;
        var err;
        err, next := TimeRow(timingInfo, m, r, next, flags);
        if err.Some? {
          return err, next;
        }
        SameShapeTrans(shape, before, measures);
        r := r + 1;
      }
      TimeFromAtMeasureEnd(timingInfo.bpms, Walk(measures, next, flags[..]), Pos(m, r, 0));
      FlagsBeforeLater(flags[..], Pos(m, r, 0), Pos(m + 1, 0, 0));
      thrown := None;
    }

    /** One row of timeNotes: each note in column order, then the row's
        BPM and the advance of the sequence. */
    method TimeRow(timingInfo: EtternaTiming, m: nat, r: nat, sequence: TimingSequence, flags: array<Option<Pos>>)
      returns (thrown: Option<Thrown>, next: TimingSequence)
      requires ValidRow(measures, m, r) && FlagsOk(measures, flags[..]) && FlagsBefore(flags[..], Pos(m, r, 0))
      modifies this, flags
      ensures curTimingInfo == old(curTimingInfo)
      ensures |measures| == |old(measures)| && |measures[m].rows| == |old(measures)[m].rows|
      ensures thrown.None? ==>
        SameShape(old(measures), measures) &&
        FlagsOk(measures, flags[..]) && FlagsBefore(flags[..], Pos(m, r + 1, 0))
      ensures TimeFrom(timingInfo.bpms, Walk(old(measures), sequence, old(flags[..])), Pos(m, r, 0)) ==
        if thrown.Some? then Timed(measures, thrown)
        else TimeFrom(timingInfo.bpms, Walk(measures, next, flags[..]), Pos(m, r + 1, 0))
    {
      ghost var shape := measures;
      thrown := TimeRowNotes(timingInfo.bpms, m, r, sequence, flags);
      if thrown.Some? {
        return thrown, sequence;
      }
      ghost var before := Walk(measures, sequence, flags[..]);
      var c := |measures[m].rows[r].notes|;
      var res := EndRow(timingInfo, m, r, sequence, flags[..]);
      if res.Err? {
        TimeFromRowEndFails(timingInfo.bpms, before, Pos(m, r, c));
        return Some(res.thrown), sequence;
      }
      next := res.value;
      TimeFromAtRowEnd(timingInfo.bpms, before, Pos(m, r, c));
      RowEndNext(timingInfo.bpms, before, Pos(m, r, c));
      RowEndShape(timingInfo.bpms, before, m, r);
      SameShapeTrans(shape, before.ms, measures);
    }

    /** The note loop of one row, up to the row's end. */
    method TimeRowNotes(bpms: seq<Bpm>, m: nat, r: nat, sequence: TimingSequence, flags: array<Option<Pos>>)
      returns (thrown: Option<Thrown>)
      requires ValidRow(measures, m, r) && FlagsOk(measures, flags[..]) && FlagsBefore(flags[..], Pos(m, r, 0))
      modifies this, flags
      ensures curTimingInfo == old(curTimingInfo)
      ensures SameShape(old(measures), measures)
      ensures ValidRow(measures, m, r) && |measures[m].rows[r].notes| == |old(measures)[m].rows[r].notes|
      ensures thrown.None? ==>
        FlagsOk(measures, flags[..]) && FlagsBefore(flags[..], Pos(m, r, |measures[m].rows[r].notes|))
      ensures TimeFrom(bpms, Walk(old(measures), sequence, old(flags[..])), Pos(m, r, 0)) ==
        if thrown.Some? then Timed(measures, thrown)
        else TimeFrom(bpms, Walk(measures, sequence, flags[..]), Pos(m, r, |measures[m].rows[r].notes|))
    {
      ghost var goal := TimeFrom(bpms, Walk(measures, sequence, flags[..]), Pos(m, r, 0));
      ghost var shape := measures;
      var c := 0;
      while c < |measures[m].rows[r].notes|
        invariant SameShape(shape, measures) && ValidRow(measures, m, r)
        invariant |measures[m].rows[r].notes| == |shape[m].rows[r].notes|
        invariant 0 <= c <= |measures[m].rows[r].notes|
        invariant FlagsOk(measures, flags[..]) && FlagsBefore(flags[..], Pos(m, r, c))
        invariant TimeFrom(bpms, Walk(measures, sequence, flags[..]), Pos(m, r, c)) == goal
        invariant curTimingInfo == old(curTimingInfo)
        decreases |shape[m].rows[r].notes| - c
      {
        ghost var before := Walk(measures, sequence, flags[..]);
        var err := MapNote(Pos(m, r, c), sequence, flags);
        TimeNoteShape(before, Pos(m, r, c));
        SameShapeTrans(shape, before.ms, measures);
        if err.Some? {
          TimeFromNoteFails(bpms, before, Pos(m, r, c));
          return err;
        }
        TimeFromAtNote(bpms, before, Pos(m, r, c));
        c := c + 1;
      }
      return None;
    }

    /** The action timeNotes applies to each note of a row (the note at
        p, with the row's sequence and the hold flags). */
    method MapNote(p: Pos, sequence: TimingSequence, flags: array<Option<Pos>>) returns (thrown: Option<Thrown>)
      requires ValidPos(measures, p) && FlagsOk(measures, flags[..]) && FlagsBefore(flags[..], p)
      modifies this, flags
      ensures curTimingInfo == old(curTimingInfo)
      ensures Step(Walk(measures, sequence, flags[..]), thrown) == TimeNote(Walk(old(measures), sequence, old(flags[..])), p)
    {
      var t := sequence.TimeScaled();
      var note := NoteAt(measures, p).(startTime := Some(t));
      measures := SetNote(measures, p, note);
      if note.startNote.IsHold() {
        if p.c >= MaxColumns {
          return Some(IndexOutOfBoundsException);
        }
        var flagged := flags[p.c];
        if flagged.None? {
          flags[p.c] := Some(p);
        } else {
          var head := NoteAt(measures, flagged.value);
          measures := SetNote(measures, flagged.value, head.(endTime := Some(t), endNote := note.startNote));
          measures := SetNote(measures, p, note.(endNote := head.startNote));
          flags[p.c] := None;
        }
      }
      return None;
    }

    /** The end of row r of measure m: its BPM, then the advance. */
    method EndRow(timingInfo: EtternaTiming, m: nat, r: nat, sequence: TimingSequence, ghost flags: seq<Option<Pos>>)
      returns (next: Result<TimingSequence>)
      requires ValidRow(measures, m, r)
      modifies this
      ensures curTimingInfo == old(curTimingInfo)
      ensures var st := RowEnd(timingInfo.bpms, Walk(old(measures), sequence, flags), m, r);
        measures == st.w.ms &&
        (next.Err? <==> st.error.Some?) &&
        (next.Err? ==> st.error == Some(next.thrown)) &&
        (next.Ok? ==> next.value == st.w.s)
    {
      var size := |measures[m].rows|;
      var curBpm := timingInfo.GetLatest(sequence.BeatScaled());
      if curBpm.Err? {
        return Err(curBpm.thrown);
      }
      measures := SetRowBpm(measures, m, r, curBpm.value);
      next := sequence.Advance(size, curBpm.value.value);
    }

    /** getNumRows: the measure sizes added up. */
    method GetNumRows() returns (count: int)
      ensures count == SumRows(measures) == |Visits(measures)|
    {
      count := 0;
      for i := 0 to |measures|
        invariant count == SumRows(measures[..i])
      {
        assert measures[..i + 1][..i] == measures[..i];
        count := count + measures[i].Size();
      }
      assert measures[..|measures|] == measures;
      VisitsCount(measures);
    }

    /** The blob loop shared by both keys: forEachNote over the rows; a
        row that is not blank appends one digit per note, then its BPM
        part. */
    method Blob(fourK: bool) returns (r: Result<string>)
      ensures r == ChartBlob(measures, fourK)
    {
      var vs := Visits(measures);
      var blob := "";
      for i := 0 to |vs|
        invariant ChartBlob(measures, fourK) == BlobFrom(vs, i, blob, fourK)
      {
        var row := vs[i].row;
        var ns := KeyNotes(row, fourK);
        var empty := IsEmpty(NoteRow(ns, row.bpm));
        assert empty <==> Blank(ns);
        if !empty {
          var digits := RowDigits(ns);
          if row.bpm.None? {
            return Err(NullPointerException);
          }
          assert RowKey(row, fourK) == Ok(digits + IntToString(SaturateInt(Truncate(row.bpm.value.value + BpmOffset))));
          blob := blob + (digits + IntToString(SaturateInt(Truncate(row.bpm.value.value + BpmOffset))));
        } else {
          assert RowKey(row, fourK) == Ok("");
          assert blob + "" == blob;
        }
      }
      return Ok(blob);
    }

    /** One digit per note, in column order. */
    static method RowDigits(ns: seq<Note>) returns (digits: string)
      ensures digits == KindDigits(ns)
    {
      digits := "";
      for j := 0 to |ns|
        invariant digits == KindDigits(ns[..j])
      {
        assert ns[..j + 1][..j] == ns[..j];
        if ns[j].startNote.IsHoldTail() {
          digits := digits + "0";
        } else {
          digits := digits + [DigitChar(ns[j].startNote.Ordinal())];
        }
      }
      assert ns[..|ns|] == ns;
    }

    /** getChartKey: every note of every non-blank row. */
    method GetChartKey(sha1Hex: string -> string) returns (r: Result<string>)
      ensures r == ChartKeyOf(curTimingInfo != null, measures, false, sha1Hex)
    {
      if curTimingInfo == null {
        return Err(IllegalStateException);
      }
      var blob := Blob(false);
      if blob.Err? {
        return Err(blob.thrown);
      }
      return Ok("X" + sha1Hex(blob.value));
    }

    /** getChartKey4K: only the first four notes of each row count. */
    method GetChartKey4K(sha1Hex: string -> string) returns (r: Result<string>)
      ensures r == ChartKeyOf(curTimingInfo != null, measures, true, sha1Hex)
    {
      if curTimingInfo == null {
        return Err(IllegalStateException);
      }
      var blob := Blob(true);
      if blob.Err? {
        return Err(blob.thrown);
      }
      return Ok("X" + sha1Hex(blob.value));
    }

    /** The key queryStepsCache looks up: the 4K key for dance-single
        charts, the full key otherwise. */
    method StepsCacheKey(sha1Hex: string -> string) returns (r: Result<string>)
      ensures r == ChartKeyOf(curTimingInfo != null, measures, isDanceSingle, sha1Hex)
    {
      if isDanceSingle {
        r := GetChartKey4K(sha1Hex);
      } else {
        r := GetChartKey(sha1Hex);
      }
    }

    /** calcMSD, up to the engine call: IllegalStateException on an untimed
        chart, else the raw notes handed to the engine. */
    method CalcMsdInput(assessed: NoteType -> bool) returns (r: Result<RawNotes>)
      ensures curTimingInfo == null ==> r == Err(IllegalStateException)
      ensures curTimingInfo != null ==> r == RawNotesOf(measures, assessed)
    {
      if curTimingInfo == null {
        return Err(IllegalStateException);
      }
      r := BuildRawNotes(measures, assessed);
    }
  }
}
