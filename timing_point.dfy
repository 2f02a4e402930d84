/** TimingPoint of the redone osu! builder: one line of the
    [TimingPoints] section and the builder that assembles it.

    The beat length setBeatLength derives from a BPM (a chain of DECIMAL64
    divisions and multiplications rounded UP to 7 places) is not part of
    this model: the builder takes the finished value, and the Etterna
    mapper takes the derivation as a parameter. */
module TimingPoints {
  import opened Wrappers
  import opened Decimals
  import opened Text
  import opened Sounds
  import opened StringUtil
  import opened NoteRows
  import opened Vsrg

  datatype TimingPoint = TimingPoint(
    time: real,
    beatLength: Dec,
    meter: int,
    sampleSet: SampleSet,
    sampleIndex: HitSound,
    volume: int,
    unInherited: bool)
  {
    function Parts(): seq<string> {
      [IntToString(Truncate(time)), PlainString(beatLength), IntToString(meter),
       IntToString(sampleSet.Id()), IntToString(sampleIndex.Id()), IntToString(volume),
       if unInherited then "1" else "0", "0"]
    }

    /** compile(): eight comma-separated fields. */
    function Compile(): string {
      Join(Parts(), ",")
    }
  }

  /** A compiled timing point splits at ',' into its eight fields: the
      time truncated to whole milliseconds, the beat length exactly as
      given, the meter, the two sound ids and the volume all read back;
      the seventh is "1" exactly for an uninherited point, and the effects
      field is always "0". */
  lemma CompileFields(p: TimingPoint)
    ensures var f := SplitAt(p.Compile(), ',');
      f == p.Parts() && |f| == 8 &&
      ParseBigInteger(f[0]) == Some(Truncate(p.time)) &&
      ParseDecimal(f[1]) == Some(p.beatLength) &&
      ParseBigInteger(f[2]) == Some(p.meter) &&
      ParseBigInteger(f[3]) == Some(p.sampleSet.Id()) &&
      ParseBigInteger(f[4]) == Some(p.sampleIndex.Id()) &&
      ParseBigInteger(f[5]) == Some(p.volume) &&
      (f[6] == "1" <==> p.unInherited) && f[6] in {"0", "1"} &&
      f[7] == "0"
  {
    var t := Truncate(p.time);
    IntToStringNumeral(t);
    IntToStringNumeral(p.meter);
    IntToStringNumeral(p.sampleSet.Id());
    IntToStringNumeral(p.sampleIndex.Id());
    IntToStringNumeral(p.volume);
    PlainStringNumeral(p.beatLength);
    SplitAtJoin(p.Parts(), ',');
    ParseIntOfPrinted(t);
    ParseIntOfPrinted(p.meter);
    ParseIntOfPrinted(p.sampleSet.Id());
    ParseIntOfPrinted(p.sampleIndex.Id());
    ParseIntOfPrinted(p.volume);
    PlainStringRoundTrip(p.beatLength);
  }

  /** TimingPoint.builder(): every number zero, every object null, and the
      point inherited. */
  class TimingPointBuilder {
    var time: Option<real>
    var beatLength: Option<Dec>
    var meter: int
    var sampleSet: Option<SampleSet>
    var sampleIndex: Option<HitSound>
    var volume: int
    var unInherited: bool

    constructor ()
      ensures time == None && beatLength == None && sampleSet == None && sampleIndex == None
      ensures meter == 0 && volume == 0 && !unInherited
    {
      time, beatLength, sampleSet, sampleIndex := None, None, None, None;
      meter, volume, unInherited := 0, 0, false;
    }

    /** setTime(time, isInSeconds): seconds become milliseconds; converting
        a null time raises NullPointerException and changes nothing. */
    method SetTime(t: Option<real>, isInSeconds: bool) returns (thrown: Option<Thrown>)
      modifies this
      ensures thrown == (if t.None? && isInSeconds then Some(NullPointerException) else None)
      ensures thrown.Some? ==> time == old(time)
      ensures thrown.None? ==> time == (if isInSeconds then Some(t.value * 1000.0) else t)
      ensures beatLength == old(beatLength) && meter == old(meter) && sampleSet == old(sampleSet)
      ensures sampleIndex == old(sampleIndex) && volume == old(volume) && unInherited == old(unInherited)
    {
      if isInSeconds {
        if t.None? {
          return Some(NullPointerException);
        }
        time := Some(t.value * 1000.0);
      } else {
        time := t;
      }
      return None;
    }

    /** setBeatLength, given the beat length it derives. */
    method SetBeatLength(b: Dec)
      modifies this
      ensures beatLength == Some(b)
      ensures time == old(time) && meter == old(meter) && sampleSet == old(sampleSet)
      ensures sampleIndex == old(sampleIndex) && volume == old(volume) && unInherited == old(unInherited)
    {
      beatLength := Some(b);
    }

    method SetMeter(m: int)
      modifies this
      ensures meter == m
      ensures time == old(time) && beatLength == old(beatLength) && sampleSet == old(sampleSet)
      ensures sampleIndex == old(sampleIndex) && volume == old(volume) && unInherited == old(unInherited)
    {
      meter := m;
    }

    method SetSampleSet(s: SampleSet)
      modifies this
      ensures sampleSet == Some(s)
      ensures time == old(time) && beatLength == old(beatLength) && meter == old(meter)
      ensures sampleIndex == old(sampleIndex) && volume == old(volume) && unInherited == old(unInherited)
    {
      sampleSet := Some(s);
    }

    method SetSampleIndex(s: HitSound)
      modifies this
      ensures sampleIndex == Some(s)
      ensures time == old(time) && beatLength == old(beatLength) && meter == old(meter)
      ensures sampleSet == old(sampleSet) && volume == old(volume) && unInherited == old(unInherited)
    {
      sampleIndex := Some(s);
    }

    /** setVolume(Volume): the volume's level. */
    method SetVolume(v: Volume)
      modifies this
      ensures volume == v.Level()
      ensures time == old(time) && beatLength == old(beatLength) && meter == old(meter)
      ensures sampleSet == old(sampleSet) && sampleIndex == old(sampleIndex) && unInherited == old(unInherited)
    {
      volume := v.Level();
    }

    method SetUnInherited(b: bool)
      modifies this
      ensures unInherited == b
      ensures time == old(time) && beatLength == old(beatLength) && meter == old(meter)
      ensures sampleSet == old(sampleSet) && sampleIndex == old(sampleIndex) && volume == old(volume)
    {
      unInherited := b;
    }

    /** initDefaults(): full volume, the drum sample set, the plain hit
        sound, and an uninherited point. */
    method InitDefaults()
      modifies this
      ensures volume == 100 && sampleSet == Some(DRUM) && sampleIndex == Some(HitSound.HIT) && unInherited
      ensures time == old(time) && beatLength == old(beatLength) && meter == old(meter)
    {
      SetVolume(FULL);
      SetSampleSet(DRUM);
      SetSampleIndex(HitSound.HIT);
      SetUnInherited(true);
    }

    /** build(): NullPointerException when the time, the beat length, the
        sample set or the sample index (the @NonNull fields) is unset. */
    method Build() returns (r: Result<TimingPoint>)
      ensures r.Ok? <==> time.Some? && beatLength.Some? && sampleSet.Some? && sampleIndex.Some?
      ensures r.Err? ==> r.thrown == NullPointerException
      ensures r.Ok? ==>
        r.value == TimingPoint(time.value, beatLength.value, meter, sampleSet.value, sampleIndex.value, volume, unInherited)
    {
      if time.None? || beatLength.None? || sampleSet.None? || sampleIndex.None? {
        return Err(NullPointerException);
      }
      return Ok(TimingPoint(time.value, beatLength.value, meter, sampleSet.value, sampleIndex.value, volume, unInherited));
    }
  }

  /** builder().initDefaults().setTime(seconds, true) with a beat length:
      it starts at the time in milliseconds and carries the defaults. */
  method DefaultPoint(seconds: real, b: Dec) returns (p: TimingPoint)
    ensures p == TimingPoint(seconds * 1000.0, b, 0, DRUM, HitSound.HIT, 100, true)
  {
    var builder := new TimingPointBuilder();
    builder.InitDefaults();
    var thrown := builder.SetTime(Some(seconds), true);
    builder.SetBeatLength(b);
    var r := builder.Build();
    p := r.value;
  }

  /** A compiled timing point splits at ',' back into its parts. */
  lemma CompileSplit(p: TimingPoint)
    ensures SplitAt(p.Compile(), ',') == p.Parts()
  {
    IntToStringNumeral(Truncate(p.time));
    IntToStringNumeral(p.meter);
    IntToStringNumeral(p.sampleSet.Id());
    IntToStringNumeral(p.sampleIndex.Id());
    IntToStringNumeral(p.volume);
    PlainStringNumeral(p.beatLength);
    SplitAtJoin(p.Parts(), ',');
  }

  /** The line of a default point ends in meter 0, the drum set, the hit
      sound, volume 100, "1" for uninherited and no effects. */
  lemma DefaultPointFields(seconds: real, b: Dec)
    ensures var f := SplitAt(TimingPoint(seconds * 1000.0, b, 0, DRUM, HitSound.HIT, 100, true).Compile(), ',');
      |f| == 8 && f[2..] == ["0", "3", "0", "100", "1", "0"]
  {
    var p := TimingPoint(seconds * 1000.0, b, 0, DRUM, HitSound.HIT, 100, true);
    CompileSplit(p);
    DefaultNumerals();
    DefaultTail(p, SplitAt(p.Compile(), ','));
  }

  lemma DefaultNumerals()
    ensures IntToString(0) == "0" && IntToString(3) == "3" && IntToString(100) == "100"
  {
    assert NatToString(10) == "10";
  }

  lemma DefaultTail(p: TimingPoint, f: seq<string>)
    requires f == p.Parts() && p.meter == 0 && p.sampleSet == DRUM && p.sampleIndex == HitSound.HIT
    requires p.volume == 100 && p.unInherited
    requires IntToString(0) == "0" && IntToString(3) == "3" && IntToString(100) == "100"
    ensures |f| == 8 && f[2..] == ["0", "3", "0", "100", "1", "0"]
  {
  }

  /** The timing point the Etterna mapper of TimingInfo makes of a row and
      its BPM: the row's first note's start time in milliseconds and the
      beat length `beatLength` derives from the BPM value, on the
      defaults. A row without notes raises IndexOutOfBoundsException; an
      untimed first note or a null BPM raises NullPointerException; a BPM
      of value zero raises ArithmeticException, from the division by the
      BPM that setBeatLength starts with. */
  function EtternaTimingPoint(row: NoteRow, bpm: Option<Bpm>, beatLength: real -> Dec): Result<Option<TimingPoint>> {
    if |row.notes| == 0 then Err(IndexOutOfBoundsException)
    else if row.notes[0].startTime.None? || bpm.None? then Err(NullPointerException)
    else if bpm.value.value == 0.0 then Err(ArithmeticException)
    else Ok(Some(TimingPoint(row.notes[0].startTime.value * 1000.0, beatLength(bpm.value.value),
                             0, DRUM, HitSound.HIT, 100, true)))
  }

  /** The timing point mapper of loadFromEtternaInfo, driving the builder
      in the source's order (with the identity as finaliser). */
  method MapEtternaRow(row: NoteRow, bpm: Option<Bpm>, beatLength: real -> Dec) returns (r: Result<Option<TimingPoint>>)
    ensures r == EtternaTimingPoint(row, bpm, beatLength)
  {
    var builder := new TimingPointBuilder();
    builder.InitDefaults();
    if |row.notes| == 0 {
      return Err(IndexOutOfBoundsException);
    }
    var thrown := builder.SetTime(row.notes[0].startTime, true);
    if thrown.Some? {
      return Err(thrown.value);
    }
    if bpm.None? {
      return Err(NullPointerException);
    }
    if bpm.value.value == 0.0 {
      return Err(ArithmeticException);
    }
    builder.SetBeatLength(beatLength(bpm.value.value));
    var built := builder.Build();
    return match built
      case Ok(p) => Ok(Some(p))
      case Err(e) => Err(e);
  }

  /** The Etterna mapper succeeds exactly on a row with a timed first note
      and a BPM of non-zero value (zero fails with ArithmeticException);
      every point it makes is uninherited, at full volume on the drum set,
      and starts at its row's first note. */
  lemma EtternaTimingPointShape(row: NoteRow, bpm: Option<Bpm>, beatLength: real -> Dec)
    ensures EtternaTimingPoint(row, bpm, beatLength).Ok? <==>
      |row.notes| > 0 && row.notes[0].startTime.Some? && bpm.Some? && bpm.value.value != 0.0
    ensures |row.notes| > 0 && row.notes[0].startTime.Some? && bpm.Some? && bpm.value.value == 0.0 ==>
      EtternaTimingPoint(row, bpm, beatLength) == Err(ArithmeticException)
    ensures EtternaTimingPoint(row, bpm, beatLength).Ok? ==>
      var p := EtternaTimingPoint(row, bpm, beatLength).value;
      p.Some? && p.value.unInherited && p.value.volume == 100 && p.value.sampleSet == DRUM &&
      p.value.time == row.notes[0].startTime.value * 1000.0 &&
      |SplitAt(p.value.Compile(), ',')| == 8 &&
      SplitAt(p.value.Compile(), ',')[6] == "1"
  {
    var r := EtternaTimingPoint(row, bpm, beatLength);
    if r.Ok? {
      CompileFields(r.value.value);
    }
  }
}
