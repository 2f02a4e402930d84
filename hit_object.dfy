/** HitObject of the redone osu! builder: one line of the [HitObjects]
    section, its sample arguments, and the two builders that assemble
    them.

    Times are exact: the multiplication by 1000 in the DECIMAL64 context
    is modelled without its 16-digit rounding. The float pixel maths of
    setX(col, columns) is not part of this model; the mapper takes the
    column's x position as a parameter. */
module HitObjects {
  import opened Wrappers
  import opened Decimals
  import opened Text
  import opened Sounds
  import opened StringUtil
  import opened NoteTypes
  import opened NoteRows

  /** The printed id of a sample set, and the empty text for null. */
  function SetField(s: Option<SampleSet>): string {
    if s.None? then "" else IntToString(s.value.Id())
  }

  /** ObjectArgs: the colon-separated tail of a hit object line. */
  datatype ObjectArgs = ObjectArgs(
    sampleSet: Option<SampleSet>,
    additionSet: Option<SampleSet>,
    index: int,
    volume: int,
    hitSampleFile: Option<string>)
  {
    function Parts(): seq<string> {
      [SetField(sampleSet), SetField(additionSet), IntToString(index), IntToString(volume),
       if hitSampleFile.Some? then hitSampleFile.value else ""]
    }

    /** compile(): the five parts joined with ':'. */
    function Compile(): string {
      Join(Parts(), ":")
    }

    /** The sample file name holds neither separator of a hit object line. */
    predicate PlainFile() {
      hitSampleFile.Some? ==> ':' !in hitSampleFile.value && ',' !in hitSampleFile.value
    }
  }

  /** No printed integer holds a separator. */
  lemma PrintedFree(i: int, c: char)
    requires c == ':' || c == ','
    ensures c !in IntToString(i)
  {
    IntToStringNumeral(i);
  }

  /** The parts of a compiled ObjectArgs come back when it is split at
      ':': five of them; a null sample set is the empty part and a set one
      reads back as its id; the index and the volume read back as
      themselves. No ',' appears in it. */
  lemma ArgsFields(a: ObjectArgs)
    requires a.PlainFile()
    ensures Fields(a.Compile(), ':') == a.Parts()
    ensures |a.Parts()| == 5
    ensures a.Parts()[0] == "" <==> a.sampleSet.None?
    ensures a.sampleSet.Some? ==> ParseBigInteger(a.Parts()[0]) == Some(a.sampleSet.value.Id())
    ensures a.Parts()[1] == "" <==> a.additionSet.None?
    ensures a.additionSet.Some? ==> ParseBigInteger(a.Parts()[1]) == Some(a.additionSet.value.Id())
    ensures ParseBigInteger(a.Parts()[2]) == Some(a.index)
    ensures ParseBigInteger(a.Parts()[3]) == Some(a.volume)
    ensures ',' !in a.Compile()
  {
    SetFieldFacts(a.sampleSet);
    SetFieldFacts(a.additionSet);
    ParseIntOfPrinted(a.index);
    ParseIntOfPrinted(a.volume);
    ArgsSplit(a);
  }

  /** The printed sample set: empty exactly for null, otherwise its id,
      and free of both separators. */
  lemma SetFieldFacts(s: Option<SampleSet>)
    ensures SetField(s) == "" <==> s.None?
    ensures s.Some? ==> ParseBigInteger(SetField(s)) == Some(s.value.Id())
    ensures ':' !in SetField(s) && ',' !in SetField(s)
  {
    if s.Some? {
      PrintedFree(s.value.Id(), ':');
      PrintedFree(s.value.Id(), ',');
      ParseIntOfPrinted(s.value.Id());
      IntToStringNumeral(s.value.Id());
    }
  }

  lemma ArgsSplit(a: ObjectArgs)
    requires a.PlainFile()
    ensures Fields(a.Compile(), ':') == a.Parts()
    ensures ',' !in a.Compile()
  {
    var ps := a.Parts();
    SetFieldFacts(a.sampleSet);
    SetFieldFacts(a.additionSet);
    PrintedFree(a.index, ':');
    PrintedFree(a.volume, ':');
    PrintedFree(a.index, ',');
    PrintedFree(a.volume, ',');
    assert forall i :: 0 <= i < |ps| ==> ':' !in ps[i] && ',' !in ps[i];
    JoinFields(ps, ':');
    JoinChars(ps, ":", c => c != ',');
  }

  /** ObjectArgs.builder(): both sample sets AUTO, everything else zero or
      null. */
  class ObjectArgsBuilder {
    var sampleSet: Option<SampleSet>
    var additionSet: Option<SampleSet>
    var index: int
    var volume: int
    var hitSampleFile: Option<string>

    constructor ()
      ensures sampleSet == Some(AUTO) && additionSet == Some(AUTO)
      ensures index == 0 && volume == 0 && hitSampleFile == None
    {
      sampleSet := Some(AUTO);
      additionSet := Some(AUTO);
      index := 0;
      volume := 0;
      hitSampleFile := None;
    }

    /** setIndex(sounds...): the sum of the distinct sounds' ids. */
    method SetIndex(sounds: seq<HitSound>)
      modifies this
      ensures index == SoundIndex(sounds)
      ensures sampleSet == old(sampleSet) && additionSet == old(additionSet)
      ensures volume == old(volume) && hitSampleFile == old(hitSampleFile)
    {
      index := SoundIndex(sounds);
    }

    /** setVolume(volume): the volume's level. */
    method SetVolume(v: Volume)
      modifies this
      ensures volume == v.Level()
      ensures sampleSet == old(sampleSet) && additionSet == old(additionSet)
      ensures index == old(index) && hitSampleFile == old(hitSampleFile)
    {
      volume := v.Level();
    }

    method SetHitSampleFile(file: Option<string>)
      modifies this
      ensures hitSampleFile == file
      ensures sampleSet == old(sampleSet) && additionSet == old(additionSet)
      ensures index == old(index) && volume == old(volume)
    {
      hitSampleFile := file;
    }

    /** initAuto(): the plain hit sound at full volume. */
    method InitAuto()
      modifies this
      ensures index == SoundIndex([HitSound.HIT]) && volume == FULL.Level()
      ensures sampleSet == old(sampleSet) && additionSet == old(additionSet)
      ensures hitSampleFile == old(hitSampleFile)
    {
      SetIndex([HitSound.HIT]);
      SetVolume(FULL);
    }

    method Build() returns (a: ObjectArgs)
      ensures a == ObjectArgs(sampleSet, additionSet, index, volume, hitSampleFile)
    {
      a := ObjectArgs(sampleSet, additionSet, index, volume, hitSampleFile);
    }
  }

  /** ObjectArgs.builder().initAuto().build(): automatic sample sets, no
      extra sound, full volume and no sample file, which compiles to
      "0:0:0:100:". */
  method AutoArgs() returns (a: ObjectArgs)
    ensures a == ObjectArgs(Some(AUTO), Some(AUTO), 0, 100, None)
    ensures a.Compile() == "0:0:0:100:"
  {
    var b := new ObjectArgsBuilder();
    b.InitAuto();
    a := b.Build();
    assert IntToString(100) == "100" by {
      assert NatToString(10) == "10";
    }
  }

  /** HitObject: the position, the times in milliseconds, the type bits,
      the hit sound and the arguments of one note. */
  datatype HitObject = HitObject(
    x: int,
    y: int,
    startTime: real,
    hitType: HitType,
    hitSound: int,
    endTime: Option<real>,
    args: ObjectArgs)
  {
    /** The end time and its ':' when there is one. */
    function EndPrefix(): string {
      if endTime.None? then "" else IntToString(Truncate(endTime.value)) + ":"
    }

    function Parts(): seq<string> {
      [IntToString(x), IntToString(y), IntToString(Truncate(startTime)), IntToString(hitType.Id()),
       IntToString(hitSound), EndPrefix() + args.Compile()]
    }

    /** compile(): six comma-separated fields, the times truncated to
        whole milliseconds, the end time glued in front of the
        arguments. */
    function Compile(): string {
      Join(Parts(), ",")
    }
  }

  /** The last field of a line has no ',' and splits at ':' into the
      end time, when there is one, followed by the argument parts. */
  lemma LastFieldParts(h: HitObject)
    requires h.args.PlainFile()
    ensures ',' !in h.EndPrefix() + h.args.Compile()
    ensures Fields(h.EndPrefix() + h.args.Compile(), ':') ==
      (if h.endTime.Some? then [IntToString(Truncate(h.endTime.value))] else []) + h.args.Parts()
  {
    ArgsSplit(h.args);
    var argParts := h.args.Parts();
    var last := h.EndPrefix() + h.args.Compile();
    if h.endTime.Some? {
      var e := IntToString(Truncate(h.endTime.value));
      PrintedFree(Truncate(h.endTime.value), ':');
      PrintedFree(Truncate(h.endTime.value), ',');
      JoinCons(e, argParts, ":");
      assert last == Join([e] + argParts, ":");
      JoinFields([e] + argParts, ':');
    } else {
      assert last == h.args.Compile();
    }
  }

  /** A compiled hit object splits at ',' into six fields, the first five
      reading back as x, y, the truncated start time, the type id and the
      hit sound. The last splits at ':' into the five argument parts,
      preceded by the truncated end time exactly when there is one. */
  lemma CompileFields(h: HitObject)
    requires h.args.PlainFile()
    ensures var f := Fields(h.Compile(), ',');
      |f| == 6 &&
      ParseBigInteger(f[0]) == Some(h.x) && ParseBigInteger(f[1]) == Some(h.y) &&
      ParseBigInteger(f[2]) == Some(Truncate(h.startTime)) &&
      ParseBigInteger(f[3]) == Some(h.hitType.Id()) &&
      ParseBigInteger(f[4]) == Some(h.hitSound)
    ensures var g := Fields(Fields(h.Compile(), ',')[5], ':');
      |g| == (if h.endTime.Some? then 6 else 5) &&
      g[|g| - 5..] == h.args.Parts() &&
      (h.endTime.Some? ==> ParseBigInteger(g[0]) == Some(Truncate(h.endTime.value)))
  {
    var t := Truncate(h.startTime);
    HitSplit(h);
    ParseIntOfPrinted(h.x); ParseIntOfPrinted(h.y); ParseIntOfPrinted(t);
    ParseIntOfPrinted(h.hitType.Id()); ParseIntOfPrinted(h.hitSound);
    LastFieldParts(h);
    if h.endTime.Some? {
      ParseIntOfPrinted(Truncate(h.endTime.value));
    }
  }

  lemma HitSplit(h: HitObject)
    requires h.args.PlainFile()
    ensures Fields(h.Compile(), ',') == h.Parts()
  {
    PartsFree(h);
    JoinFields(h.Parts(), ',');
  }

  lemma PartsFree(h: HitObject)
    requires h.args.PlainFile()
    ensures forall i :: 0 <= i < |h.Parts()| ==> ',' !in h.Parts()[i]
  {
    var t := Truncate(h.startTime);
    PrintedFree(h.x, ','); PrintedFree(h.y, ','); PrintedFree(t, ',');
    PrintedFree(h.hitType.Id(), ','); PrintedFree(h.hitSound, ',');
    LastFieldFree(h);
    NoneHolds(h.Parts(), ',');
  }

  lemma LastFieldFree(h: HitObject)
    requires h.args.PlainFile()
    ensures ',' !in h.EndPrefix() + h.args.Compile()
  {
    ArgsSplit(h.args);
    if h.endTime.Some? {
      PrintedFree(Truncate(h.endTime.value), ',');
    }
  }

  lemma NoneHolds(ps: seq<string>, c: char)
    requires |ps| == 6
    requires c !in ps[0] && c !in ps[1] && c !in ps[2] && c !in ps[3] && c !in ps[4] && c !in ps[5]
    ensures forall i :: 0 <= i < |ps| ==> c !in ps[i]
  {
  }

  /** HitObject.builder(): every number zero and every object null. */
  class HitObjectBuilder {
    var x: int
    var y: int
    var startTime: Option<real>
    var hitType: Option<HitType>
    var hitSound: int
    var endTime: Option<real>
    var args: Option<ObjectArgs>

    constructor ()
      ensures x == 0 && y == 0 && hitSound == 0
      ensures startTime == None && hitType == None && endTime == None && args == None
    {
      x, y, hitSound := 0, 0, 0;
      startTime, hitType, endTime, args := None, None, None, None;
    }

    method SetX(x: int)
      modifies this
      ensures this.x == x
      ensures y == old(y) && startTime == old(startTime) && hitType == old(hitType)
      ensures hitSound == old(hitSound) && endTime == old(endTime) && args == old(args)
    {
      this.x := x;
    }

    method SetY(y: int)
      modifies this
      ensures this.y == y
      ensures x == old(x) && startTime == old(startTime) && hitType == old(hitType)
      ensures hitSound == old(hitSound) && endTime == old(endTime) && args == old(args)
    {
      this.y := y;
    }

    /** setType(type): a mania hold moves to y = 192 and a plain hit to
        y = 0; the other types keep y. */
    method SetType(t: HitType)
      modifies this
      ensures hitType == Some(t)
      ensures y == (if t == MANIA_HOLD then 192 else if t == HitType.HIT then 0 else old(y))
      ensures x == old(x) && startTime == old(startTime)
      ensures hitSound == old(hitSound) && endTime == old(endTime) && args == old(args)
    {
      hitType := Some(t);
      if t == MANIA_HOLD {
        SetY(192);
      }
      if t == HitType.HIT {
        SetY(0);
      }
    }

    /** setHitSound(HitSound): the sound's id. */
    method SetHitSound(s: HitSound)
      modifies this
      ensures hitSound == s.Id()
      ensures x == old(x) && y == old(y) && startTime == old(startTime)
      ensures hitType == old(hitType) && endTime == old(endTime) && args == old(args)
    {
      hitSound := s.Id();
    }

    /** setStartTime(time, isInSeconds): seconds become milliseconds. A
        null time is stored as given, except that converting it raises
        NullPointerException and leaves the builder unchanged. */
    method SetStartTime(time: Option<real>, isInSeconds: bool) returns (thrown: Option<Thrown>)
      modifies this
      ensures thrown == (if time.None? && isInSeconds then Some(NullPointerException) else None)
      ensures thrown.Some? ==> startTime == old(startTime)
      ensures thrown.None? ==> startTime == (if isInSeconds then Some(time.value * 1000.0) else time)
      ensures x == old(x) && y == old(y) && hitType == old(hitType)
      ensures hitSound == old(hitSound) && endTime == old(endTime) && args == old(args)
    {
      if isInSeconds {
        if time.None? {
          return Some(NullPointerException);
        }
        startTime := Some(time.value * 1000.0);
      } else {
        startTime := time;
      }
      return None;
    }

    /** setEndTime(time, isInSeconds): null stays null; seconds become
        milliseconds. */
    method SetEndTime(time: Option<real>, isInSeconds: bool)
      modifies this
      ensures endTime == (if time.Some? && isInSeconds then Some(time.value * 1000.0) else time)
      ensures x == old(x) && y == old(y) && startTime == old(startTime)
      ensures hitType == old(hitType) && hitSound == old(hitSound) && args == old(args)
    {
      if time.None? {
        endTime := None;
      } else if isInSeconds {
        endTime := Some(time.value * 1000.0);
      } else {
        endTime := time;
      }
    }

    method SetArgs(a: ObjectArgs)
      modifies this
      ensures args == Some(a)
      ensures x == old(x) && y == old(y) && startTime == old(startTime)
      ensures hitType == old(hitType) && hitSound == old(hitSound) && endTime == old(endTime)
    {
      args := Some(a);
    }

    /** build(): NullPointerException when the start time, the type or the
        arguments (the @NonNull fields) were never set. */
    method Build() returns (r: Result<HitObject>)
      ensures r.Ok? <==> startTime.Some? && hitType.Some? && args.Some?
      ensures r.Err? ==> r.thrown == NullPointerException
      ensures r.Ok? ==>
        r.value == HitObject(x, y, startTime.value, hitType.value, hitSound, endTime, args.value)
    {
      if startTime.None? || hitType.None? || args.None? {
        return Err(NullPointerException);
      }
      return Ok(HitObject(x, y, startTime.value, hitType.value, hitSound, endTime, args.value));
    }
  }

  /** The hit object the Etterna note mapper of TimingInfo makes of a
      note, with `x` the pixel position of its column: nothing for notes
      that are neither taps nor hold heads; NullPointerException for an
      untimed one; otherwise a HIT at y = 0 or, for a hold head, a
      MANIA_HOLD at y = 192, timed in milliseconds, with the plain hit
      sound and automatic arguments. */
  function EtternaHitObject(note: Note, x: int): Result<Option<HitObject>> {
    if !(note.startNote.IsHoldHead() || note.startNote.IsTap()) then Ok(None)
    else if note.startTime.None? then Err(NullPointerException)
    else
      var hold := note.startNote.IsHoldHead();
      Ok(Some(HitObject(
        x,
        if hold then 192 else 0,
        note.startTime.value * 1000.0,
        if hold then MANIA_HOLD else HitType.HIT,
        HitSound.HIT.Id(),
        if note.endTime.Some? then Some(note.endTime.value * 1000.0) else None,
        ObjectArgs(Some(AUTO), Some(AUTO), 0, 100, None))))
  }

  /** The note mapper of loadFromEtternaInfo, driving the builders in the
      source's order (with the identity as finaliser): it gives exactly
      the hit object described above. */
  method MapEtternaNote(note: Note, x: int) returns (r: Result<Option<HitObject>>)
    ensures r == EtternaHitObject(note, x)
  {
    if !(note.startNote.IsHoldHead() || note.startNote.IsTap()) {
      return Ok(None);
    }
    var b := new HitObjectBuilder();
    var thrown := b.SetStartTime(note.startTime, true);
    if thrown.Some? {
      return Err(thrown.value);
    }
    b.SetX(x);
    b.SetY(0);
    b.SetType(if note.startNote.IsHoldHead() then MANIA_HOLD else HitType.HIT);
    b.SetEndTime(note.endTime, true);
    b.SetHitSound(HitSound.HIT);
    var args := AutoArgs();
    b.SetArgs(args);
    var built := b.Build();
    return match built
      case Ok(h) => Ok(Some(h))
      case Err(e) => Err(e);
  }

  /** Only taps and hold heads become hit objects, and every timed one
      does; holds are exactly the hold heads, and they alone carry an end
      time in their line when the note has one. */
  lemma EtternaHitObjectShape(note: Note, x: int)
    ensures EtternaHitObject(note, x) == Ok(None) <==> !(note.startNote.IsHoldHead() || note.startNote.IsTap())
    ensures EtternaHitObject(note, x).Err? <==>
      (note.startNote.IsHoldHead() || note.startNote.IsTap()) && note.startTime.None?
    ensures EtternaHitObject(note, x).Ok? && EtternaHitObject(note, x).value.Some? ==>
      var h := EtternaHitObject(note, x).value.value;
      (h.hitType == MANIA_HOLD <==> note.startNote == HOLD_HEAD) &&
      (h.y == 192 <==> note.startNote == HOLD_HEAD) &&
      h.startTime == note.startTime.value * 1000.0 &&
      (h.endTime.Some? <==> note.endTime.Some?) &&
      |Fields(h.Compile(), ',')| == 6 &&
      |Fields(Fields(h.Compile(), ',')[5], ':')| == (if note.endTime.Some? then 6 else 5)
  {
    var r := EtternaHitObject(note, x);
    if r.Ok? && r.value.Some? {
      CompileFields(r.value.value);
    }
  }
}
