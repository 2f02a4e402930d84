/** The generic rhythm-game timing pieces the chart model uses: a BPM
    change (start time and value) and the timing sequence that walks
    through a chart one row at a time.

    The sequence is modelled with exact rational arithmetic: each step
    adds 60/bpm / (signature/4) seconds and 4/signature beats. The
    12-digit and DECIMAL64 rounding of the intermediate sums, and the
    conversion of the BPM to a double, are not modelled. */
module Vsrg {
  import opened Wrappers
  import opened Decimals

  /** A BPM change: from `start` on, the chart runs at `value` beats per minute. */
  datatype Bpm = Bpm(start: real, value: real) {
    /** BPM.rated: the same start, the value multiplied by the rate. */
    function Rated(rate: real): (b: Bpm)
      ensures b.start == start
    {
      Bpm(start, value * rate)
    }
  }

  /** TimingSequence: the current time (seconds) and beat. */
  datatype TimingSequence = TimingSequence(time: real, beat: real) {
    /** getCurTimeScaled: the time floored to 3 decimal places, as thousandths. */
    function TimeMillis(): int {
      Floor(time * 1000.0)
    }

    /** getCurTimeScaled as a number of seconds. */
    function TimeScaled(): (t: real)
      ensures t <= time < t + 0.001
    {
      TimeMillis() as real / 1000.0
    }

    /** getCurBeatScaled: the beat rounded up (away from zero) to 2 places. */
    function BeatScaled(): (b: real)
      ensures 0.0 <= beat ==> beat <= b < beat + 0.01
    {
      RoundUp(beat * 100.0) as real / 100.0
    }

    /** advanceByNote: one row of a measure with `signature` rows at `bpm`.
        A signature or BPM that is not positive raises java.lang.Error. */
    function Advance(signature: int, bpm: real): (r: Result<TimingSequence>)
      ensures r.Ok? <==> signature > 0 && bpm > 0.0
      ensures r.Ok? ==> r.value.time > time && r.value.beat > beat
    {
      if signature <= 0 || bpm <= 0.0 then Err(JavaError)
      else Ok(TimingSequence(time + (60.0 / bpm) / (signature as real / 4.0),
                             beat + 4.0 / signature as real))
    }
  }

  /** A new TimingSequence starts at time 0 and beat 0. */
  const Start: TimingSequence := TimingSequence(0.0, 0.0)

  /** The scaled time never goes down as the sequence advances. */
  lemma TimeScaledMonotone(a: TimingSequence, b: TimingSequence)
    requires a.time <= b.time
    ensures a.TimeScaled() <= b.TimeScaled()
  {
    FloorMonotone(a.time * 1000.0, b.time * 1000.0);
  }

  /** One step at `bpm` with a measure of `signature` rows lasts exactly
      240 / (bpm * signature) seconds. */
  lemma AdvanceDuration(s: TimingSequence, signature: int, bpm: real)
    requires signature > 0 && bpm > 0.0
    ensures s.Advance(signature, bpm).value.time - s.time == 240.0 / (bpm * signature as real)
  {
    var n := signature as real;
    calc {
      (60.0 / bpm) / (n / 4.0);
      240.0 / (bpm * n);
    }
  }
}
