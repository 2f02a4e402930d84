/** The rate filters of the Etterna-to-osu! converter and the option
    parsers of its configuration: which rated MSDs are converted, how the
    command-line values are read, and the clamp that turns short holds
    into taps.

    MSD values are read through getSkill(OVERALL), two places truncated,
    as exact reals. A parser that throws is `Err(ConfigError)`. */
module ConverterFilters {
  import opened Wrappers
  import opened Decimals
  import opened Text
  import opened StringUtil
  import opened Msds
  import opened Sounds
  import opened HitObjects

  /** getSkill(OVERALL) as a decimal. */
  function Overall(m: Msd): real
    requires m.Valid()
  {
    m.Skill(OVERALL) as real / 100.0
  }

  // ---------------------------------------------------------------------
  // DefaultConverterController

  /** The controller's four limits. */
  datatype ControllerLimits = ControllerLimits(maxDeviation: real, minDownRateMsd: real, minUpRateMsd: real, maxUpRateMsd: real)

  /** test(base, other): equal MSDs (the 1.0 rate itself) always pass. A
      down-rate (base above rated) needs the base at least the down-rate
      minimum; an up-rate needs the rise at most the maximum deviation;
      either needs the rated value within [minUpRate, maxUpRate]. */
  function Test(base: Msd, other: Msd, lim: ControllerLimits): (ok: bool)
    requires base.Valid() && other.Valid()
    ensures base == other ==> ok
    ensures ok && base != other ==> lim.minUpRateMsd <= Overall(other) <= lim.maxUpRateMsd
    ensures ok && base != other && Overall(base) > Overall(other) ==> Overall(base) >= lim.minDownRateMsd
    ensures ok && base != other && Overall(base) <= Overall(other) ==> Overall(other) - Overall(base) <= lim.maxDeviation
    ensures (base != other && lim.minUpRateMsd <= Overall(other) <= lim.maxUpRateMsd &&
      (Overall(base) > Overall(other) ==> Overall(base) >= lim.minDownRateMsd) &&
      (Overall(base) <= Overall(other) ==> Overall(other) - Overall(base) <= lim.maxDeviation)) ==> ok
  {
    if base == other then true
    else
      var b, r := Overall(base), Overall(other);
      var filter := if b > r then b >= lim.minDownRateMsd else r - b <= lim.maxDeviation;
      filter && lim.minUpRateMsd <= r && r <= lim.maxUpRateMsd
  }

  /** `wide` accepts everything `narrow` does: a larger deviation, lower
      minimums and a higher maximum. */
  predicate Wider(narrow: ControllerLimits, wide: ControllerLimits) {
    wide.maxDeviation >= narrow.maxDeviation && wide.minDownRateMsd <= narrow.minDownRateMsd &&
    wide.minUpRateMsd <= narrow.minUpRateMsd && wide.maxUpRateMsd >= narrow.maxUpRateMsd
  }

  /** Loosening the limits never rejects a rate that passed. */
  lemma TestMonotone(base: Msd, other: Msd, narrow: ControllerLimits, wide: ControllerLimits)
    requires base.Valid() && other.Valid() && Wider(narrow, wide)
    ensures Test(base, other, narrow) ==> Test(base, other, wide)
  {
  }

  // ---------------------------------------------------------------------
  // ConversionConfig

  /** The configuration values the filters and the clamp read. */
  datatype Config = Config(
    maxMsdDeviation: real,
    minDownRateMsd: real,
    minRateMsd: real,
    maxRateMsd: real,
    minLongNoteLength: Option<real>)

  /** The defaults: deviation 10, down-rates from 26.5, rated MSDs within
      [22.5, 38], and holds of any length. */
  const DefaultConfig := Config(10.0, 26.5, 22.5, 38.0, None)

  /** msdFilter(base, rated): a rated overall of at most 1.0 (a junk chart)
      is rejected, and so is a deviation of at least the maximum; the rated
      overall must lie in [minRateMsd, maxRateMsd]; a rate written "0.…"
      (a down-rate) also needs the base at least minDownRateMsd. */
  function MsdFilter(base: Msd, rated: Msd, rate: string, cfg: Config): (ok: bool)
    requires base.Valid() && rated.Valid()
    ensures ok ==> Overall(rated) > 1.0
    ensures ok ==> -cfg.maxMsdDeviation < Overall(base) - Overall(rated) < cfg.maxMsdDeviation
    ensures ok ==> cfg.minRateMsd <= Overall(rated) <= cfg.maxRateMsd
    ensures ok && StartsWith(rate, "0.") ==> Overall(base) >= cfg.minDownRateMsd
    ensures (Overall(rated) > 1.0 && -cfg.maxMsdDeviation < Overall(base) - Overall(rated) < cfg.maxMsdDeviation &&
      cfg.minRateMsd <= Overall(rated) <= cfg.maxRateMsd &&
      (StartsWith(rate, "0.") ==> Overall(base) >= cfg.minDownRateMsd)) ==> ok
  {
    var b, r := Overall(base), Overall(rated);
    if r <= 1.0 then false
    else if (if b - r < 0.0 then r - b else b - r) >= cfg.maxMsdDeviation then false
    else
      var isDownRate := b >= cfg.minDownRateMsd;
      var inRange := cfg.minRateMsd <= r && r <= cfg.maxRateMsd;
      if StartsWith(rate, "0.") then inRange && isDownRate else inRange
  }

  /** The controller and the configuration filter agree on up-rates, with
      the controller's range as the configuration's, except at a rise of
      exactly the maximum deviation: the controller accepts it and the
      configuration filter rejects it. */
  lemma UpRateFiltersAgree(base: Msd, rated: Msd, rate: string, cfg: Config)
    requires base.Valid() && rated.Valid() && base != rated
    requires !StartsWith(rate, "0.") && Overall(base) <= Overall(rated) && Overall(rated) > 1.0
    ensures var lim := ControllerLimits(cfg.maxMsdDeviation, cfg.minDownRateMsd, cfg.minRateMsd, cfg.maxRateMsd);
      (Overall(rated) - Overall(base) != cfg.maxMsdDeviation ==> MsdFilter(base, rated, rate, cfg) == Test(base, rated, lim)) &&
      (Overall(rated) - Overall(base) == cfg.maxMsdDeviation ==>
        !MsdFilter(base, rated, rate, cfg) &&
        (Test(base, rated, lim) <==> cfg.minRateMsd <= Overall(rated) <= cfg.maxRateMsd))
  {
  }

  /** mapToBigDecimal: new BigDecimal(arg), any failure becoming the
      configuration error. */
  function MapToBigDecimal(arg: string): (r: Result<Dec>)
    ensures r.Err? <==> ParseDecimal(arg).None?
    ensures r.Err? ==> r.thrown == ConfigError
  {
    match ParseDecimal(arg)
    case None => Err(ConfigError)
    case Some(d) => Ok(d)
  }

  /** Every decimal printed plainly is read back as itself. */
  lemma MapToBigDecimalRoundTrip(d: Dec)
    ensures MapToBigDecimal(PlainString(d)) == Ok(d)
  {
    PlainStringRoundTrip(d);
  }

  /** Scientific notation is accepted too: "1E2" is the integer one hundred,
      and a missing exponent is a configuration error. */
  lemma MapToBigDecimalExponent()
    ensures MapToBigDecimal("1E2") == Ok(Dec(100, 0))
    ensures MapToBigDecimal("1e") == Err(ConfigError)
  {
    HundredLiteral();
    RefusedExponents();
  }

  /** mapToFloat0To10 as written: the value must lie in [1, 10], although
      the option and its error message say 0 to 10. */
  function MapToFloat0To10AsWritten(arg: string): (r: Result<real>)
    ensures r.Ok? ==> 1.0 <= r.value <= 10.0
    ensures r.Err? ==> r.thrown == ConfigError
  {
    match MapToBigDecimal(arg)
    case Err(e) => Err(e)
    case Ok(d) => if d.Value() <= 10.0 && d.Value() >= 1.0 then Ok(d.Value()) else Err(ConfigError)
  }

  /** mapToFloat0To10 with the range its name and message state. */
  function MapToFloat0To10(arg: string): (r: Result<real>)
    ensures r.Ok? ==> 0.0 <= r.value <= 10.0
    ensures r.Err? ==> r.thrown == ConfigError
  {
    match MapToBigDecimal(arg)
    case Err(e) => Err(e)
    case Ok(d) => if 0.0 <= d.Value() <= 10.0 then Ok(d.Value()) else Err(ConfigError)
  }

  /** A printed decimal is accepted exactly when its value lies in [0, 10],
      and then read as that value. */
  lemma MapToFloat0To10Exact(d: Dec)
    ensures MapToFloat0To10(PlainString(d)).Ok? <==> 0.0 <= d.Value() <= 10.0
    ensures MapToFloat0To10(PlainString(d)).Ok? ==> MapToFloat0To10(PlainString(d)).value == d.Value()
  {
    MapToBigDecimalRoundTrip(d);
  }

  /** "0.5" is within 0 to 10, yet the written guard rejects it; the
      corrected one reads it as 0.5. */
  lemma Float0To10RejectsBelowOne()
    ensures MapToFloat0To10AsWritten("0.5") == Err(ConfigError)
    ensures MapToFloat0To10("0.5") == Ok(0.5)
  {
    MapToBigDecimalRoundTrip(Dec(5, 1));
    assert PlainString(Dec(5, 1)) == "0.5" by {
      assert NatToString(5) == "5";
    }
  }

  /** mapToBoolean: y, yes or true in any letter case is true; n, no or
      false is false; anything else is the configuration error. */
  function MapToBoolean(arg: string): Result<bool> {
    if EqualsIgnoreCase(arg, "y") || EqualsIgnoreCase(arg, "yes") || EqualsIgnoreCase(arg, "true") then Ok(true)
    else if EqualsIgnoreCase(arg, "n") || EqualsIgnoreCase(arg, "no") || EqualsIgnoreCase(arg, "false") then Ok(false)
    else Err(ConfigError)
  }

  /** The answer depends only on the lower-case spelling: true for the
      three yes-words, false for the three no-words, an error for the rest. */
  lemma MapToBooleanWords(arg: string)
    ensures MapToBoolean(arg) == Ok(true) <==> Lower(arg) in YesWords
    ensures MapToBoolean(arg) == Ok(false) <==> Lower(arg) in NoWords
    ensures MapToBoolean(arg).Err? <==> Lower(arg) !in YesWords && Lower(arg) !in NoWords
    ensures MapToBoolean(arg).Err? ==> MapToBoolean(arg).thrown == ConfigError
    ensures MapToBoolean(arg) == MapToBoolean(Lower(arg))
  {
    var l := Lower(arg);
    LowerOfLower(arg);
    LowerWords();
    BooleanByWords(arg, l);
    BooleanByWords(l, l);
    WordsOutcome(MapToBoolean(arg), MapToBoolean(l), l);
  }

  lemma WordsOutcome(r: Result<bool>, r': Result<bool>, l: string)
    requires r == r' == if l in YesWords then Ok(true) else if l in NoWords then Ok(false) else Err(ConfigError)
    ensures r == Ok(true) <==> l in YesWords
    ensures r == Ok(false) <==> l in NoWords
    ensures r.Err? <==> l !in YesWords && l !in NoWords
    ensures r.Err? ==> r.thrown == ConfigError
    ensures r == r'
  {
  }

  /** mapToBoolean decided by the lower-case spelling alone. */
  lemma BooleanByWords(a: string, l: string)
    requires Lower(a) == l
    requires Lower("y") == "y" && Lower("yes") == "yes" && Lower("true") == "true"
    requires Lower("n") == "n" && Lower("no") == "no" && Lower("false") == "false"
    ensures MapToBoolean(a) ==
      if l in YesWords then Ok(true) else if l in NoWords then Ok(false) else Err(ConfigError)
  {
    BooleanCore(a, l, EqualsIgnoreCase(a, "y"), EqualsIgnoreCase(a, "yes"), EqualsIgnoreCase(a, "true"),
      EqualsIgnoreCase(a, "n"), EqualsIgnoreCase(a, "no"), EqualsIgnoreCase(a, "false"));
  }

  lemma BooleanCore(a: string, l: string, y: bool, yes: bool, t: bool, n: bool, no: bool, f: bool)
    requires y == EqualsIgnoreCase(a, "y") && yes == EqualsIgnoreCase(a, "yes") && t == EqualsIgnoreCase(a, "true")
    requires n == EqualsIgnoreCase(a, "n") && no == EqualsIgnoreCase(a, "no") && f == EqualsIgnoreCase(a, "false")
    requires y == (l == "y") && yes == (l == "yes") && t == (l == "true")
    requires n == (l == "n") && no == (l == "no") && f == (l == "false")
    ensures MapToBoolean(a) ==
      if l in YesWords then Ok(true) else if l in NoWords then Ok(false) else Err(ConfigError)
  {
  }

  const YesWords: set<string> := {"y", "yes", "true"}
  const NoWords: set<string> := {"n", "no", "false"}

  /** The six words are already lower case. */
  lemma LowerWords()
    ensures Lower("y") == "y" && Lower("yes") == "yes" && Lower("true") == "true"
    ensures Lower("n") == "n" && Lower("no") == "no" && Lower("false") == "false"
  {
    assert Lower("y") == "y";
    assert Lower("yes") == "yes";
    assert Lower("true") == "true";
    assert Lower("n") == "n";
    assert Lower("no") == "no";
    assert Lower("false") == "false";
  }

  lemma LowerOfLower(s: string)
    ensures Lower(Lower(s)) == Lower(s)
  {
  }

  /** mapToPosInt: Integer.parseInt (a number outside the int range is a
      NumberFormatException) and then a positive value; any failure is the
      configuration error. */
  function MapToPosInt(arg: string): (r: Result<int>)
    ensures r.Ok? ==> 0 < r.value <= MaxInt
    ensures r.Ok? <==> ParseBigInteger(arg).Some? && 0 < ParseBigInteger(arg).value <= MaxInt
    ensures r.Err? ==> r.thrown == ConfigError
  {
    match ParseBigInteger(arg)
    case None => Err(ConfigError)
    case Some(i) =>
      if i < MinInt || i > MaxInt then Err(ConfigError)
      else if i > 0 then Ok(i) else Err(ConfigError)
  }

  /** Every positive int printed is read back as itself; zero, negative
      numbers and numbers past the int range are refused. */
  lemma MapToPosIntRoundTrip(i: int)
    ensures MapToPosInt(IntToString(i)) == if 0 < i <= MaxInt then Ok(i) else Err(ConfigError)
  {
    ParseIntOfPrinted(i);
  }

  // ---------------------------------------------------------------------
  // The hold clamp of the hit object finaliser

  /** The type the clamp leaves as written: the length it compares is the
      end time minus itself, zero, so with any minimum of at least zero
      every timed hold becomes a tap. */
  function ClampedTypeAsWritten(minLength: Option<real>, endTime: Option<real>, hitType: Option<HitType>): Option<HitType> {
    if minLength.None? || endTime.None? || hitType != Some(MANIA_HOLD) then hitType
    else
      var diff := endTime.value - endTime.value;
      var length := if diff < 0.0 then -diff else diff;
      if length <= minLength.value then Some(HitType.HIT) else hitType
  }

  /** The type the clamp leaves when it measures the hold from its start:
      a hold no longer than the minimum becomes a tap. */
  function ClampedType(minLength: Option<real>, startTime: real, endTime: Option<real>, hitType: Option<HitType>): Option<HitType> {
    if minLength.None? || endTime.None? || hitType != Some(MANIA_HOLD) then hitType
    else
      var diff := endTime.value - startTime;
      var length := if diff < 0.0 then -diff else diff;
      if length <= minLength.value then Some(HitType.HIT) else hitType
  }

  /** As written, every timed hold is clamped whatever its length once a
      minimum of zero or more is configured. */
  lemma ClampAsWrittenDropsEveryHold(minLength: real, endTime: real)
    requires minLength >= 0.0
    ensures ClampedTypeAsWritten(Some(minLength), Some(endTime), Some(MANIA_HOLD)) == Some(HitType.HIT)
  {
  }

  /** A one-second hold with a 20 ms minimum: the written clamp turns it
      into a tap, the corrected one keeps it. */
  lemma LongHoldClamped()
    ensures ClampedTypeAsWritten(Some(20.0), Some(1000.0), Some(MANIA_HOLD)) == Some(HitType.HIT)
    ensures ClampedType(Some(20.0), 0.0, Some(1000.0), Some(MANIA_HOLD)) == Some(MANIA_HOLD)
  {
  }

  /** The corrected clamp changes only holds with an end time, and turns a
      hold into a tap exactly when it lasts no longer than the minimum;
      without a minimum nothing changes. */
  lemma ClampedTypeExact(minLength: Option<real>, startTime: real, endTime: Option<real>, hitType: Option<HitType>)
    ensures minLength.None? ==> ClampedType(minLength, startTime, endTime, hitType) == hitType
    ensures hitType != Some(MANIA_HOLD) ==> ClampedType(minLength, startTime, endTime, hitType) == hitType
    ensures minLength.Some? && endTime.Some? && hitType == Some(MANIA_HOLD) ==>
      (ClampedType(minLength, startTime, endTime, hitType) == Some(HitType.HIT) <==>
        -minLength.value <= endTime.value - startTime <= minLength.value) &&
      (ClampedType(minLength, startTime, endTime, hitType) != Some(HitType.HIT) ==>
        ClampedType(minLength, startTime, endTime, hitType) == Some(MANIA_HOLD))
  {
  }

  /** The clamp as written, applied to a hit object builder. */
  method ClampHoldAsWritten(x: HitObjectBuilder, cfg: Config)
    modifies x
    ensures x.hitType == ClampedTypeAsWritten(cfg.minLongNoteLength, old(x.endTime), old(x.hitType))
    ensures x.hitType != old(x.hitType) ==> x.y == 0
    ensures x.hitType == old(x.hitType) ==> x.y == old(x.y)
    ensures x.x == old(x.x) && x.startTime == old(x.startTime) && x.endTime == old(x.endTime)
    ensures x.hitSound == old(x.hitSound) && x.args == old(x.args)
  {
    if cfg.minLongNoteLength.None? || x.endTime.None? || x.hitType != Some(MANIA_HOLD) {
      return;
    }
    var diff := x.endTime.value - x.endTime.value;
    if diff < 0.0 {
      diff := -diff;
    }
    if diff <= cfg.minLongNoteLength.value {
      x.SetType(HitType.HIT);
    }
  }

  /** The clamp measuring each hold from its start time; a hold without a
      start time raises NullPointerException and changes nothing. */
  method ClampHold(x: HitObjectBuilder, cfg: Config) returns (thrown: Option<Thrown>)
    modifies x
    ensures thrown.Some? <==>
      cfg.minLongNoteLength.Some? && old(x.endTime).Some? && old(x.hitType) == Some(MANIA_HOLD) && old(x.startTime).None?
    ensures thrown.Some? ==> thrown.value == NullPointerException && x.hitType == old(x.hitType) && x.y == old(x.y)
    ensures thrown.None? && old(x.startTime).Some? ==>
      x.hitType == ClampedType(cfg.minLongNoteLength, old(x.startTime).value, old(x.endTime), old(x.hitType))
    ensures thrown.None? && old(x.startTime).None? ==> x.hitType == old(x.hitType)
    ensures x.hitType != old(x.hitType) ==> x.y == 0
    ensures x.hitType == old(x.hitType) ==> x.y == old(x.y)
    ensures x.x == old(x.x) && x.startTime == old(x.startTime) && x.endTime == old(x.endTime)
    ensures x.hitSound == old(x.hitSound) && x.args == old(x.args)
  {
    if cfg.minLongNoteLength.None? || x.endTime.None? || x.hitType != Some(MANIA_HOLD) {
      return None;
    }
    if x.startTime.None? {
      return Some(NullPointerException);
    }
    var diff := x.endTime.value - x.startTime.value;
    if diff < 0.0 {
      diff := -diff;
    }
    if diff <= cfg.minLongNoteLength.value {
      x.SetType(HitType.HIT);
    }
    return None;
  }
}
