/** MSD: the eight skillset difficulties MinaCalc assigns to a chart at one
    rate, as the steps cache stores them ("12.3,11.0,...").

    Values are exact decimals (`real`). getSkill reads a value truncated to
    two places; it is modelled as the whole number of hundredths it
    denotes. The DECIMAL64 context of the additions only matters beyond 16
    significant digits and is not modelled. */
module Msds {
  import opened Wrappers
  import opened Decimals
  import opened Text

  /** The skillsets, in declaration order, each with its acronym. */
  datatype SkillSet = OVERALL | STREAM | JUMP_STREAM | HAND_STREAM | STAMINA | JACKS | CHORDS | TECHNICAL
  {
    /** The ordinal: the skill's position in `Skills`, which is values(). */
    function Ordinal(): (i: nat)
      ensures i < NumSkillsets && Skills[i] == this
    {
      match this
      case OVERALL => 0
      case STREAM => 1
      case JUMP_STREAM => 2
      case HAND_STREAM => 3
      case STAMINA => 4
      case JACKS => 5
      case CHORDS => 6
      case TECHNICAL => 7
    }

    function Acronym(): string {
      match this
      case OVERALL => "MSD"
      case STREAM => "STR"
      case JUMP_STREAM => "JS"
      case HAND_STREAM => "HS"
      case STAMINA => "STAM"
      case JACKS => "JA"
      case CHORDS => "CH"
      case TECHNICAL => "TECH"
    }
  }

  const NumSkillsets: nat := 8

  const Skills: seq<SkillSet> :=
    [OVERALL, STREAM, JUMP_STREAM, HAND_STREAM, STAMINA, JACKS, CHORDS, TECHNICAL]

  /** Values above this are stored as this. */
  const ReasonableLimit: real := 65.0

  /** The value stored for a skill whose text is not a number. */
  const NaN: real := -1.0

  /** The number of rates, 0.7 to 2.0 in steps of 0.1, the cache stores. */
  const BaseIncrementSize: nat := 14

  /** No two skillsets share an acronym. */
  lemma AcronymsDistinct(a: SkillSet, b: SkillSet)
    ensures a.Acronym() == b.Acronym() ==> a == b
  {
  }

  /** The values of one chart at one rate, indexed by skill ordinal. */
  datatype Msd = Msd(values: seq<real>) {
    predicate Valid() { |values| == NumSkillsets }

    /** getSkill: the value truncated toward zero to two places, as a
        number of hundredths. */
    function Skill(s: SkillSet): (h: int)
      requires Valid()
      ensures 0.0 <= values[s.Ordinal()] ==>
        0 <= h && h as real <= values[s.Ordinal()] * 100.0 < h as real + 1.0
      ensures values[s.Ordinal()] < 0.0 ==>
        h <= 0 && h as real - 1.0 < values[s.Ordinal()] * 100.0 <= h as real
    {
      Hundredths(values[s.Ordinal()], DOWN)
    }
  }

  // ---------------------------------------------------------------------
  // Parsing
  // ---------------------------------------------------------------------

  /** isFloat: the decimal pattern is searched for anywhere in the text,
      so any text holding a digit qualifies. */
  predicate HasDigit(s: string) {
    exists i :: 0 <= i < |s| && IsDigit(s[i])
  }

  /** parseValue: a number is capped at 65; text without a digit is NaN;
      text with a digit that is not a literal raises NumberFormatException. */
  function ParseValue(raw: string): (r: Result<real>)
    ensures !HasDigit(raw) ==> r == Ok(NaN)
    ensures r.Ok? ==> r.value <= ReasonableLimit
    ensures r.Err? ==> r.thrown == NumberFormatException && ParseDecimal(raw).None?
  {
    if !HasDigit(raw) then Ok(NaN)
    else match ParseDecimal(raw)
      case None => Err(NumberFormatException)
      case Some(d) => Ok(if d.Value() <= ReasonableLimit then d.Value() else ReasonableLimit)
  }

  function Capped(x: real): real {
    if x <= ReasonableLimit then x else ReasonableLimit
  }

  /** A printed non-negative decimal parses to its value, capped at 65. */
  lemma ParseValuePlain(d: Dec)
    requires d.unscaled >= 0
    ensures ParseValue(PlainString(d)) == Ok(Capped(d.Value()))
  {
    PlainStringRoundTrip(d);
    assert IsDigit(PlainString(d)[0]);
  }

  /** Two points in a text with a digit make it malformed. */
  lemma ParseValueTwoPoints(s: string, i: nat, j: nat)
    requires i < j < |s| && s[i] == '.' && s[j] == '.' && HasDigit(s)
    requires forall k :: 0 <= k < |s| ==> IsDigit(s[k]) || s[k] == '.'
    ensures ParseValue(s) == Err(NumberFormatException)
  {
    var dot := IndexOf(s, '.');
    assert dot.Some? && dot.value <= i;
    var fp := s[dot.value + 1..];
    assert fp[j - dot.value - 1] == '.';
    assert !AllDigits(fp);
  }

  /** The characters the cleaning step keeps. */
  predicate Kept(c: char) { IsDigit(c) || c == '.' || c == ',' }

  /** replaceAll("[^0-9.,]+", ""): the kept characters, in order. */
  function Strip(s: string): (r: string)
    ensures forall i :: 0 <= i < |r| ==> Kept(r[i])
    ensures |r| <= |s|
    ensures (forall i :: 0 <= i < |s| ==> Kept(s[i])) ==> r == s
  {
    if s == [] then []
    else (if Kept(s[0]) then [s[0]] else []) + Strip(s[1..])
  }

  /** The parse of each piece. */
  function ValueOutcomes(parts: seq<string>): (rs: seq<Result<real>>)
    ensures |rs| == |parts|
    ensures forall i :: 0 <= i < |parts| ==> rs[i] == ParseValue(parts[i])
  {
    seq(|parts|, i requires 0 <= i < |parts| => ParseValue(parts[i]))
  }

  /** The skill values of the split text, in order; the first malformed
      one raises. */
  function ParseValues(parts: seq<string>): Result<seq<real>> {
    Collect(ValueOutcomes(parts))
  }

  /** initFromStr: strip, split at commas, expect exactly eight values. */
  function MsdOfStr(raw: string): (r: Result<Msd>)
    ensures r.Ok? ==> r.value.Valid()
    ensures |SplitAt(Strip(raw), ',')| != NumSkillsets ==> r == Err(IllegalStateException)
  {
    var parts := SplitAt(Strip(raw), ',');
    if |parts| != NumSkillsets then Err(IllegalStateException)
    else match ParseValues(parts)
      case Err(e) => Err(e)
      case Ok(vs) =>
        CollectShape(ValueOutcomes(parts));
        Ok(Msd(vs))
  }

  /** A parsed MSD holds the eight pieces' values in order; it fails with
      IllegalStateException on a wrong count and NumberFormatException on a
      malformed piece. */
  lemma MsdOfStrShape(raw: string)
    ensures var parts := SplitAt(Strip(raw), ',');
      MsdOfStr(raw).Ok? ==>
        |parts| == NumSkillsets &&
        forall i :: 0 <= i < NumSkillsets ==> ParseValue(parts[i]) == Ok(MsdOfStr(raw).value.values[i])
    ensures var parts := SplitAt(Strip(raw), ',');
      MsdOfStr(raw).Err? <==>
        |parts| != NumSkillsets || exists i :: 0 <= i < |parts| && ParseValue(parts[i]).Err?
    ensures MsdOfStr(raw).Err? ==> MsdOfStr(raw).thrown in {IllegalStateException, NumberFormatException}
  {
    var parts := SplitAt(Strip(raw), ',');
    var outcomes := ValueOutcomes(parts);
    CollectShape(outcomes);
    if Collect(outcomes).Err? {
      var i :| 0 <= i < |outcomes| && outcomes[i].Err?;
      CollectErrFrom(outcomes);
    }
  }

  /** The error of a failed collection is one of the outcomes' errors. */
  lemma {:induction false} CollectErrFrom(outcomes: seq<Result<real>>)
    requires Collect(outcomes).Err?
    ensures exists i :: 0 <= i < |outcomes| && outcomes[i] == Err(Collect(outcomes).thrown)
    decreases |outcomes|
  {
    var init := outcomes[..|outcomes| - 1];
    if Collect(init).Err? {
      CollectErrFrom(init);
      var i :| 0 <= i < |init| && init[i] == Err(Collect(init).thrown);
      assert outcomes[i] == init[i];
    } else {
      assert outcomes[|outcomes| - 1] == Err(Collect(outcomes).thrown);
    }
  }

  /** Printing eight non-negative values with toPlainString, joined by
      commas, and parsing the text gives the values back, capped at 65. */
  lemma MsdOfStrPrinted(ds: seq<Dec>)
    requires |ds| == NumSkillsets
    requires forall i :: 0 <= i < |ds| ==> ds[i].unscaled >= 0
    ensures var texts := seq(|ds|, i requires 0 <= i < |ds| => PlainString(ds[i]));
      MsdOfStr(Join(texts, ",")) ==
        Ok(Msd(seq(|ds|, i requires 0 <= i < |ds| => Capped(ds[i].Value()))))
  {
    var texts := seq(|ds|, i requires 0 <= i < |ds| => PlainString(ds[i]));
    var want := seq(|ds|, i requires 0 <= i < |ds| => Capped(ds[i].Value()));
    PrintedSplits(ds, texts);
    PrintedParse(ds, texts, want);
    MsdOfParts(Join(texts, ","), texts, want);
  }

  /** The joined printed values survive stripping and split back into the
      printed values. */
  lemma PrintedSplits(ds: seq<Dec>, texts: seq<string>)
    requires |ds| == NumSkillsets
    requires forall i :: 0 <= i < |ds| ==> ds[i].unscaled >= 0
    requires texts == seq(|ds|, i requires 0 <= i < |ds| => PlainString(ds[i]))
    ensures SplitAt(Strip(Join(texts, ",")), ',') == texts
  {
    forall i | 0 <= i < |ds|
      ensures |texts[i]| >= 1
      ensures forall k :: 0 <= k < |texts[i]| ==> IsDigit(texts[i][k]) || texts[i][k] == '.'
    {
      PlainStringNumeral(ds[i]);
    }
    var s := Join(texts, ",");
    JoinChars(texts, ",", Kept);
    assert Strip(s) == s;
    assert texts[|texts| - 1] != "";
    SplitAtJoin(texts, ',');
  }

  /** Each printed value parses back, capped at 65. */
  lemma PrintedParse(ds: seq<Dec>, texts: seq<string>, want: seq<real>)
    requires |ds| == NumSkillsets
    requires forall i :: 0 <= i < |ds| ==> ds[i].unscaled >= 0
    requires texts == seq(|ds|, i requires 0 <= i < |ds| => PlainString(ds[i]))
    requires want == seq(|ds|, i requires 0 <= i < |ds| => Capped(ds[i].Value()))
    ensures Collect(ValueOutcomes(texts)) == Ok(want)
  {
    var outcomes := ValueOutcomes(texts);
    forall i | 0 <= i < |ds| ensures outcomes[i] == Ok(want[i]) {
      ParseValuePlain(ds[i]);
    }
    CollectShape(outcomes);
    assert Collect(outcomes).Ok?;
    assert Collect(outcomes).value == want;
  }

  /** Eight parts that all parse give the MSD of their values. */
  lemma MsdOfParts(raw: string, parts: seq<string>, want: seq<real>)
    requires |parts| == NumSkillsets && SplitAt(Strip(raw), ',') == parts
    requires Collect(ValueOutcomes(parts)) == Ok(want)
    ensures MsdOfStr(raw) == Ok(Msd(want))
  {
  }

  /** MSD.initFromStr: the stripped text split at commas; exactly eight
      pieces, each parsed into a new array. */
  method InitFromStr(raw: string) returns (r: Result<Msd>)
    ensures r == MsdOfStr(raw)
  {
    var skillSets := SplitAt(Strip(raw), ',');
    if |skillSets| != NumSkillsets {
      return Err(IllegalStateException);
    }
    ghost var outcomes := ValueOutcomes(skillSets);
    var skills := new real[NumSkillsets];
    for i := 0 to NumSkillsets
      invariant Collect(outcomes[..i]) == Ok(skills[..i])
    {
      var v := ParseValue(skillSets[i]);
      CollectStep(outcomes, i, skills[..i]);
      if v.Err? {
        return Err(v.thrown);
      }
      skills[i] := v.value;
      assert skills[..i + 1] == skills[..i] + [v.value];
    }
    assert outcomes[..NumSkillsets] == outcomes;
    assert skills[..] == skills[..NumSkillsets];
    return Ok(Msd(skills[..]));
  }

  // ---------------------------------------------------------------------
  // Interpolation
  // ---------------------------------------------------------------------

  /** (a + b) / 2 rounded half up to a whole hundredth. */
  function MeanHundredths(x: int, y: int): (m: int)
    ensures (x + y) % 2 == 0 ==> 2 * m == x + y
    ensures (x + y) % 2 != 0 && x + y > 0 ==> 2 * m == x + y + 1
    ensures (x + y) % 2 != 0 && x + y < 0 ==> 2 * m == x + y - 1
  {
    RoundHalfUp((x + y) as real / 2.0)
  }

  /** interpolateMSD: per skill, the mean of the two truncated values,
      rounded half up to two places. */
  function Interpolated(a: Msd, b: Msd): (r: Msd)
    requires a.Valid() && b.Valid()
    ensures r.Valid()
  {
    Msd(seq(NumSkillsets, i requires 0 <= i < NumSkillsets =>
      MeanHundredths(a.Skill(Skills[i]), b.Skill(Skills[i])) as real / 100.0))
  }

  /** Each interpolated skill reads back as the rounded mean of the two
      skills, which lies between them. */
  lemma InterpolatedSkill(a: Msd, b: Msd, s: SkillSet)
    requires a.Valid() && b.Valid()
    ensures Interpolated(a, b).Skill(s) == MeanHundredths(a.Skill(s), b.Skill(s))
    ensures a.Skill(s) <= b.Skill(s) ==> a.Skill(s) <= Interpolated(a, b).Skill(s) <= b.Skill(s)
    ensures b.Skill(s) <= a.Skill(s) ==> b.Skill(s) <= Interpolated(a, b).Skill(s) <= a.Skill(s)
  {
    HundredthsOfHundredths(MeanHundredths(a.Skill(s), b.Skill(s)), DOWN);
  }

  /** Interpolation does not depend on the order of its arguments. */
  lemma InterpolatedSymmetric(a: Msd, b: Msd)
    requires a.Valid() && b.Valid()
    ensures Interpolated(a, b) == Interpolated(b, a)
  {
    forall i | 0 <= i < NumSkillsets
      ensures Interpolated(a, b).values[i] == Interpolated(b, a).values[i]
    {
      assert a.Skill(Skills[i]) + b.Skill(Skills[i]) == b.Skill(Skills[i]) + a.Skill(Skills[i]);
    }
  }

  /** Interpolating an MSD with itself leaves every skill as it reads. */
  lemma InterpolatedSelf(a: Msd, s: SkillSet)
    requires a.Valid()
    ensures Interpolated(a, a).Skill(s) == a.Skill(s)
  {
    InterpolatedSkill(a, a, s);
  }

  /** MSD.interpolateMSD: fill a new array skill by skill. */
  method InterpolateMsd(a: Msd, b: Msd) returns (r: Msd)
    requires a.Valid() && b.Valid()
    ensures r == Interpolated(a, b)
  {
    var interpolated := new real[NumSkillsets];
    for index := 0 to NumSkillsets
      invariant forall j :: 0 <= j < index ==> interpolated[j] == Interpolated(a, b).values[j]
    {
      var skill := Skills[index];
      interpolated[index] := MeanHundredths(a.Skill(skill), b.Skill(skill)) as real / 100.0;
    }
    r := Msd(interpolated[..]);
  }

  // ---------------------------------------------------------------------
  // Range tests and the best skill
  // ---------------------------------------------------------------------

  /** inRange(skill, min, max): the truncated value between the two bounds,
      both included. A bound that is not a number raises
      NumberFormatException. */
  function InRange(m: Msd, s: SkillSet, min: string, max: string): (r: Result<bool>)
    requires m.Valid()
    ensures r.Err? <==> ParseDecimal(min).None? || ParseDecimal(max).None?
    ensures r.Err? ==> r.thrown == NumberFormatException
  {
    match (ParseDecimal(min), ParseDecimal(max))
    case (Some(lo), Some(hi)) =>
      var sk := m.Skill(s) as real / 100.0;
      Ok(lo.Value() <= sk && sk <= hi.Value())
    case _ => Err(NumberFormatException)
  }

  /** Both bounds are inclusive: a skill lies in the range whose two ends
      are its own printed value, and in no range that ends a hundredth
      below it or starts a hundredth above it. */
  lemma InRangeInclusive(m: Msd, s: SkillSet, lo: int, hi: int)
    requires m.Valid()
    ensures InRange(m, s, PlainString(Dec(lo, 2)), PlainString(Dec(hi, 2))) == Ok(lo <= m.Skill(s) <= hi)
  {
    PlainStringRoundTrip(Dec(lo, 2));
    PlainStringRoundTrip(Dec(hi, 2));
    HundredthsValue(lo);
    HundredthsValue(hi);
  }

  /** inRange(): the overall value between 18 and 35 inclusive. */
  function OverallInRange(m: Msd): (r: Result<bool>)
    requires m.Valid()
    ensures r == Ok(1800 <= m.Skill(OVERALL) <= 3500)
  {
    OverallBounds();
    InRangeAt(m, OVERALL, "18", "35", Dec(18, 0), Dec(35, 0));
    InRange(m, OVERALL, "18", "35")
  }

  lemma OverallBounds()
    ensures ParseDecimal("18") == Some(Dec(18, 0)) && ParseDecimal("35") == Some(Dec(35, 0))
  {
    TwoDigitLiteral("18");
    TwoDigitLiteral("35");
  }

  lemma TwoDigitLiteral(s: string)
    requires |s| == 2 && AllDigits(s)
    ensures ParseDecimal(s) == Some(Dec(10 * DigitValue(s[0]) + DigitValue(s[1]), 0))
  {
    ParseDigitsOnly(s);
    assert s[..1][..0] == "" && s[..1][0] == s[0];
    assert DigitsValue(s[..1]) == DigitValue(s[0]);
  }

  lemma InRangeAt(m: Msd, s: SkillSet, min: string, max: string, lo: Dec, hi: Dec)
    requires m.Valid() && ParseDecimal(min) == Some(lo) && ParseDecimal(max) == Some(hi)
    ensures InRange(m, s, min, max) == Ok(lo.Value() <= m.Skill(s) as real / 100.0 <= hi.Value())
  {
  }

  /** The skills getBestSkill compares, in declaration order. */
  const Candidates: seq<SkillSet> := [STREAM, JUMP_STREAM, HAND_STREAM, JACKS, CHORDS, TECHNICAL]

  /** The index Stream.max keeps: the first of the largest values, since
      the reduction keeps the earlier element on a tie. */
  function MaxIndex(m: Msd, cs: seq<SkillSet>): (k: nat)
    requires m.Valid() && |cs| >= 1
    ensures k < |cs|
    ensures forall j :: 0 <= j < |cs| ==> m.Skill(cs[j]) <= m.Skill(cs[k])
    ensures forall j :: 0 <= j < k ==> m.Skill(cs[j]) < m.Skill(cs[k])
    decreases |cs|
  {
    if |cs| == 1 then 0
    else
      var k := MaxIndex(m, cs[..|cs| - 1]);
      if m.Skill(cs[k]) >= m.Skill(cs[|cs| - 1]) then k else |cs| - 1
  }

  /** getBestSkill: the highest skill other than OVERALL and STAMINA; on a
      tie, the one declared first. */
  function BestSkill(m: Msd): (s: SkillSet)
    requires m.Valid()
    ensures s != OVERALL && s != STAMINA
    ensures forall t: SkillSet :: t != OVERALL && t != STAMINA ==> m.Skill(t) <= m.Skill(s)
    ensures forall t: SkillSet :: t != OVERALL && t != STAMINA && t.Ordinal() < s.Ordinal() ==> m.Skill(t) < m.Skill(s)
  {
    var k := MaxIndex(m, Candidates);
    BestOfCandidates(m, k);
    Candidates[k]
  }

  /** Where each compared skill sits in `Candidates`. */
  function CandidateIndex(t: SkillSet): (j: nat)
    requires t != OVERALL && t != STAMINA
    ensures j < |Candidates| && Candidates[j] == t
  {
    if t.Ordinal() < 4 then t.Ordinal() - 1 else t.Ordinal() - 2
  }

  lemma BestOfCandidates(m: Msd, k: nat)
    requires m.Valid() && k == MaxIndex(m, Candidates)
    ensures forall t: SkillSet :: t != OVERALL && t != STAMINA ==> m.Skill(t) <= m.Skill(Candidates[k])
    ensures forall t: SkillSet :: t != OVERALL && t != STAMINA && t.Ordinal() < Candidates[k].Ordinal() ==>
      m.Skill(t) < m.Skill(Candidates[k])
  {
    forall t: SkillSet | t != OVERALL && t != STAMINA
      ensures m.Skill(t) <= m.Skill(Candidates[k])
      ensures t.Ordinal() < Candidates[k].Ordinal() ==> m.Skill(t) < m.Skill(Candidates[k])
    {
      var j := CandidateIndex(t);
      assert j < k <==> t.Ordinal() < Candidates[k].Ordinal();
    }
  }

  // ---------------------------------------------------------------------
  // Filter tags
  // ---------------------------------------------------------------------

  /** stripTrailingZeros, stopping at scale 0 (toPlainString prints a
      negative scale as the same integer). */
  function StripZeros(d: Dec): Dec
    decreases d.scale
  {
    if d.scale > 0 && d.unscaled % 10 == 0 then StripZeros(Dec(d.unscaled / 10, d.scale - 1))
    else d
  }

  /** Stripping keeps the value and leaves no trailing zero digit after
      the point. */
  lemma {:induction false} StripZerosValue(d: Dec)
    ensures StripZeros(d).Value() == d.Value()
    ensures StripZeros(d).scale <= d.scale
    ensures StripZeros(d).scale == 0 || StripZeros(d).unscaled % 10 != 0
    decreases d.scale
  {
    if d.scale > 0 && d.unscaled % 10 == 0 {
      StripZerosValue(Dec(d.unscaled / 10, d.scale - 1));
      DropZero(d);
    }
  }

  /** Dropping one trailing zero digit keeps the value. */
  lemma DropZero(d: Dec)
    requires d.scale > 0 && d.unscaled % 10 == 0
    ensures Dec(d.unscaled / 10, d.scale - 1).Value() == d.Value()
  {
    var q := d.unscaled / 10;
    var p := Pow10(d.scale - 1);
    assert Pow10(d.scale) == 10 * p;
    assert d.unscaled == 10 * q;
    assert d.unscaled as real / (10 * p) as real == q as real / p as real;
  }

  /** The printed step: rounded half up to two places, trailing zeros
      removed. */
  function ClampText(v: real): string {
    PlainString(StripZeros(Dec(RoundHalfUp(v * 100.0), 2)))
  }

  /** One comparison tag: how the overall value compares with the step,
      followed by the step's printed text `clamp`. */
  function Tag(overall: int, v: real, clamp: string): (t: string)
    ensures |t| >= 4 && t[..3] == "MSD"
  {
    var o := overall as real / 100.0;
    if o > v then "MSD>" + clamp
    else if o < v then "MSD<" + clamp
    else "MSD==" + clamp
  }

  /** The loop runs only while it moves toward the bound: a step that is
      not positive, with the start at or below the bound, never ends. */
  predicate Advancing(val: real, max: real, inc: real) {
    val <= max ==> inc > 0.0
  }

  /** The number of steps from `val` up to `max`. */
  function StepCount(val: real, max: real, inc: real): nat
    requires Advancing(val, max, inc)
  {
    if val <= max then
      assert (max - val) / inc >= 0.0;
      Floor((max - val) / inc) + 1
    else 0
  }

  lemma StepCountNext(val: real, max: real, inc: real)
    requires val <= max && inc > 0.0
    ensures StepCount(val + inc, max, inc) == StepCount(val, max, inc) - 1
  {
    DivMul(max - val, inc);
    if val + inc <= max {
      DivShift(max - val, inc);
      assert max - (val + inc) == (max - val) - inc;
    } else {
      DivBelowOne(max - val, inc);
    }
  }

  lemma DivMul(x: real, y: real)
    requires y != 0.0
    ensures (x / y) * y == x
  {
  }

  lemma DivBelowOne(x: real, y: real)
    requires y > 0.0 && x < y
    ensures x / y < 1.0
  {
    DivMul(x, y);
  }

  lemma DivShift(x: real, y: real)
    requires y > 0.0
    ensures (x - y) / y == x / y - 1.0
  {
    var a := x / y;
    var b := (x - y) / y;
    DivMul(x, y);
    DivMul(x - y, y);
    assert (a - 1.0 - b) * y == a * y - y - b * y;
    assert (a - 1.0 - b) * y == 0.0;
    ZeroProduct(a - 1.0 - b, y);
  }

  lemma ZeroProduct(p: real, y: real)
    requires y != 0.0 && p * y == 0.0
    ensures p == 0.0
  {
  }

  /** The values the loop compares with: val, val + inc, ... up to max. */
  function Steps(val: real, max: real, inc: real): (vs: seq<real>)
    requires Advancing(val, max, inc)
    decreases StepCount(val, max, inc)
  {
    if val > max then []
    else
      StepCountNext(val, max, inc);
      [val] + Steps(val + inc, max, inc)
  }

  /** One comparison tag per step, each step printed by `text`. */
  function StepTags(overall: int, steps: seq<real>, text: real -> string): (tags: seq<string>)
    ensures |tags| == |steps|
  {
    if steps == [] then []
    else
      var v := steps[|steps| - 1];
      StepTags(overall, steps[..|steps| - 1], text) + [Tag(overall, v, text(v))]
  }

  /** Tag k compares the overall value with step k. */
  lemma {:induction false} StepTagsAt(overall: int, steps: seq<real>, text: real -> string, k: nat)
    requires k < |steps|
    ensures StepTags(overall, steps, text)[k] == Tag(overall, steps[k], text(steps[k]))
    decreases |steps|
  {
    if k < |steps| - 1 {
      StepTagsAt(overall, steps[..|steps| - 1], text, k);
    }
  }

  /** Step k of the walk. */
  function StepValue(val: real, inc: real, k: nat): real {
    val + k as real * inc
  }

  lemma StepValueNext(val: real, inc: real, k: nat)
    ensures StepValue(val + inc, inc, k) == StepValue(val, inc, k + 1)
  {
    assert (k + 1) as real * inc == k as real * inc + inc;
  }

  /** The steps at or below the bound are exactly the first StepCount. */
  lemma {:induction false} StepCountBounds(val: real, max: real, inc: real)
    requires Advancing(val, max, inc)
    ensures forall k: nat :: k < StepCount(val, max, inc) ==> StepValue(val, inc, k) <= max
    ensures StepValue(val, inc, StepCount(val, max, inc)) > max
    decreases StepCount(val, max, inc)
  {
    var n := StepCount(val, max, inc);
    if val <= max {
      StepCountNext(val, max, inc);
      StepCountBounds(val + inc, max, inc);
      forall k: nat | k < n ensures StepValue(val, inc, k) <= max {
        if k > 0 {
          StepValueNext(val, inc, k - 1);
        }
      }
      StepValueNext(val, inc, n - 1);
    }
  }

  lemma StepTagsAppend(overall: int, done: seq<real>, text: real -> string, v: real)
    ensures StepTags(overall, done + [v], text) == StepTags(overall, done, text) + [Tag(overall, v, text(v))]
  {
    assert (done + [v])[..|done|] == done;
  }

  lemma StepsUnfold(val: real, max: real, inc: real)
    requires val <= max && inc > 0.0
    ensures Advancing(val + inc, max, inc)
    ensures Steps(val, max, inc) == [val] + Steps(val + inc, max, inc)
  {
  }

  /** There are StepCount steps. */
  lemma {:induction false} StepsLength(val: real, max: real, inc: real)
    requires Advancing(val, max, inc)
    ensures |Steps(val, max, inc)| == StepCount(val, max, inc)
    decreases StepCount(val, max, inc)
  {
    if val <= max {
      StepCountNext(val, max, inc);
      StepsLength(val + inc, max, inc);
    }
  }

  /** Step k is mi + k * inc. */
  lemma {:induction false} StepAt(val: real, max: real, inc: real, k: nat)
    requires Advancing(val, max, inc) && k < StepCount(val, max, inc)
    ensures |Steps(val, max, inc)| == StepCount(val, max, inc)
    ensures Steps(val, max, inc)[k] == StepValue(val, inc, k)
    decreases k
  {
    StepCountNext(val, max, inc);
    StepsLength(val, max, inc);
    if k > 0 {
      StepAt(val + inc, max, inc, k - 1);
      StepValueNext(val, inc, k - 1);
    }
  }

  /** The walk visits exactly the steps at or below the bound, in order. */
  lemma StepsAre(val: real, max: real, inc: real)
    requires Advancing(val, max, inc)
    ensures var vs := Steps(val, max, inc);
      (forall k: nat :: k < |vs| ==> vs[k] == StepValue(val, inc, k) && vs[k] <= max) &&
      StepValue(val, inc, |vs|) > max
  {
    StepCountBounds(val, max, inc);
    StepsLength(val, max, inc);
    forall k: nat | k < StepCount(val, max, inc)
      ensures Steps(val, max, inc)[k] == StepValue(val, inc, k)
    {
      StepAt(val, max, inc, k);
    }
  }

  /** The tags of getMsdFilterTag as written. The NaN entry is guarded by
      a reference comparison between getSkill's freshly scaled result and
      the NAN constant, which never holds, so it is never added. */
  function TagsAsWritten(m: Msd, val: real, max: real, inc: real): seq<string>
    requires m.Valid() && Advancing(val, max, inc)
  {
    StepTags(m.Skill(OVERALL), Steps(val, max, inc), ClampText) + [BestSkill(m).Acronym() + "!", "MSD>?"]
  }

  /** The tags with the NaN entry added when the overall value is the NaN
      marker, as the guard means to. */
  function Tags(m: Msd, val: real, max: real, inc: real): seq<string>
    requires m.Valid() && Advancing(val, max, inc)
  {
    StepTags(m.Skill(OVERALL), Steps(val, max, inc), ClampText)
      + (if m.Skill(OVERALL) == -100 then ["MSD==NaN"] else [])
      + [BestSkill(m).Acronym() + "!", "MSD>?"]
  }

  /** The tag list: one comparison per step, then the NaN entry when the
      overall value is NaN, then the best skill's acronym with '!', then
      "MSD>?". Apart from the NaN entry it is the list as written. */
  lemma TagsShape(m: Msd, val: real, max: real, inc: real)
    requires m.Valid() && Advancing(val, max, inc)
    ensures var tags := Tags(m, val, max, inc);
      var n := StepCount(val, max, inc) + (if m.Skill(OVERALL) == -100 then 1 else 0);
      |tags| == n + 2 &&
      (forall k: nat :: k < StepCount(val, max, inc) ==> tags[k] == Tag(m.Skill(OVERALL), StepValue(val, inc, k), ClampText(StepValue(val, inc, k)))) &&
      (m.Skill(OVERALL) == -100 ==> tags[n - 1] == "MSD==NaN") &&
      tags[n] == BestSkill(m).Acronym() + "!" && tags[n + 1] == "MSD>?"
    ensures m.Skill(OVERALL) != -100 ==> Tags(m, val, max, inc) == TagsAsWritten(m, val, max, inc)
  {
    StepsAre(val, max, inc);
    StepsLength(val, max, inc);
    var vs := Steps(val, max, inc);
    forall k: nat | k < |vs|
      ensures StepTags(m.Skill(OVERALL), vs, ClampText)[k] == Tag(m.Skill(OVERALL), StepValue(val, inc, k), ClampText(StepValue(val, inc, k)))
    {
      StepTagsAt(m.Skill(OVERALL), vs, ClampText, k);
    }
  }

  /** As written, a chart whose overall value is NaN still gets no
      "MSD==NaN" tag. */
  lemma NaNTagNeverWritten(m: Msd, val: real, max: real, inc: real)
    requires m.Valid() && Advancing(val, max, inc)
    ensures "MSD==NaN" !in TagsAsWritten(m, val, max, inc)
  {
    var o := m.Skill(OVERALL);
    var vs := Steps(val, max, inc);
    var steps := StepTags(o, vs, ClampText);
    forall k | 0 <= k < |steps| ensures steps[k] != "MSD==NaN" {
      StepTagsAt(o, vs, ClampText, k);
      StepTagNotNaN(o, vs[k]);
    }
    BestSkillNotNaN(m);
    NotNaNJoined(steps, BestSkill(m).Acronym() + "!", TagsAsWritten(m, val, max, inc));
  }

  /** No comparison tag reads "MSD==NaN": the printed step starts with a
      digit or a minus sign. */
  lemma StepTagNotNaN(o: int, v: real)
    ensures Tag(o, v, ClampText(v)) != "MSD==NaN"
  {
    var c := ClampText(v);
    PlainStringNumeral(StripZeros(Dec(RoundHalfUp(v * 100.0), 2)));
    var t := Tag(o, v, c);
    if o as real / 100.0 == v {
      assert t == "MSD==" + c;
      assert t[5] == c[0];
    } else {
      assert t[3] != '=';
    }
  }

  lemma BestSkillNotNaN(m: Msd)
    requires m.Valid()
    ensures BestSkill(m).Acronym() + "!" != "MSD==NaN"
  {
    var best := BestSkill(m).Acronym() + "!";
    assert best[|best| - 1] == '!';
  }

  lemma NotNaNJoined(steps: seq<string>, best: string, all: seq<string>)
    requires forall k | 0 <= k < |steps| :: steps[k] != "MSD==NaN"
    requires best != "MSD==NaN" && all == steps + [best, "MSD>?"]
    ensures "MSD==NaN" !in all
  {
    assert forall k | 0 <= k < |all| :: all[k] == (if k < |steps| then steps[k] else if k == |steps| then best else "MSD>?");
  }

  /** With the guard as meant, a NaN overall value yields the tag. */
  lemma NaNTagWhenNaN(m: Msd, val: real, max: real, inc: real)
    requires m.Valid() && Advancing(val, max, inc)
    requires m.values[OVERALL.Ordinal()] == NaN
    ensures "MSD==NaN" in Tags(m, val, max, inc)
  {
    TagsShape(m, val, max, inc);
  }

  /** The source loops forever when the step is not positive and the start
      is at or below the bound; those inputs are excluded. */
  predicate FilterTerminates(mi: string, ma: string, inc: string) {
    ParseDecimal(mi).Some? && ParseDecimal(ma).Some? && ParseDecimal(inc).Some? ==>
      Advancing(ParseDecimal(mi).value.Value(), ParseDecimal(ma).value.Value(), ParseDecimal(inc).value.Value())
  }

  /** getMsdFilterTag: the tags as written joined with commas; a bound or
      step that is not a number raises NumberFormatException. */
  function MsdFilterTag(m: Msd, mi: string, ma: string, inc: string): (r: Result<string>)
    requires m.Valid() && FilterTerminates(mi, ma, inc)
    ensures r.Err? <==> ParseDecimal(mi).None? || ParseDecimal(ma).None? || ParseDecimal(inc).None?
  {
    if ParseDecimal(mi).None? || ParseDecimal(ma).None? || ParseDecimal(inc).None? then
      Err(NumberFormatException)
    else
      var tags := TagsAsWritten(m, ParseDecimal(mi).value.Value(), ParseDecimal(ma).value.Value(), ParseDecimal(inc).value.Value());
      Ok(Join(tags, ","))
  }

  /** One turn of the loop keeps its invariant. */
  lemma CompareStep(overall: int, v: real, max: real, inc: real, text: real -> string,
                    goal: seq<real>, done: seq<real>, sj: seq<string>, clamp: string)
    requires v <= max && Advancing(v, max, inc)
    requires goal == done + Steps(v, max, inc) && sj == StepTags(overall, done, text) && clamp == text(v)
    ensures Advancing(v + inc, max, inc)
    ensures goal == (done + [v]) + Steps(v + inc, max, inc)
    ensures sj + [Tag(overall, v, clamp)] == StepTags(overall, done + [v], text)
    ensures |Steps(v + inc, max, inc)| < |Steps(v, max, inc)|
  {
    StepsUnfold(v, max, inc);
    StepsRegroup(goal, done, v, Steps(v, max, inc), Steps(v + inc, max, inc));
    StepTagsAppend(overall, done, text, v);
  }

  lemma StepsRegroup(goal: seq<real>, done: seq<real>, v: real, all: seq<real>, rest: seq<real>)
    requires goal == done + all && all == [v] + rest
    ensures goal == (done + [v]) + rest
  {
  }

  /** The loop of getMsdFilterTag: one comparison tag per step from val
      up to max, each step printed by `text`. */
  method CompareSteps(overall: int, val: real, max: real, inc: real, text: real -> string) returns (sj: seq<string>)
    requires Advancing(val, max, inc)
    ensures sj == StepTags(overall, Steps(val, max, inc), text)
  {
    ghost var goal := Steps(val, max, inc);
    ghost var done: seq<real> := [];
    sj := [];
    var v := val;
    while v <= max
      invariant Advancing(v, max, inc)
      invariant goal == done + Steps(v, max, inc)
      invariant sj == StepTags(overall, done, text)
      decreases |Steps(v, max, inc)|
    {
      var clamp := text(v);
      CompareStep(overall, v, max, inc, text, goal, done, sj, clamp);
      sj := sj + [Tag(overall, v, clamp)];
      done := done + [v];
      v := v + inc;
    }
    assert done == goal;
  }

  /** The closing entries after the comparison tags make the full list. */
  lemma TagsAssembled(m: Msd, val: real, max: real, inc: real, steps: seq<string>)
    requires m.Valid() && Advancing(val, max, inc)
    requires steps == StepTags(m.Skill(OVERALL), Steps(val, max, inc), ClampText)
    ensures TagsAsWritten(m, val, max, inc) == steps + [BestSkill(m).Acronym() + "!"] + ["MSD>?"]
  {
  }

  /** MSD.getMsdFilterTag: walk from mi to ma in steps of inc adding one
      comparison per step, each step rounded half up to two places with
      trailing zeros stripped, then the closing entries. The NaN entry's
      guard compares getSkill's fresh result with the NAN constant by
      reference, which never holds, so the entry is never added. */
  method GetMsdFilterTag(m: Msd, mi: string, ma: string, inc: string) returns (r: Result<string>)
    requires m.Valid() && FilterTerminates(mi, ma, inc)
    ensures r == MsdFilterTag(m, mi, ma, inc)
  {
    var overall := m.Skill(OVERALL);
    var max := ParseDecimal(ma);
    var increment := ParseDecimal(inc);
    var start := ParseDecimal(mi);
    if max.None? || increment.None? || start.None? {
      return Err(NumberFormatException);
    }
    var hi := max.value.Value();
    var step := increment.value.Value();
    var sj := CompareSteps(overall, start.value.Value(), hi, step, ClampText);
    TagsAssembled(m, start.value.Value(), hi, step, sj);
    sj := sj + [BestSkill(m).Acronym() + "!"];
    sj := sj + ["MSD>?"];
    return Ok(Join(sj, ","));
  }
}
