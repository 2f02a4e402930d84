/** CacheStepsResult: one row of the Etterna cache database, holding the
    MSD of a chart at each of the fourteen rates 0.70, 0.80, ..., 2.00.
    Only the MSD list is modelled; the chart name, key and file name are
    plain strings the database fills in. */
module CacheStepsResults {
  import opened Wrappers
  import opened Decimals
  import opened Text
  import opened Msds

  /** The grid of cached rates, in hundredths: 0.70 to 2.00 by 0.10. */
  const SmallestRate := 70
  const LargestRate := 200
  const BaseIncrement := 10

  predicate AllValid(all: seq<Msd>) {
    forall i :: 0 <= i < |all| ==> all[i].Valid()
  }

  /** One parse per ':'-separated segment. */
  function MsdOutcomes(segments: seq<string>): (rs: seq<Result<Msd>>)
    ensures |rs| == |segments|
    ensures forall i :: 0 <= i < |segments| ==> rs[i] == MsdOfStr(segments[i])
  {
    seq(|segments|, i requires 0 <= i < |segments| => MsdOfStr(segments[i]))
  }

  /** The MSD column: one MSD per ':'-separated segment, in order; the
      first segment that is not an MSD decides the exception. */
  function AllRatesOfStr(raw: string): Result<seq<Msd>> {
    Collect(MsdOutcomes(SplitAt(raw, ':')))
  }

  /** A parsed column holds one valid MSD per segment, each the parse of
      its own segment; a column fails exactly when some segment does. */
  lemma AllRatesOfStrShape(raw: string)
    ensures var segments := SplitAt(raw, ':');
      AllRatesOfStr(raw).Ok? ==>
        |AllRatesOfStr(raw).value| == |segments| && AllValid(AllRatesOfStr(raw).value) &&
        forall i :: 0 <= i < |segments| ==> MsdOfStr(segments[i]) == Ok(AllRatesOfStr(raw).value[i])
    ensures AllRatesOfStr(raw).Err? <==>
      exists i :: 0 <= i < |SplitAt(raw, ':')| && MsdOfStr(SplitAt(raw, ':')[i]).Err?
  {
    var segments := SplitAt(raw, ':');
    var outcomes := MsdOutcomes(segments);
    CollectShape(outcomes);
    if AllRatesOfStr(raw).Ok? {
      forall i | 0 <= i < |segments| ensures AllRatesOfStr(raw).value[i].Valid() {
        assert outcomes[i] == Ok(AllRatesOfStr(raw).value[i]);
      }
    }
    if AllRatesOfStr(raw).Err? {
      var i :| 0 <= i < |outcomes| && outcomes[i].Err?;
      assert MsdOfStr(segments[i]).Err?;
    }
  }

  /** The list index the grid search stops at for a rate in hundredths:
      the rate's own slot when it lies on the grid, else the last slot
      (2.00), where the search gives up. */
  function RateIndex(h: int): (i: nat)
    ensures i < 14
  {
    if SmallestRate <= h <= LargestRate && (h - SmallestRate) % BaseIncrement == 0 then
      (h - SmallestRate) / BaseIncrement
    else 13
  }

  /** getMSDForRate on the stored list `all` (None when the list was never
      set): the rate, rounded half-even to two places, picks a slot of a
      fourteen-entry list and nothing otherwise. A rate that is not a
      number raises NumberFormatException; a missing list raises
      NullPointerException. */
  function MsdForRate(all: Option<seq<Msd>>, rateV: string): (r: Result<Option<Msd>>)
    ensures r.Err? <==> ParseDecimal(rateV).None? || all.None?
    ensures r.Ok? && r.value.Some? ==> r.value.value in all.value
  {
    match ParseDecimal(rateV)
    case None => Err(NumberFormatException)
    case Some(d) => MsdForValue(all, d)
  }

  /** getMSDForRate once the text has been read as the decimal `d`. */
  function MsdForValue(all: Option<seq<Msd>>, d: Dec): (r: Result<Option<Msd>>)
    ensures r.Err? <==> all.None?
    ensures r.Ok? && r.value.Some? ==> r.value.value in all.value
  {
    if all.None? then Err(NullPointerException)
    else if |all.value| != BaseIncrementSize then Ok(None)
    else Ok(Some(all.value[RateIndex(Hundredths(d.Value(), HALF_EVEN))]))
  }

  /** A list that is not fourteen long gives no MSD for any rate. */
  lemma MsdForRateWrongSize(all: seq<Msd>, rateV: string)
    requires |all| != BaseIncrementSize && ParseDecimal(rateV).Some?
    ensures MsdForRate(Some(all), rateV) == Ok(None)
  {
  }

  /** The rate 0.70 + 0.10 k, printed with two places, finds entry k. */
  lemma MsdForRateOnGrid(all: seq<Msd>, k: nat)
    requires |all| == BaseIncrementSize && k < BaseIncrementSize
    ensures MsdForRate(Some(all), PlainString(Dec(SmallestRate + BaseIncrement * k, 2))) == Ok(Some(all[k]))
  {
    PrintedHundredths(SmallestRate + BaseIncrement * k, HALF_EVEN);
    MsdForValueOnGrid(all, Dec(SmallestRate + BaseIncrement * k, 2), k);
  }

  /** A decimal of 0.70 + 0.10 k hundredths (rounded half-even) finds
      entry k. */
  lemma MsdForValueOnGrid(all: seq<Msd>, d: Dec, k: nat)
    requires |all| == BaseIncrementSize && k < BaseIncrementSize
    requires Hundredths(d.Value(), HALF_EVEN) == SmallestRate + BaseIncrement * k
    ensures MsdForValue(Some(all), d) == Ok(Some(all[k]))
  {
    var g := SmallestRate + BaseIncrement * k;
    assert RateIndex(g) == k by {
      assert (g - SmallestRate) % BaseIncrement == 0 && (g - SmallestRate) / BaseIncrement == k;
    }
  }

  /** Any other rate, however far off the grid, finds the 2.00 entry: the
      search only stops early on an exact match. */
  lemma MsdForRateOffGrid(all: seq<Msd>, rateV: string)
    requires |all| == BaseIncrementSize && ParseDecimal(rateV).Some?
    requires var h := Hundredths(ParseDecimal(rateV).value.Value(), HALF_EVEN);
      forall k: nat :: k < BaseIncrementSize ==> h != SmallestRate + BaseIncrement * k
    ensures MsdForRate(Some(all), rateV) == Ok(Some(all[13]))
  {
    var h := Hundredths(ParseDecimal(rateV).value.Value(), HALF_EVEN);
    var k := (h - SmallestRate) / BaseIncrement;
    if 0 <= k < BaseIncrementSize {
      assert h != SmallestRate + BaseIncrement * k;
    }
  }

  /** The text is read exactly and rounded half-even to two places, and
      every grid rate is an even number of hundredths, so a rate within
      half a hundredth of 0.70 + 0.10 k, ties included, finds entry k. */
  lemma MsdForRateNear(all: seq<Msd>, rateV: string, k: nat)
    requires |all| == BaseIncrementSize && k < BaseIncrementSize && ParseDecimal(rateV).Some?
    requires var g := (SmallestRate + BaseIncrement * k) as real / 100.0;
      g - 0.005 <= ParseDecimal(rateV).value.Value() <= g + 0.005
    ensures MsdForRate(Some(all), rateV) == Ok(Some(all[k]))
  {
    NearAt(all, rateV, ParseDecimal(rateV).value, k);
  }

  lemma NearAt(all: seq<Msd>, rateV: string, d: Dec, k: nat)
    requires |all| == BaseIncrementSize && k < BaseIncrementSize && ParseDecimal(rateV) == Some(d)
    requires var g := (SmallestRate + BaseIncrement * k) as real / 100.0;
      g - 0.005 <= d.Value() <= g + 0.005
    ensures MsdForRate(Some(all), rateV) == Ok(Some(all[k]))
  {
    NearIndex(d.Value(), k);
    ForRateAt(all, rateV, d, k);
  }

  /** A value within half a hundredth of grid rate k rounds half-even to
      that rate, whose index is k. */
  lemma NearIndex(x: real, k: nat)
    requires k < BaseIncrementSize
    requires var g := (SmallestRate + BaseIncrement * k) as real / 100.0;
      g - 0.005 <= x <= g + 0.005
    ensures RateIndex(Hundredths(x, HALF_EVEN)) == k
  {
    var g := SmallestRate + BaseIncrement * k;
    GridEven(k, g);
    ScaledBounds(x, g);
    HalfEvenNearEven(x * 100.0, g);
    OnGridIndex(g, k);
  }

  /** Every grid rate is an even number of hundredths. */
  lemma GridEven(k: nat, g: int)
    requires g == SmallestRate + BaseIncrement * k
    ensures g % 2 == 0
  {
    assert g == 2 * (35 + 5 * k);
  }

  lemma ScaledBounds(x: real, g: int)
    requires g as real / 100.0 - 0.005 <= x <= g as real / 100.0 + 0.005
    ensures g as real - 0.5 <= x * 100.0 <= g as real + 0.5
  {
  }

  class CacheStepsResult {
    /** msdForAllRates; None while the database has not set it. */
    var msdForAllRates: Option<seq<Msd>>

    /** Every stored MSD has its eight values. */
    predicate Valid()
      reads this
    {
      msdForAllRates.Some? ==> AllValid(msdForAllRates.value)
    }

    /** The no-argument constructor the database mapper uses: no list yet. */
    constructor ()
      ensures msdForAllRates == None && Valid()
    {
      msdForAllRates := None;
    }

    /** initMSDForAllRates: split the column on ':' and parse each segment;
        the list is stored only when every segment parses. */
    method InitMsdForAllRates(raw: string) returns (thrown: Option<Thrown>)
      modifies this
      ensures AllRatesOfStr(raw).Ok? ==> thrown == None && msdForAllRates == Some(AllRatesOfStr(raw).value)
      ensures AllRatesOfStr(raw).Err? ==>
        thrown == Some(AllRatesOfStr(raw).thrown) && msdForAllRates == old(msdForAllRates)
      ensures old(Valid()) ==> Valid()
    {
      var allRates := SplitAt(raw, ':');
      ghost var outcomes := MsdOutcomes(allRates);
      var pAllRates: seq<Msd> := [];
      for i := 0 to |allRates|
        invariant Collect(outcomes[..i]) == Ok(pAllRates)
        invariant msdForAllRates == old(msdForAllRates)
      {
        var msd := Msds.InitFromStr(allRates[i]);
        assert outcomes[i] == msd;
        CollectStep(outcomes, i, pAllRates);
        if msd.Err? {
          return Some(msd.thrown);
        }
        pAllRates := pAllRates + [msd.value];
      }
      assert outcomes[..|allRates|] == outcomes;
      AllRatesOfStrShape(raw);
      msdForAllRates := Some(pAllRates);
      return None;
    }

    /** getMSDForRate: round the rate half-even to two places, then count
        up the grid from 0.70 until the rate or 2.00 is reached. */
    method GetMsdForRate(rateV: string) returns (r: Result<Option<Msd>>)
      ensures r == MsdForRate(msdForAllRates, rateV)
    {
      var parsed := ParseDecimal(rateV);
      if parsed.None? {
        return Err(NumberFormatException);
      }
      var rate := Hundredths(parsed.value.Value(), HALF_EVEN);
      if msdForAllRates.None? {
        return Err(NullPointerException);
      }
      var all := msdForAllRates.value;
      if |all| == BaseIncrementSize {
        var i := 0;
        var count := SmallestRate;
        while count != rate && count != LargestRate
          invariant 0 <= i <= 13 && count == SmallestRate + BaseIncrement * i
          invariant forall j :: 0 <= j < i ==> SmallestRate + BaseIncrement * j != rate
          decreases LargestRate - count
        {
          count := count + BaseIncrement;
          i := i + 1;
        }
        if count != rate {
          OffGridIndex(rate, i);
        } else {
          OnGridIndex(rate, i);
        }
        if |all| > i {
          ForRateAt(all, rateV, parsed.value, i);
          return Ok(Some(all[i]));
        }
      }
      return Ok(None);
    }
  }

  /** The search meets a rate on the grid at its own slot. */
  lemma OnGridIndex(rate: int, i: nat)
    requires i <= 13 && rate == SmallestRate + BaseIncrement * i
    ensures RateIndex(rate) == i
  {
    assert rate - SmallestRate == BaseIncrement * i;
  }

  lemma ForRateAt(all: seq<Msd>, rateV: string, d: Dec, i: nat)
    requires ParseDecimal(rateV) == Some(d) && |all| == BaseIncrementSize
    requires i == RateIndex(Hundredths(d.Value(), HALF_EVEN))
    ensures MsdForRate(Some(all), rateV) == Ok(Some(all[i]))
  {
  }

  /** A search that reached 2.00 without meeting the rate has passed every
      slot, so the rate is not on the grid. */
  lemma OffGridIndex(rate: int, i: nat)
    requires i == 13
    requires forall j :: 0 <= j < i ==> SmallestRate + BaseIncrement * j != rate
    requires SmallestRate + BaseIncrement * i != rate
    ensures RateIndex(rate) == 13
  {
    var k := (rate - SmallestRate) / BaseIncrement;
    if 0 <= k <= i {
      assert SmallestRate + BaseIncrement * k != rate;
    }
  }
}
