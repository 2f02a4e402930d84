/** CachedNoteInfo: a timed chart paired with its row of the cache
    database. It answers MSD queries for any rate on the 0.05 grid (the
    cache holds the 0.10 grid; a rate halfway between two cached rates gets
    the mean of the two) and walks the rates 0.70, 0.75, ..., 2.00,
    re-timing the chart for each rate it hands on.

    Loading from a chart file and the database (`from`), the image and
    audio conversions and the handler itself are not modelled: the walk
    returns the (rate, MSD) pairs it would hand to the handler. */
module CachedNoteInfos {
  import opened Wrappers
  import opened Decimals
  import opened Msds
  import opened CacheStepsResults
  import opened EtternaTimings
  import opened EtternaNoteInfos

  /** FULL_RATE and HALF_RATE in hundredths. */
  const FullRate := 10
  const HalfRate := 5

  /** MIN_RATE: "0.70" read with one significant digit, so 0.7 at scale 1. */
  const MinRate := Dec(7, 1)
  /** HALF_RATE as added by the walk: 0.05 at scale 2. */
  const HalfStep := Dec(5, 2)
  /** MAX_RATE: 2. */
  const MaxRate := 2.0

  /** The number of rates the walk visits. */
  const RateCount := 27

  predicate CacheValid(all: Option<seq<Msd>>) {
    all.Some? ==> AllValid(all.value)
  }

  /** getMSDForRate: the rate rounded half-even to two places; a multiple
      of 0.10 is looked up in the cache with the caller's text, a multiple
      of 0.05 is the mean of its two neighbours when the cache has both,
      and any other rate raises IllegalStateException. A text that is not
      a number raises NumberFormatException. */
  function CachedMsdForRate(all: Option<seq<Msd>>, rate: string): (r: Result<Option<Msd>>)
    requires CacheValid(all)
    ensures ParseDecimal(rate).None? ==> r == Err(NumberFormatException)
  {
    match ParseDecimal(rate)
    case None => Err(NumberFormatException)
    case Some(d) => CachedForValue(all, d)
  }

  /** getMSDForRate once the text has been read as `d`. The neighbours
      0.05 below and above are printed and read back by the cache, which
      gives the same two-place decimals (PlainStringRoundTrip), so they
      are passed on as decimals here. */
  function CachedForValue(all: Option<seq<Msd>>, d: Dec): (r: Result<Option<Msd>>)
    requires CacheValid(all)
    ensures r.Ok? && r.value.Some? ==> r.value.value.Valid()
  {
    var h := Hundredths(d.Value(), HALF_EVEN);
    if h % FullRate == 0 then MsdForValue(all, d)
    else if h % HalfRate == 0 then
      var lower := MsdForValue(all, Dec(h - HalfRate, 2));
      var upper := MsdForValue(all, Dec(h + HalfRate, 2));
      if lower.Err? then Err(lower.thrown)
      else if lower.value.Some? && upper.Ok? && upper.value.Some? then
        Ok(Some(Interpolated(lower.value.value, upper.value.value)))
      else Ok(None)
    else Err(IllegalStateException)
  }

  /** The outcomes: NumberFormatException for text that is not a number,
      IllegalStateException off the 0.05 grid, NullPointerException on the
      grid without a cached list, nothing from a list that is not fourteen
      long, and on the 0.10 grid exactly the cache's answer. */
  lemma CachedOutcomes(all: Option<seq<Msd>>, d: Dec)
    requires CacheValid(all)
    ensures var h := Hundredths(d.Value(), HALF_EVEN);
      (h % HalfRate != 0 ==> CachedForValue(all, d) == Err(IllegalStateException)) &&
      (h % HalfRate == 0 && all.None? ==> CachedForValue(all, d) == Err(NullPointerException)) &&
      (h % HalfRate == 0 && all.Some? && |all.value| != BaseIncrementSize ==> CachedForValue(all, d) == Ok(None)) &&
      (h % FullRate == 0 ==> CachedForValue(all, d) == MsdForValue(all, d))
  {
    var h := Hundredths(d.Value(), HALF_EVEN);
    if h % FullRate == 0 {
      assert h % HalfRate == 0;
    }
  }

  /** The cached rate 0.70 + 0.10 k gives entry k. */
  lemma CachedOnGrid(all: seq<Msd>, k: nat)
    requires AllValid(all) && |all| == BaseIncrementSize && k < BaseIncrementSize
    ensures CachedMsdForRate(Some(all), PlainString(Dec(SmallestRate + BaseIncrement * k, 2))) == Ok(Some(all[k]))
  {
    var g := SmallestRate + BaseIncrement * k;
    PrintedHundredths(g, HALF_EVEN);
    OnGridValue(all, g, k);
    ParsedRate(Some(all), PlainString(Dec(g, 2)), Dec(g, 2));
  }

  /** getMSDForRate reads the text, then answers for its value. */
  lemma ParsedRate(all: Option<seq<Msd>>, rate: string, d: Dec)
    requires CacheValid(all) && ParseDecimal(rate) == Some(d)
    ensures CachedMsdForRate(all, rate) == CachedForValue(all, d)
  {
  }

  lemma OnGridValue(all: seq<Msd>, g: int, k: nat)
    requires AllValid(all) && |all| == BaseIncrementSize && k < BaseIncrementSize
    requires g == SmallestRate + BaseIncrement * k
    ensures CachedForValue(Some(all), Dec(g, 2)) == Ok(Some(all[k]))
  {
    PrintedHundredths(g, HALF_EVEN);
    GridMod(k);
    MsdForValueOnGrid(all, Dec(g, 2), k);
  }

  /** The rate 0.75 + 0.10 k, halfway between cached entries k and k + 1,
      gives their mean. */
  lemma CachedHalfGrid(all: seq<Msd>, k: nat)
    requires AllValid(all) && |all| == BaseIncrementSize && k + 1 < BaseIncrementSize
    ensures CachedMsdForRate(Some(all), PlainString(Dec(SmallestRate + HalfRate + BaseIncrement * k, 2)))
      == Ok(Some(Interpolated(all[k], all[k + 1])))
  {
    var h := SmallestRate + HalfRate + BaseIncrement * k;
    PrintedHundredths(h, HALF_EVEN);
    HalfGridValue(all, h, k);
  }

  lemma HalfGridValue(all: seq<Msd>, h: int, k: nat)
    requires AllValid(all) && |all| == BaseIncrementSize && k + 1 < BaseIncrementSize
    requires h == SmallestRate + HalfRate + BaseIncrement * k
    ensures CachedForValue(Some(all), Dec(h, 2)) == Ok(Some(Interpolated(all[k], all[k + 1])))
  {
    PrintedHundredths(h, HALF_EVEN);
    PrintedHundredths(h - HalfRate, HALF_EVEN);
    PrintedHundredths(h + HalfRate, HALF_EVEN);
    HalfGridMod(k);
    MsdForValueOnGrid(all, Dec(h - HalfRate, 2), k);
    MsdForValueOnGrid(all, Dec(h + HalfRate, 2), k + 1);
  }

  /** The cached rates are multiples of 0.10; the rates halfway between
      are multiples of 0.05 only. */
  lemma GridMod(k: nat)
    ensures (SmallestRate + BaseIncrement * k) % FullRate == 0
  {
    assert SmallestRate + BaseIncrement * k == 10 * (7 + k);
  }

  lemma HalfGridMod(k: nat)
    ensures (SmallestRate + HalfRate + BaseIncrement * k) % FullRate == 5
    ensures (SmallestRate + HalfRate + BaseIncrement * k) % HalfRate == 0
  {
    var h := SmallestRate + HalfRate + BaseIncrement * k;
    assert h == 10 * (7 + k) + 5;
    assert h / 10 == 7 + k;
    assert h == 5 * (15 + 2 * k);
    assert h / 5 == 15 + 2 * k;
  }

  /** Below the grid the lower neighbour is off the grid and so finds the
      2.00 entry: 0.65 is the mean of the 2.00 and 0.70 entries. */
  lemma CachedBelowGrid(all: seq<Msd>)
    requires AllValid(all) && |all| == BaseIncrementSize
    ensures CachedMsdForRate(Some(all), PlainString(Dec(65, 2))) == Ok(Some(Interpolated(all[13], all[0])))
  {
    PrintedHundredths(65, HALF_EVEN);
    PrintedHundredths(60, HALF_EVEN);
    PrintedHundredths(70, HALF_EVEN);
    assert RateIndex(60) == 13;
    MsdForValueOnGrid(all, Dec(70, 2), 0);
  }

  // ---------------------------------------------------------------------
  // The walk over the rates
  // ---------------------------------------------------------------------

  /** The k-th rate of the walk: 0.7 (scale 1), then 0.75, 0.80, ... at
      scale 2. */
  function RateAt(k: nat): Dec {
    if k == 0 then MinRate else Dec(SmallestRate + HalfRate * k, 2)
  }

  /** Rate k is 0.70 + 0.05 k. */
  lemma RateAtValue(k: nat)
    ensures RateAt(k).Value() == (SmallestRate + HalfRate * k) as real / 100.0
  {
    HundredthsValue(SmallestRate + HalfRate * k);
    assert Pow10(1) == 10;
  }

  /** The walk's step: adding 0.05 to rate k gives rate k + 1. */
  lemma RateAtNext(k: nat)
    ensures Add(RateAt(k), HalfStep) == RateAt(k + 1)
  {
    assert Pow10(1) == 10 && Pow10(0) == 1;
  }

  /** The rates rise from 0.70 to 2.00 and the next one is past MAX_RATE. */
  lemma RatesAscend()
    ensures forall k: nat :: k < RateCount ==> RateAt(k).Value() <= MaxRate
    ensures forall k: nat :: k + 1 < RateCount ==> RateAt(k).Value() < RateAt(k + 1).Value()
    ensures RateAt(0).Value() == 0.7 && RateAt(RateCount - 1).Value() == MaxRate
    ensures RateAt(RateCount).Value() > MaxRate
  {
    forall k: nat | k <= RateCount {
      RateAtValue(k);
    }
    RateAtValue(RateCount);
  }

  /** What the handler is given for one rate. */
  datatype RateCall = RateCall(rate: Dec, msd: Msd)

  /** The handler calls of the first n rates of the walk with the MSD
      condition `condition`: a rate whose lookup finds an MSD meeting the
      condition is handed on, other rates are skipped, and a lookup that
      raises ends the walk. */
  function CallsUpTo(all: Option<seq<Msd>>, condition: Msd -> bool, n: nat): Result<seq<RateCall>>
    requires CacheValid(all)
  {
    if n == 0 then Ok([])
    else match CallsUpTo(all, condition, n - 1)
      case Err(e) => Err(e)
      case Ok(cs) => CallAt(cs, CachedForValue(all, RateAt(n - 1)), condition, RateAt(n - 1))
  }

  /** The calls after one more lookup. */
  function CallAt(cs: seq<RateCall>, found: Result<Option<Msd>>, condition: Msd -> bool, rate: Dec): Result<seq<RateCall>> {
    match found
    case Err(e) => Err(e)
    case Ok(None) => Ok(cs)
    case Ok(Some(m)) => Ok(if condition(m) then cs + [RateCall(rate, m)] else cs)
  }

  /** Every handed-on MSD meets the condition, the rates come in walk order,
      and each MSD is what the lookup found for its rate. */
  lemma {:induction false} CallsMeetCondition(all: Option<seq<Msd>>, condition: Msd -> bool, n: nat)
    requires CacheValid(all)
    ensures CallsUpTo(all, condition, n).Ok? ==>
      var cs := CallsUpTo(all, condition, n).value;
      |cs| <= n &&
      forall i :: 0 <= i < |cs| ==>
        condition(cs[i].msd) &&
        exists k: nat :: k < n && cs[i].rate == RateAt(k) &&
          CachedForValue(all, RateAt(k)) == Ok(Some(cs[i].msd))
  {
    if n > 0 {
      CallsMeetCondition(all, condition, n - 1);
    }
  }

  /** A walk that has raised stays raised. */
  lemma {:induction false} CallsErrStays(all: Option<seq<Msd>>, condition: Msd -> bool, n: nat, m: nat)
    requires CacheValid(all) && n <= m && CallsUpTo(all, condition, n).Err?
    ensures CallsUpTo(all, condition, m) == CallsUpTo(all, condition, n)
    decreases m - n
  {
    if n < m {
      CallsErrStays(all, condition, n, m - 1);
    }
  }

  /** Calls made early are a prefix of the calls made later. */
  lemma {:induction false} CallsPrefix(all: Option<seq<Msd>>, condition: Msd -> bool, n: nat, m: nat)
    requires CacheValid(all) && n <= m && CallsUpTo(all, condition, m).Ok?
    ensures CallsUpTo(all, condition, n).Ok?
    ensures CallsUpTo(all, condition, n).value <= CallsUpTo(all, condition, m).value
    decreases m - n
  {
    if n < m {
      CallsPrefix(all, condition, n, m - 1);
    }
  }

  /** Without a cached list the first lookup raises NullPointerException. */
  lemma CallsWithoutCache(condition: Msd -> bool)
    ensures CallsUpTo(None, condition, RateCount) == Err(NullPointerException)
  {
    assert MinRate.Value() == 0.7 by { assert Pow10(1) == 10; }
    HundredthsOfHundredths(70, HALF_EVEN);
    assert CallsUpTo(None, condition, 1) == Err(NullPointerException);
    CallsErrStays(None, condition, 1, RateCount);
  }

  /** The MSD a full cache gives rate k of the walk: a cached entry on the
      0.10 grid, the mean of the two around it halfway between. */
  function Expected(all: seq<Msd>, k: nat): Msd
    requires AllValid(all) && |all| == BaseIncrementSize && k < RateCount
  {
    if k % 2 == 0 then all[k / 2] else Interpolated(all[k / 2], all[k / 2 + 1])
  }

  /** A full cache answers every rate of the walk. */
  lemma LookupAt(all: seq<Msd>, k: nat)
    requires AllValid(all) && |all| == BaseIncrementSize && k < RateCount
    ensures CachedForValue(Some(all), RateAt(k)) == Ok(Some(Expected(all, k)))
  {
    if k == 0 {
      LookupFirst(all);
    } else if k % 2 == 0 {
      var g := SmallestRate + BaseIncrement * (k / 2);
      EvenRate(k, g);
      OnGridValue(all, g, k / 2);
    } else {
      var h := SmallestRate + HalfRate + BaseIncrement * (k / 2);
      OddRate(k, h);
      HalfGridValue(all, h, k / 2);
    }
  }

  /** MIN_RATE is read at one place, and still finds entry 0. */
  lemma LookupFirst(all: seq<Msd>)
    requires AllValid(all) && |all| == BaseIncrementSize
    ensures CachedForValue(Some(all), MinRate) == Ok(Some(all[0]))
  {
    assert MinRate.Value() == 0.7 by { assert Pow10(1) == 10; }
    HundredthsOfHundredths(70, HALF_EVEN);
    MsdForValueOnGrid(all, MinRate, 0);
  }

  lemma EvenRate(k: nat, g: int)
    requires k > 0 && k % 2 == 0 && g == SmallestRate + BaseIncrement * (k / 2)
    ensures RateAt(k) == Dec(g, 2)
  {
    assert k == 2 * (k / 2);
  }

  lemma OddRate(k: nat, h: int)
    requires k % 2 == 1 && h == SmallestRate + HalfRate + BaseIncrement * (k / 2)
    ensures RateAt(k) == Dec(h, 2)
  {
    assert k == 2 * (k / 2) + 1;
  }

  /** With a full cache and a condition every MSD meets, the walk hands on
      all 27 rates in order, each with its cached or interpolated MSD. */
  lemma {:induction false} CallsWithFullCache(all: seq<Msd>, condition: Msd -> bool, n: nat)
    requires AllValid(all) && |all| == BaseIncrementSize && n <= RateCount
    requires forall m :: condition(m)
    ensures CallsUpTo(Some(all), condition, n) ==
      Ok(seq(n, k requires 0 <= k < n => RateCall(RateAt(k), Expected(all, k))))
  {
    if n > 0 {
      CallsWithFullCache(all, condition, n - 1);
      LookupAt(all, n - 1);
      assert seq(n, k requires 0 <= k < n => RateCall(RateAt(k), Expected(all, k))) ==
        seq(n - 1, k requires 0 <= k < n - 1 => RateCall(RateAt(k), Expected(all, k))) +
        [RateCall(RateAt(n - 1), Expected(all, n - 1))];
    }
  }

  /** The handler's condition in the one-argument forEachRate. */
  predicate Always(m: Msd) { true }

  class CachedNoteInfo {
    const cache: CacheStepsResult
    const info: EtternaNoteInfo

    constructor (cache: CacheStepsResult, info: EtternaNoteInfo)
      ensures this.cache == cache && this.info == info
    {
      this.cache := cache;
      this.info := info;
    }

    /** getMSDForRate: one cache lookup on the 0.10 grid, two and their
        mean halfway between. */
    method GetMsdForRate(rate: string) returns (r: Result<Option<Msd>>)
      requires cache.Valid()
      ensures r == CachedMsdForRate(cache.msdForAllRates, rate)
    {
      var parsed := ParseDecimal(rate);
      if parsed.None? {
        return Err(NumberFormatException);
      }
      var h := Hundredths(parsed.value.Value(), HALF_EVEN);
      if h % FullRate == 0 {
        r := cache.GetMsdForRate(rate);
        return;
      } else if h % HalfRate == 0 {
        PlainStringRoundTrip(Dec(h - HalfRate, 2));
        PlainStringRoundTrip(Dec(h + HalfRate, 2));
        var lower := cache.GetMsdForRate(PlainString(Dec(h - HalfRate, 2)));
        if lower.Err? {
          return Err(lower.thrown);
        }
        var upper := cache.GetMsdForRate(PlainString(Dec(h + HalfRate, 2)));
        if lower.value.Some? && upper.Ok? && upper.value.Some? {
          var m := InterpolateMsd(lower.value.value, upper.value.value);
          return Ok(Some(m));
        }
      } else {
        return Err(IllegalStateException);
      }
      return Ok(None);
    }

    /** forEachRate with a condition: for 0.70, 0.75, ..., 2.00, look the
        rate up; when an MSD is found and meets the condition, re-time the
        chart with the timing `normal` played at that rate and hand the
        rate and MSD on. A lookup or a re-timing that raises ends the walk.
        `normal` is the chart file's own timing, passed in. */
    method ForEachRateWhere(normal: EtternaTiming, condition: Msd -> bool)
      returns (calls: seq<RateCall>, thrown: Option<Thrown>)
      requires normal.Valid() && cache.Valid()
      modifies info
      ensures thrown.None? ==> CallsUpTo(cache.msdForAllRates, condition, RateCount) == Ok(calls)
      ensures CallsUpTo(cache.msdForAllRates, condition, RateCount).Err? ==> thrown.Some?
      ensures thrown.Some? && CallsUpTo(cache.msdForAllRates, condition, RateCount).Ok? ==>
        calls < CallsUpTo(cache.msdForAllRates, condition, RateCount).value
      ensures thrown.None? && calls != [] ==>
        info.curTimingInfo != null &&
        info.curTimingInfo.bpms == RatedBpms(normal.bpms, calls[|calls| - 1].rate.Value()) &&
        FullyTimed(info.curTimingInfo.bpms, info.measures)
      ensures calls == [] && thrown.None? ==>
        info.measures == old(info.measures) && info.curTimingInfo == old(info.curTimingInfo)
    {
      ghost var all := cache.msdForAllRates;
      calls := [];
      var v := MinRate;
      ghost var k: nat := 0;
      RatesAscend();
      while v.Value() <= MaxRate
        invariant k <= RateCount && v == RateAt(k)
        invariant CallsUpTo(all, condition, k) == Ok(calls)
        invariant calls != [] ==>
          info.curTimingInfo != null &&
          info.curTimingInfo.bpms == RatedBpms(normal.bpms, calls[|calls| - 1].rate.Value()) &&
          FullyTimed(info.curTimingInfo.bpms, info.measures)
        invariant calls == [] ==>
          info.measures == old(info.measures) && info.curTimingInfo == old(info.curTimingInfo)
        decreases RateCount - k
      {
        var next, t := VisitRate(normal, condition, v, k, calls);
        if t.Some? {
          return calls, t;
        }
        calls := next;
        RateAtNext(k);
        v := Add(v, HalfStep);
        k := k + 1;
      }
      assert k == RateCount;
      thrown := None;
    }

    /** One turn of the walk: look rate k up and, when an MSD is found and
        meets the condition, re-time the chart at that rate and hand the
        pair on. */
    method VisitRate(normal: EtternaTiming, condition: Msd -> bool, v: Dec, ghost k: nat, calls: seq<RateCall>)
      returns (next: seq<RateCall>, thrown: Option<Thrown>)
      requires normal.Valid() && cache.Valid() && k < RateCount && v == RateAt(k)
      requires CallsUpTo(cache.msdForAllRates, condition, k) == Ok(calls)
      modifies info
      ensures thrown.None? ==> CallsUpTo(cache.msdForAllRates, condition, k + 1) == Ok(next)
      ensures thrown.Some? && CallsUpTo(cache.msdForAllRates, condition, RateCount).Ok? ==>
        calls < CallsUpTo(cache.msdForAllRates, condition, RateCount).value
      ensures thrown.None? && next != calls ==>
        |next| > 0 && next[|next| - 1].rate == v &&
        info.curTimingInfo != null &&
        info.curTimingInfo.bpms == RatedBpms(normal.bpms, v.Value()) &&
        FullyTimed(info.curTimingInfo.bpms, info.measures)
      ensures thrown.None? && next == calls ==>
        info.measures == old(info.measures) && info.curTimingInfo == old(info.curTimingInfo)
    {
      ghost var all := cache.msdForAllRates;
      PlainStringRoundTrip(v);
      var found := GetMsdForRate(PlainString(v));
      if found.Err? {
        CallsErrStays(all, condition, k + 1, RateCount);
        return calls, Some(found.thrown);
      }
      next := calls;
      if found.value.Some? && condition(found.value.value) {
        var rated := normal.Rated(v.Value());
        ghost var before := info.measures;
        var t := info.TimeNotesWith(rated);
        if t.Some? {
          FailedCallIsPending(all, condition, k, calls, RateCall(v, found.value.value));
          return calls, t;
        }
        TimeNotesOutcome(before, rated.bpms);
        next := calls + [RateCall(v, found.value.value)];
      }
      thrown := None;
    }

    /** forEachRate: the walk with a condition every MSD meets. */
    method ForEachRate(normal: EtternaTiming) returns (calls: seq<RateCall>, thrown: Option<Thrown>)
      requires normal.Valid() && cache.Valid()
      modifies info
      ensures thrown.None? ==> CallsUpTo(cache.msdForAllRates, Always, RateCount) == Ok(calls)
      ensures CallsUpTo(cache.msdForAllRates, Always, RateCount).Err? ==> thrown.Some?
      ensures thrown.Some? && CallsUpTo(cache.msdForAllRates, Always, RateCount).Ok? ==>
        calls < CallsUpTo(cache.msdForAllRates, Always, RateCount).value
    {
      calls, thrown := ForEachRateWhere(normal, Always);
    }
  }

  /** When the re-timing for rate k raises, the calls so far fall short of
      the whole walk's calls, which include rate k's. */
  lemma FailedCallIsPending(all: Option<seq<Msd>>, condition: Msd -> bool, k: nat, calls: seq<RateCall>, next: RateCall)
    requires CacheValid(all) && k < RateCount
    requires CallsUpTo(all, condition, k) == Ok(calls)
    requires CallsUpTo(all, condition, k + 1) == Ok(calls + [next])
    ensures CallsUpTo(all, condition, RateCount).Ok? ==> calls < CallsUpTo(all, condition, RateCount).value
  {
    var whole := CallsUpTo(all, condition, RateCount);
    if whole.Ok? {
      CallsPrefix(all, condition, k + 1, RateCount);
      ShortOfExtended(calls, next, whole.value);
    }
  }

  lemma ShortOfExtended<T>(a: seq<T>, x: T, b: seq<T>)
    requires a + [x] <= b
    ensures a < b
  {
    assert |a| < |b|;
    assert a == (a + [x])[..|a|];
  }
}
