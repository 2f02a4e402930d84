/** EtternaTiming: the BPM changes of a chart, kept in start order, with
    the lookup of the BPM in force at a given beat, the rated copy, and
    the conversion of "t=v" pairs to BPMs. */
module EtternaTimings {
  import opened Wrappers
  import opened Decimals
  import opened Text
  import opened Vsrg

  // ---------------------------------------------------------------------
  // Start order and List.sort
  // ---------------------------------------------------------------------

  predicate SortedByStart(bs: seq<Bpm>) {
    forall i, j :: 0 <= i < j < |bs| ==> bs[i].start <= bs[j].start
  }

  /** The BPMs of `bs` that start at `v`, in list order. A stable sort by
      start keeps each of these subsequences as it was. */
  function StartingAt(bs: seq<Bpm>, v: real): (r: seq<Bpm>)
    ensures |r| <= |bs|
    ensures forall i :: 0 <= i < |r| ==> r[i].start == v
  {
    if bs == [] then []
    else StartingAt(bs[..|bs| - 1], v) + (if bs[|bs| - 1].start == v then [bs[|bs| - 1]] else [])
  }

  lemma {:induction false} StartingAtAppend(a: seq<Bpm>, b: seq<Bpm>, v: real)
    ensures StartingAt(a + b, v) == StartingAt(a, v) + StartingAt(b, v)
    decreases |b|
  {
    if b == [] {
      assert a + b == a;
    } else {
      assert (a + b)[..|a + b| - 1] == a + b[..|b| - 1];
      StartingAtAppend(a, b[..|b| - 1], v);
    }
  }

  lemma {:induction false} StartingAtNone(bs: seq<Bpm>, v: real)
    requires forall i :: 0 <= i < |bs| ==> bs[i].start != v
    ensures StartingAt(bs, v) == []
    decreases |bs|
  {
    if bs != [] {
      StartingAtNone(bs[..|bs| - 1], v);
    }
  }

  /** Where a stable insertion puts a BPM starting at v: after every BPM
      that starts at or before v. */
  function InsertionPoint(bs: seq<Bpm>, v: real): (k: nat)
    ensures k <= |bs|
    ensures forall i :: 0 <= i < k ==> bs[i].start <= v
    ensures k < |bs| ==> bs[k].start > v
  {
    if bs == [] || bs[0].start > v then 0 else 1 + InsertionPoint(bs[1..], v)
  }

  function Insert(bs: seq<Bpm>, b: Bpm): (r: seq<Bpm>)
    ensures |r| == |bs| + 1
  {
    var k := InsertionPoint(bs, b.start);
    bs[..k] + [b] + bs[k..]
  }

  lemma InsertSorted(bs: seq<Bpm>, b: Bpm)
    requires SortedByStart(bs)
    ensures SortedByStart(Insert(bs, b))
    ensures multiset(Insert(bs, b)) == multiset(bs) + multiset{b}
  {
    InsertOrder(bs, b);
    InsertSplit(bs, b);
    var k := InsertionPoint(bs, b.start);
    InsertCounts(bs, bs[..k], bs[k..], b, Insert(bs, b));
  }

  lemma InsertOrder(bs: seq<Bpm>, b: Bpm)
    requires SortedByStart(bs)
    ensures SortedByStart(Insert(bs, b))
  {
    var k := InsertionPoint(bs, b.start);
    var r := Insert(bs, b);
    InsertAt(bs, b);
    forall i, j | 0 <= i < j < |r| ensures r[i].start <= r[j].start {
      if j < k || k < i {
      } else if i == k {
        assert r[j] == bs[j - 1];
      } else if j == k {
        assert r[i] == bs[i];
      } else {
        assert r[i] == bs[i] && r[j] == bs[j - 1];
      }
    }
  }

  /** Where each element of the list lands after the insertion. */
  lemma InsertAt(bs: seq<Bpm>, b: Bpm)
    ensures var k := InsertionPoint(bs, b.start);
      forall i :: 0 <= i < |bs| + 1 ==>
        Insert(bs, b)[i] == if i < k then bs[i] else if i == k then b else bs[i - 1]
  {
    var k := InsertionPoint(bs, b.start);
    var r := Insert(bs, b);
    forall i | k < i < |bs| + 1 ensures r[i] == bs[i - 1] {
      assert r[i] == bs[k..][i - k - 1];
    }
  }

  lemma InsertCounts(bs: seq<Bpm>, pre: seq<Bpm>, post: seq<Bpm>, b: Bpm, r: seq<Bpm>)
    requires bs == pre + post && r == (pre + [b]) + post
    ensures multiset(r) == multiset(bs) + multiset{b}
  {
  }

  lemma StartingAtSingle(b: Bpm, v: real)
    ensures StartingAt([b], v) == if b.start == v then [b] else []
  {
    assert [b][..0] == [];
  }

  /** Inserting b adds b at the end of the BPMs starting at b's start, and
      leaves the BPMs starting anywhere else as they were. */
  lemma InsertStable(bs: seq<Bpm>, b: Bpm, v: real)
    requires SortedByStart(bs)
    ensures StartingAt(Insert(bs, b), v) == StartingAt(bs, v) + StartingAt([b], v)
  {
    var k := InsertionPoint(bs, b.start);
    var pre, post := bs[..k], bs[k..];
    InsertSplit(bs, b);
    StartingAtAppend(pre + [b], post, v);
    StartingAtAppend(pre, [b], v);
    StartingAtAppend(pre, post, v);
    StartingAtSingle(b, v);
    if b.start == v {
      AfterInsertionPoint(bs, b.start);
    }
    StableCore(StartingAt(bs, v), StartingAt(Insert(bs, b), v), StartingAt(pre, v),
               StartingAt(post, v), StartingAt([b], v), StartingAt(pre + [b], v));
  }

  lemma InsertSplit(bs: seq<Bpm>, b: Bpm)
    ensures var k := InsertionPoint(bs, b.start);
      bs == bs[..k] + bs[k..] && Insert(bs, b) == (bs[..k] + [b]) + bs[k..]
  {
  }

  /** The regrouping at the end of InsertStable: b's own share lands after
      the others' when nothing after it starts at v, and is empty
      otherwise. */
  lemma StableCore(all: seq<Bpm>, ins: seq<Bpm>, p: seq<Bpm>, q: seq<Bpm>, s: seq<Bpm>, ps: seq<Bpm>)
    requires all == p + q && ps == p + s && ins == ps + q && (q == [] || s == [])
    ensures ins == all + s
  {
    if q == [] {
      assert ins == p + s && all == p;
    } else {
      assert ins == p + q && all + s == p + q;
    }
  }

  /** Nothing after the insertion point of v starts at v. */
  lemma AfterInsertionPoint(bs: seq<Bpm>, v: real)
    requires SortedByStart(bs)
    ensures StartingAt(bs[InsertionPoint(bs, v)..], v) == []
  {
    var k := InsertionPoint(bs, v);
    var post := bs[k..];
    forall i | 0 <= i < |post| ensures post[i].start != v {
      assert post[i] == bs[k + i];
      assert bs[k].start <= bs[k + i].start;
    }
    StartingAtNone(post, v);
  }

  /** A BPM that starts no earlier than the whole sorted list goes last. */
  lemma InsertAtEnd(bs: seq<Bpm>, b: Bpm)
    requires SortedByStart(bs + [b])
    ensures Insert(bs, b) == bs + [b]
  {
    forall i | 0 <= i < |bs| ensures bs[i].start <= b.start {
      assert (bs + [b])[i] == bs[i] && (bs + [b])[|bs|] == b;
    }
    assert InsertionPoint(bs, b.start) == |bs|;
    assert bs[..|bs|] == bs;
  }

  // ---------------------------------------------------------------------
  // getLatest
  // ---------------------------------------------------------------------

  /** The start as getLatest compares it: floored to two decimal places. */
  function FlooredStart(b: Bpm): (s: real)
    ensures s <= b.start < s + 0.01
  {
    Floor(b.start * 100.0) as real / 100.0
  }

  predicate StartsBy(b: Bpm, t: real) {
    FlooredStart(b) <= t
  }

  /** The index of the last BPM whose floored start is not after t. */
  function LatestIndex(bs: seq<Bpm>, t: real): (r: Option<nat>)
    ensures r.Some? ==> r.value < |bs| && StartsBy(bs[r.value], t)
    ensures r.Some? ==> forall j :: r.value < j < |bs| ==> !StartsBy(bs[j], t)
    ensures r.None? ==> forall j :: 0 <= j < |bs| ==> !StartsBy(bs[j], t)
  {
    if bs == [] then None
    else if StartsBy(bs[|bs| - 1], t) then Some(|bs| - 1)
    else LatestIndex(bs[..|bs| - 1], t)
  }

  /** What getLatest yields: that BPM, or IllegalStateException. */
  function Latest(bs: seq<Bpm>, t: real): Result<Bpm> {
    match LatestIndex(bs, t)
    case Some(i) => Ok(bs[i])
    case None => Err(IllegalStateException)
  }

  /** Flooring keeps the start order, so on a sorted list the BPMs that
      start by t are a prefix: every BPM before the one getLatest picks
      starts by t as well, and none after it does. */
  lemma LatestPrefix(bs: seq<Bpm>, t: real)
    requires SortedByStart(bs)
    ensures LatestIndex(bs, t).Some? ==>
      forall j :: 0 <= j < |bs| ==> (StartsBy(bs[j], t) <==> j <= LatestIndex(bs, t).value)
  {
    if LatestIndex(bs, t).Some? {
      var i := LatestIndex(bs, t).value;
      forall j | 0 <= j <= i ensures StartsBy(bs[j], t) {
        FloorMonotone(bs[j].start * 100.0, bs[i].start * 100.0);
      }
    }
  }

  /** A later time never selects an earlier BPM. */
  lemma LatestMonotone(bs: seq<Bpm>, t1: real, t2: real)
    requires t1 <= t2 && LatestIndex(bs, t1).Some?
    ensures LatestIndex(bs, t2).Some? && LatestIndex(bs, t1).value <= LatestIndex(bs, t2).value
  {
  }

  // ---------------------------------------------------------------------
  // The timing object
  // ---------------------------------------------------------------------

  /** The BPMs of a timing played at `rate`: same starts, values scaled. */
  function RatedBpms(bs: seq<Bpm>, rate: real): (r: seq<Bpm>)
    ensures |r| == |bs|
    ensures forall i :: 0 <= i < |bs| ==> r[i].start == bs[i].start && r[i].value == bs[i].value * rate
  {
    seq(|bs|, i requires 0 <= i < |bs| => bs[i].Rated(rate))
  }

  /** One insertion of the constructor's sort: sorted stays sorted, holds
      the BPMs seen so far, keeps their order among equal starts, and
      grows by b at the end while the input is sorted. */
  lemma SortStep(sorted: seq<Bpm>, done: seq<Bpm>, b: Bpm)
    requires SortedByStart(sorted) && multiset(sorted) == multiset(done)
    requires forall v :: StartingAt(sorted, v) == StartingAt(done, v)
    ensures SortedByStart(Insert(sorted, b)) && multiset(Insert(sorted, b)) == multiset(done + [b])
    ensures forall v :: StartingAt(Insert(sorted, b), v) == StartingAt(done + [b], v)
    ensures sorted == done && SortedByStart(done + [b]) ==> Insert(sorted, b) == done + [b]
  {
    InsertSorted(sorted, b);
    forall v ensures StartingAt(Insert(sorted, b), v) == StartingAt(done + [b], v) {
      InsertStable(sorted, b, v);
      StartingAtAppend(done, [b], v);
    }
    if sorted == done && SortedByStart(done + [b]) {
      InsertAtEnd(sorted, b);
    }
  }

  lemma SortedPrefix(bs: seq<Bpm>, n: nat)
    requires SortedByStart(bs) && n <= |bs|
    ensures SortedByStart(bs[..n])
  {
    forall i, j | 0 <= i < j < n ensures bs[..n][i].start <= bs[..n][j].start {
      assert bs[..n][i] == bs[i] && bs[..n][j] == bs[j];
    }
  }

  class EtternaTiming {
    var bpms: seq<Bpm>

    /** The BPMs are in start order, as the constructor leaves them. */
    predicate Valid()
      reads this
    {
      SortedByStart(bpms)
    }

    /** new EtternaTiming(bpmList): the list sorted by start with List.sort,
        a stable sort, modelled as insertion one BPM at a time. The result
        is sorted, holds the same BPMs, keeps the order among BPMs with
        equal starts, and is the input itself when that is already sorted. */
    constructor (bpmList: seq<Bpm>)
      ensures Valid()
      ensures multiset(bpms) == multiset(bpmList)
      ensures forall v :: StartingAt(bpms, v) == StartingAt(bpmList, v)
      ensures SortedByStart(bpmList) ==> bpms == bpmList
    {
      var sorted: seq<Bpm> := [];
      for i := 0 to |bpmList|
        invariant SortedByStart(sorted)
        invariant multiset(sorted) == multiset(bpmList[..i])
        invariant forall v :: StartingAt(sorted, v) == StartingAt(bpmList[..i], v)
        invariant SortedByStart(bpmList) ==> sorted == bpmList[..i]
      {
        var b := bpmList[i];
        assert bpmList[..i + 1] == bpmList[..i] + [b];
        SortStep(sorted, bpmList[..i], b);
        if SortedByStart(bpmList) {
          SortedPrefix(bpmList, i + 1);
        }
        sorted := Insert(sorted, b);
      }
      assert bpmList[..|bpmList|] == bpmList;
      bpms := sorted;
    }

    /** getLatest: walk back from the last BPM to the first whose start,
        floored to two places, is not after curTime. */
    method GetLatest(curTime: real) returns (r: Result<Bpm>)
      ensures r == Latest(bpms, curTime)
    {
      var i := |bpms|;
      while i > 0
        invariant 0 <= i <= |bpms|
        invariant LatestIndex(bpms, curTime) == LatestIndex(bpms[..i], curTime)
      {
        i := i - 1;
        assert bpms[..i + 1][..i] == bpms[..i];
        if FlooredStart(bpms[i]) <= curTime {
          return Ok(bpms[i]);
        }
      }
      return Err(IllegalStateException);
    }

    /** rated: a new timing whose BPMs keep their starts and have their
        values multiplied by the rate, in the same order. */
    method Rated(rate: real) returns (r: EtternaTiming)
      requires Valid()
      ensures fresh(r) && r.Valid()
      ensures r.bpms == RatedBpms(bpms, rate)
    {
      var xs: seq<Bpm> := [];
      for i := 0 to |bpms|
        invariant |xs| == i
        invariant forall k :: 0 <= k < i ==> xs[k] == bpms[k].Rated(rate)
      {
        xs := xs + [bpms[i].Rated(rate)];
      }
      assert xs == RatedBpms(bpms, rate);
      assert SortedByStart(xs);
      r := new EtternaTiming(xs);
    }
  }

  // ---------------------------------------------------------------------
  // etternaTimingStrToBPM
  // ---------------------------------------------------------------------

  predicate IsEquals(c: char) { c == '=' }

  /** One pair: split at runs of '=', then the first piece and the second
      as BigDecimal, in that order. No piece at all, or no second piece,
      raises an index error; a piece that is not a number raises
      NumberFormatException. */
  function ParsePair(pair: string): (r: Result<Bpm>)
    ensures r.Ok? ==> |SplitRuns(pair, IsEquals)| >= 2
  {
    var parts := SplitRuns(pair, IsEquals);
    if |parts| == 0 then Err(IndexOutOfBoundsException)
    else match ParseDecimal(parts[0])
      case None => Err(NumberFormatException)
      case Some(t) =>
        if |parts| < 2 then Err(IndexOutOfBoundsException)
        else match ParseDecimal(parts[1])
          case None => Err(NumberFormatException)
          case Some(v) => Ok(Bpm(t.Value(), v.Value()))
  }

  function PairOutcomes(pairs: seq<string>): (rs: seq<Result<Bpm>>)
    ensures |rs| == |pairs|
    ensures forall i :: 0 <= i < |pairs| ==> rs[i] == ParsePair(pairs[i])
  {
    seq(|pairs|, i requires 0 <= i < |pairs| => ParsePair(pairs[i]))
  }

  /** The pairs converted in order; the first failure ends the conversion. */
  function ParsePairs(pairs: seq<string>): Result<seq<Bpm>> {
    Collect(PairOutcomes(pairs))
  }

  /** etternaTimingStrToBPM: one BPM per pair. */
  method EtternaTimingStrToBpm(etternaTiming: seq<string>) returns (r: Result<seq<Bpm>>)
    ensures r == ParsePairs(etternaTiming)
  {
    ghost var outcomes := PairOutcomes(etternaTiming);
    var xs: seq<Bpm> := [];
    for i := 0 to |etternaTiming|
      invariant Collect(outcomes[..i]) == Ok(xs)
    {
      var b := ParsePair(etternaTiming[i]);
      CollectStep(outcomes, i, xs);
      if b.Err? {
        return Err(b.thrown);
      }
      xs := xs + [b.value];
    }
    assert outcomes[..|etternaTiming|] == outcomes;
    return Ok(xs);
  }

  /** A successful conversion has one BPM per pair, pair i giving BPM i;
      the conversion fails exactly when some pair fails. */
  lemma ParsePairsShape(pairs: seq<string>)
    ensures ParsePairs(pairs).Ok? ==>
      |ParsePairs(pairs).value| == |pairs| &&
      forall i :: 0 <= i < |pairs| ==> ParsePair(pairs[i]) == Ok(ParsePairs(pairs).value[i])
    ensures ParsePairs(pairs).Err? <==> exists i :: 0 <= i < |pairs| && ParsePair(pairs[i]).Err?
  {
    CollectShape(PairOutcomes(pairs));
  }

  /** Writing a BPM's start and value with toPlainString around a '='
      and converting the pair gives the BPM back. */
  lemma ParsePairOfPlainStrings(t: Dec, v: Dec)
    ensures ParsePair(PlainString(t) + "=" + PlainString(v)) == Ok(Bpm(t.Value(), v.Value()))
  {
    var a, b := PlainString(t), PlainString(v);
    PlainStringNumeral(t);
    PlainStringNumeral(v);
    var ts := [a, b];
    assert Join(ts, "=") == a + "=" + b by {
      assert ts[1..] == [b];
    }
    forall i | 0 <= i < |ts|
      ensures |ts[i]| >= 1 && forall k :: 0 <= k < |ts[i]| ==> !IsEquals(ts[i][k])
    {
      assert ts[i] == a || ts[i] == b;
    }
    SplitRunsJoin(ts, '=', IsEquals);
    assert SplitRuns(a + "=" + b, IsEquals) == [a, b];
    PlainStringRoundTrip(t);
    PlainStringRoundTrip(v);
  }

  /** loadFromStr after its regular-expression scan: the matched pairs are
      converted, and no pair at all gives no timing (null). */
  method LoadFromPairs(pairs: seq<string>) returns (r: Result<EtternaTiming?>)
    ensures r.Err? <==> ParsePairs(pairs).Err?
    ensures r.Ok? ==> (r.value == null <==> pairs == [])
    ensures r.Ok? && r.value != null ==>
      fresh(r.value) && r.value.Valid() && multiset(r.value.bpms) == multiset(ParsePairs(pairs).value)
  {
    var xs := EtternaTimingStrToBpm(pairs);
    if xs.Err? {
      return Err(xs.thrown);
    }
    ParsePairsShape(pairs);
    if xs.value == [] {
      return Ok(null);
    }
    var timing := new EtternaTiming(xs.value);
    return Ok(timing);
  }
}
