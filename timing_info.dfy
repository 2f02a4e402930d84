/** TimingInfo of the redone osu! builder: the timing points and hit
    objects of a chart, loaded from measures of rows of notes by two
    mappers, and rewritten in place afterwards.

    A mapper's `null` result is `Ok(None)`; a mapper that throws gives
    `Err`. The measures are measures of Etterna notes. */
module TimingInfos {
  import opened Wrappers
  import opened Decimals
  import opened Vsrg
  import opened NoteTypes
  import opened NoteRows
  import opened NoteMeasures
  import opened TimingPoints
  import opened HitObjects
  import opened Lists

  /** A row together with the measure it belongs to. */
  type Site = (NoteMeasure, NoteRow)
  /** A note together with its measure and row. */
  type NoteSite = (NoteMeasure, NoteRow, Note)

  type TimingPointMapper = (NoteRow, Option<Bpm>) -> Result<Option<TimingPoint>>
  type HitObjectMapper = (NoteMeasure, NoteRow, Note) -> Result<Option<HitObject>>

  /** The state of loadFromNotes between rows: the latest BPM and the two
      lists built so far. */
  datatype Loaded = Loaded(latest: Option<Bpm>, timingPoints: seq<TimingPoint>, hitObjects: seq<HitObject>)

  function Present<T>(o: Option<T>): seq<T> {
    if o.Some? then [o.value] else []
  }

  /** The rows of a measure, each with the measure. */
  function RowSites(m: NoteMeasure): (s: seq<Site>)
    ensures |s| == |m.rows|
  {
    seq(|m.rows|, j requires 0 <= j < |m.rows| => (m, m.rows[j]))
  }

  /** Every row of every measure, in order. */
  function Sites(ms: seq<NoteMeasure>): seq<Site> {
    if ms == [] then [] else Sites(ms[..|ms| - 1]) + RowSites(ms[|ms| - 1])
  }

  /** The notes of a row, each with its measure and row. */
  function NotesOf(m: NoteMeasure, row: NoteRow, notes: seq<Note>): (s: seq<NoteSite>)
    ensures |s| == |notes|
  {
    seq(|notes|, k requires 0 <= k < |notes| => (m, row, notes[k]))
  }

  /** Every note of every row, in order. */
  function NoteSites(sites: seq<Site>): seq<NoteSite> {
    if sites == [] then []
    else
      var s := sites[|sites| - 1];
      NoteSites(sites[..|sites| - 1]) + NotesOf(s.0, s.1, s.1.notes)
  }

  /** The note loop of one row: each mapped note that is not null is
      appended; the first mapper failure ends the load. */
  function AddNotes(hos: seq<HitObject>, m: NoteMeasure, row: NoteRow, notes: seq<Note>, hoMap: HitObjectMapper)
    : Result<seq<HitObject>>
  {
    if notes == [] then Ok(hos)
    else match AddNotes(hos, m, row, notes[..|notes| - 1], hoMap)
      case Err(e) => Err(e)
      case Ok(h) =>
        match hoMap(m, row, notes[|notes| - 1])
        case Err(e) => Err(e)
        case Ok(o) => Ok(h + Present(o))
  }

  /** The BPM check of one row (both BPMs known): a new value becomes the
      latest BPM and its mapped timing point, unless null, is appended. */
  function BpmStep(st: Loaded, row: NoteRow, tpMap: TimingPointMapper): Result<Loaded>
    requires st.latest.Some? && row.bpm.Some?
  {
    if st.latest.value.value == row.bpm.value.value then Ok(st)
    else match tpMap(row, row.bpm)
      case Err(e) => Err(e)
      case Ok(o) => Ok(Loaded(row.bpm, st.timingPoints + Present(o), st.hitObjects))
  }

  /** One row of the loop: comparing a null latest BPM or a null row BPM
      raises NullPointerException; then the BPM check, then the notes. */
  function RowStep(st: Loaded, s: Site, tpMap: TimingPointMapper, hoMap: HitObjectMapper): Result<Loaded> {
    if st.latest.None? || s.1.bpm.None? then Err(NullPointerException)
    else match BpmStep(st, s.1, tpMap)
      case Err(e) => Err(e)
      case Ok(st1) =>
        match AddNotes(st1.hitObjects, s.0, s.1, s.1.notes, hoMap)
        case Err(e) => Err(e)
        case Ok(h) => Ok(st1.(hitObjects := h))
  }

  /** The row loop over a list of rows. */
  function LoadSites(st: Loaded, sites: seq<Site>, tpMap: TimingPointMapper, hoMap: HitObjectMapper): Result<Loaded> {
    if sites == [] then Ok(st)
    else match LoadSites(st, sites[..|sites| - 1], tpMap, hoMap)
      case Err(e) => Err(e)
      case Ok(st1) => RowStep(st1, sites[|sites| - 1], tpMap, hoMap)
  }

  /** loadFromNotes: no measure, or an empty first measure, raises
      IndexOutOfBoundsException; the first row's BPM is the latest and its
      timing point comes first; then every row of every measure. */
  function LoadFromNotesSpec(ms: seq<NoteMeasure>, tpMap: TimingPointMapper, hoMap: HitObjectMapper): Result<Loaded> {
    if |ms| == 0 || |ms[0].rows| == 0 then Err(IndexOutOfBoundsException)
    else
      var row0 := ms[0].rows[0];
      match tpMap(row0, row0.bpm)
      case Err(e) => Err(e)
      case Ok(o) => LoadSites(Loaded(row0.bpm, Present(o), []), Sites(ms), tpMap, hoMap)
  }

  // ---------------------------------------------------------------------
  // The reference description: which mapper calls are made, and what is
  // kept of their results.

  /** The values of the successful non-null results, in order. */
  function Kept<T>(rs: seq<Result<Option<T>>>): seq<T> {
    if rs == [] then []
    else
      var last := rs[|rs| - 1];
      Kept(rs[..|rs| - 1]) + if last.Ok? then Present(last.value) else []
  }

  predicate AllOk<T>(rs: seq<Result<Option<T>>>) {
    forall i :: 0 <= i < |rs| ==> rs[i].Ok?
  }

  predicate AllTimed(sites: seq<Site>) {
    forall i :: 0 <= i < |sites| ==> sites[i].1.bpm.Some?
  }

  /** The BPM value of a row (0 for a row without one). */
  function Val(s: Site): real {
    if s.1.bpm.Some? then s.1.bpm.value.value else 0.0
  }

  /** The timing-point mapper results of a row loop that starts from BPM
      value `v`: a row whose BPM value differs from the previous row's
      (from `v` for the first) is mapped; the others give nothing. */
  function TpOutcomes(v: real, sites: seq<Site>, tpMap: TimingPointMapper): (rs: seq<Result<Option<TimingPoint>>>)
    ensures |rs| == |sites|
  {
    seq(|sites|, i requires 0 <= i < |sites| =>
      if Val(sites[i]) != (if i == 0 then v else Val(sites[i - 1])) then tpMap(sites[i].1, sites[i].1.bpm) else Ok(None))
  }

  /** The hit-object mapper result of every note. */
  function HoOutcomes(ns: seq<NoteSite>, hoMap: HitObjectMapper): (rs: seq<Result<Option<HitObject>>>)
    ensures |rs| == |ns|
  {
    seq(|ns|, i requires 0 <= i < |ns| => hoMap(ns[i].0, ns[i].1, ns[i].2))
  }

  lemma {:induction false} KeptAppend<T>(a: seq<Result<Option<T>>>, b: seq<Result<Option<T>>>)
    ensures Kept(a + b) == Kept(a) + Kept(b)
  {
    if b != [] {
      var b0 := b[..|b| - 1];
      var last := b[|b| - 1];
      var tail := if last.Ok? then Present(last.value) else [];
      KeptAppend(a, b0);
      assert (a + b)[..|a + b| - 1] == a + b0;
      assert (a + b)[|a + b| - 1] == last;
      calc {
        Kept(a + b);
        Kept(a + b0) + tail;
        Kept(a) + Kept(b0) + tail;
        Kept(a) + (Kept(b0) + tail);
        Kept(a) + Kept(b);
      }
    } else {
      assert a + b == a;
    }
  }

  lemma AllOkAppend<T>(a: seq<Result<Option<T>>>, b: seq<Result<Option<T>>>)
    ensures AllOk(a + b) <==> AllOk(a) && AllOk(b)
  {
    if AllOk(a) && AllOk(b) {
      forall i | 0 <= i < |a + b| ensures (a + b)[i].Ok? {
        if i >= |a| {
          assert (a + b)[i] == b[i - |a|];
        }
      }
    }
    if AllOk(a + b) {
      forall i | 0 <= i < |a| ensures a[i].Ok? {
        assert (a + b)[i] == a[i];
      }
      forall i | 0 <= i < |b| ensures b[i].Ok? {
        assert (a + b)[i + |a|] == b[i];
      }
    }
  }

  /** A value is kept exactly when some result is that value. */
  lemma {:induction false} KeptMembers<T>(rs: seq<Result<Option<T>>>, x: T)
    ensures x in Kept(rs) <==> exists i :: 0 <= i < |rs| && rs[i] == Ok(Some(x))
  {
    if rs != [] {
      var init := rs[..|rs| - 1];
      KeptMembers(init, x);
      if exists i :: 0 <= i < |init| && init[i] == Ok(Some(x)) {
        var i :| 0 <= i < |init| && init[i] == Ok(Some(x));
        assert rs[i] == Ok(Some(x));
      }
      if exists i :: 0 <= i < |rs| && rs[i] == Ok(Some(x)) {
        var i :| 0 <= i < |rs| && rs[i] == Ok(Some(x));
        if i < |init| {
          assert init[i] == Ok(Some(x));
        }
      }
    }
  }

  lemma HoOutcomesAppend(a: seq<NoteSite>, b: seq<NoteSite>, hoMap: HitObjectMapper)
    ensures HoOutcomes(a + b, hoMap) == HoOutcomes(a, hoMap) + HoOutcomes(b, hoMap)
  {
  }

  /** The note loop of a row succeeds exactly when the mapper succeeds on
      every note, and appends the non-null results in note order. */
  lemma {:induction false} AddNotesOutcome(hos: seq<HitObject>, m: NoteMeasure, row: NoteRow, notes: seq<Note>,
                                           hoMap: HitObjectMapper)
    ensures var rs := HoOutcomes(NotesOf(m, row, notes), hoMap);
      (AddNotes(hos, m, row, notes, hoMap).Ok? <==> AllOk(rs)) &&
      (AddNotes(hos, m, row, notes, hoMap).Ok? ==> AddNotes(hos, m, row, notes, hoMap).value == hos + Kept(rs))
  {
    if notes != [] {
      var init := notes[..|notes| - 1];
      AddNotesOutcome(hos, m, row, init, hoMap);
      var rs := HoOutcomes(NotesOf(m, row, notes), hoMap);
      var rs0 := HoOutcomes(NotesOf(m, row, init), hoMap);
      assert rs == rs0 + [rs[|rs| - 1]];
      KeptAppend(rs0, [rs[|rs| - 1]]);
      assert [rs[|rs| - 1]][..0] == [];
    }
  }

  /** One row: it succeeds exactly when both BPMs are known, the timing
      point mapper (when the value changed) and the note mapper succeed;
      the latest BPM value becomes the row's. */
  lemma RowStepOutcome(st: Loaded, s: Site, tpMap: TimingPointMapper, hoMap: HitObjectMapper)
    requires st.latest.Some?
    ensures var t := if Val(s) != st.latest.value.value then tpMap(s.1, s.1.bpm) else Ok(None);
      var hs := HoOutcomes(NotesOf(s.0, s.1, s.1.notes), hoMap);
      var r := RowStep(st, s, tpMap, hoMap);
      (r.Ok? <==> s.1.bpm.Some? && t.Ok? && AllOk(hs)) &&
      (r.Ok? ==>
        r.value.latest.Some? && r.value.latest.value.value == Val(s) &&
        r.value.timingPoints == st.timingPoints + Kept([t]) &&
        r.value.hitObjects == st.hitObjects + Kept(hs))
  {
    if s.1.bpm.Some? {
      var t := if Val(s) != st.latest.value.value then tpMap(s.1, s.1.bpm) else Ok(None);
      assert [t][..0] == [];
      match BpmStep(st, s.1, tpMap)
      case Err(_) =>
      case Ok(st1) =>
        AddNotesOutcome(st1.hitObjects, s.0, s.1, s.1.notes, hoMap);
    }
  }

  lemma TpOutcomesPrefix(v: real, sites: seq<Site>, tpMap: TimingPointMapper)
    requires sites != []
    ensures TpOutcomes(v, sites, tpMap) ==
      TpOutcomes(v, sites[..|sites| - 1], tpMap) + [TpOutcomes(v, sites, tpMap)[|sites| - 1]]
  {
    var a, b := TpOutcomes(v, sites, tpMap), TpOutcomes(v, sites[..|sites| - 1], tpMap);
    assert forall i :: 0 <= i < |b| ==> a[i] == b[i];
  }

  /** The row loop from a known BPM value `v` succeeds exactly when every
      row has a BPM and every mapper call it makes succeeds; it appends the
      non-null timing points of the rows where the BPM value changes and
      the non-null hit objects of all notes, both in order. */
  lemma {:induction false} LoadSitesOutcome(st: Loaded, sites: seq<Site>, tpMap: TimingPointMapper, hoMap: HitObjectMapper)
    requires st.latest.Some?
    ensures var v := st.latest.value.value;
      var tps := TpOutcomes(v, sites, tpMap);
      var hos := HoOutcomes(NoteSites(sites), hoMap);
      var r := LoadSites(st, sites, tpMap, hoMap);
      (r.Ok? <==> AllTimed(sites) && AllOk(tps) && AllOk(hos)) &&
      (r.Ok? ==>
        r.value.latest.Some? &&
        r.value.latest.value.value == (if sites == [] then v else Val(sites[|sites| - 1])) &&
        r.value.timingPoints == st.timingPoints + Kept(tps) &&
        r.value.hitObjects == st.hitObjects + Kept(hos))
  {
    if sites != [] {
      var v := st.latest.value.value;
      var init, s := sites[..|sites| - 1], sites[|sites| - 1];
      LoadSitesOutcome(st, init, tpMap, hoMap);
      var tps, tps0 := TpOutcomes(v, sites, tpMap), TpOutcomes(v, init, tpMap);
      TpOutcomesPrefix(v, sites, tpMap);
      TpOutcomesLast(v, sites, tpMap);
      var hs := HoOutcomes(NotesOf(s.0, s.1, s.1.notes), hoMap);
      HoOutcomesAppend(NoteSites(init), NotesOf(s.0, s.1, s.1.notes), hoMap);
      AllTimedAppend(sites);
      var r0 := LoadSites(st, init, tpMap, hoMap);
      if r0.Ok? {
        RowStepOutcome(r0.value, s, tpMap, hoMap);
      }
      LoadSitesCore(st, r0, LoadSites(st, sites, tpMap, hoMap), AllTimed(init), AllTimed(sites), s.1.bpm.Some?,
                    tps0, tps[|tps| - 1], tps, HoOutcomes(NoteSites(init), hoMap), hs,
                    HoOutcomes(NoteSites(sites), hoMap), Val(s));
    }
  }

  /** The last timing-point outcome compares the last row's BPM value with
      the one before it. */
  lemma TpOutcomesLast(v: real, sites: seq<Site>, tpMap: TimingPointMapper)
    requires sites != []
    ensures var n := |sites| - 1;
      var prev := if n == 0 then v else Val(sites[..n][n - 1]);
      TpOutcomes(v, sites, tpMap)[n] ==
        if Val(sites[n]) != prev then tpMap(sites[n].1, sites[n].1.bpm) else Ok(None)
  {
  }

  lemma AllTimedAppend(sites: seq<Site>)
    requires sites != []
    ensures AllTimed(sites) <==> AllTimed(sites[..|sites| - 1]) && sites[|sites| - 1].1.bpm.Some?
  {
  }

  /** The step of LoadSitesOutcome: the outcome on all rows from the
      outcome on all but the last (`r0`) and that of the last row. */
  lemma LoadSitesCore(st: Loaded, r0: Result<Loaded>, r: Result<Loaded>, timed0: bool, timed: bool, bpm: bool,
                      tps0: seq<Result<Option<TimingPoint>>>, t: Result<Option<TimingPoint>>,
                      tps: seq<Result<Option<TimingPoint>>>,
                      hos0: seq<Result<Option<HitObject>>>, hs: seq<Result<Option<HitObject>>>,
                      hos: seq<Result<Option<HitObject>>>, last: real)
    requires timed == (timed0 && bpm) && tps == tps0 + [t] && hos == hos0 + hs
    requires r0.Ok? <==> timed0 && AllOk(tps0) && AllOk(hos0)
    requires r0.Ok? ==>
      r0.value.timingPoints == st.timingPoints + Kept(tps0) && r0.value.hitObjects == st.hitObjects + Kept(hos0)
    requires r0.Err? ==> r.Err?
    requires r0.Ok? ==>
      (r.Ok? <==> bpm && t.Ok? && AllOk(hs)) &&
      (r.Ok? ==>
        r.value.latest.Some? && r.value.latest.value.value == last &&
        r.value.timingPoints == r0.value.timingPoints + Kept([t]) &&
        r.value.hitObjects == r0.value.hitObjects + Kept(hs))
    ensures r.Ok? <==> timed && AllOk(tps) && AllOk(hos)
    ensures r.Ok? ==>
      r.value.latest.Some? && r.value.latest.value.value == last &&
      r.value.timingPoints == st.timingPoints + Kept(tps) &&
      r.value.hitObjects == st.hitObjects + Kept(hos)
  {
    AllOkAppend(tps0, [t]);
    AllOkAppend(hos0, hs);
    AllOkOne(t);
    LoadSitesSucceeds(r0.Ok?, r.Ok?, timed0, timed, bpm, AllOk(tps0), t.Ok?, AllOk(tps), AllOk(hos0), AllOk(hs), AllOk(hos));
    if r.Ok? {
      KeptAppend(tps0, [t]);
      KeptAppend(hos0, hs);
      LoadSitesKept(st.timingPoints, r0.value.timingPoints, r.value.timingPoints, Kept(tps0), Kept([t]), Kept(tps));
      LoadSitesKept(st.hitObjects, r0.value.hitObjects, r.value.hitObjects, Kept(hos0), Kept(hs), Kept(hos));
    }
  }

  lemma KeptOne<T>(t: Result<Option<T>>)
    ensures Kept([t]) == if t.Ok? then Present(t.value) else []
  {
    assert [t][..0] == [];
  }

  lemma AllOkOne<T>(t: Result<Option<T>>)
    ensures AllOk([t]) <==> t.Ok?
  {
    assert [t][0] == t;
  }

  /** The success half of LoadSitesCore, over truth values. */
  lemma LoadSitesSucceeds(ok0: bool, ok: bool, timed0: bool, timed: bool, bpm: bool,
                          tps0: bool, t: bool, tps: bool, hos0: bool, hs: bool, hos: bool)
    requires timed == (timed0 && bpm) && tps == (tps0 && t) && hos == (hos0 && hs)
    requires ok0 == (timed0 && tps0 && hos0) && (!ok0 ==> !ok) && (ok0 ==> (ok == (bpm && t && hs)))
    ensures ok == (timed && tps && hos)
  {
  }

  /** The kept half of LoadSitesCore. */
  lemma LoadSitesKept<T>(base: seq<T>, mid: seq<T>, end: seq<T>, k0: seq<T>, k1: seq<T>, k: seq<T>)
    requires mid == base + k0 && end == mid + k1 && k == k0 + k1
    ensures end == base + k
  {
  }

  /** Once the loop has failed on a prefix of the rows, it fails with the
      same exception. */
  lemma {:induction false} LoadSitesStops(st: Loaded, sites: seq<Site>, n: nat, tpMap: TimingPointMapper,
                                          hoMap: HitObjectMapper)
    requires n <= |sites| && LoadSites(st, sites[..n], tpMap, hoMap).Err?
    ensures LoadSites(st, sites, tpMap, hoMap) == LoadSites(st, sites[..n], tpMap, hoMap)
    decreases |sites| - n
  {
    if n == |sites| {
      assert sites[..n] == sites;
    } else {
      assert sites[..n + 1][..n] == sites[..n];
      LoadSitesStops(st, sites, n + 1, tpMap, hoMap);
    }
  }

  /** The rows of the first i + 1 measures are those of the first i, then
      the rows of measure i; and they begin the rows of all measures. */
  lemma SitesStep(ms: seq<NoteMeasure>, i: nat)
    requires i < |ms|
    ensures Sites(ms[..i + 1]) == Sites(ms[..i]) + RowSites(ms[i])
  {
    assert ms[..i + 1][..i] == ms[..i];
  }

  lemma {:induction false} SitesPrefix(ms: seq<NoteMeasure>, i: nat)
    requires i <= |ms|
    ensures |Sites(ms[..i])| <= |Sites(ms)| && Sites(ms)[..|Sites(ms[..i])|] == Sites(ms[..i])
    decreases |ms| - i
  {
    if i == |ms| {
      assert ms[..i] == ms;
    } else {
      SitesPrefix(ms, i + 1);
      SitesStep(ms, i);
    }
  }

  /** The first row of all is the first row of the first measure. */
  lemma {:induction false} SitesFirst(ms: seq<NoteMeasure>)
    requires |ms| > 0 && |ms[0].rows| > 0
    ensures |Sites(ms)| > 0 && Sites(ms)[0] == (ms[0], ms[0].rows[0])
  {
    if |ms| > 1 {
      SitesFirst(ms[..|ms| - 1]);
    } else {
      assert ms[..0] == [];
    }
  }

  /** With no latest BPM the first row already fails. */
  lemma {:induction false} LoadSitesUnknownBpm(st: Loaded, sites: seq<Site>, tpMap: TimingPointMapper, hoMap: HitObjectMapper)
    requires st.latest.None? && sites != []
    ensures LoadSites(st, sites, tpMap, hoMap) == Err(NullPointerException)
  {
    var init := sites[..|sites| - 1];
    if init != [] {
      LoadSitesUnknownBpm(st, init, tpMap, hoMap);
    }
  }

  /** loadFromNotes succeeds exactly when there is a first row with a BPM,
      every row has a BPM and every mapper call succeeds. Its timing points
      are then the first row's, followed by those of each row whose BPM
      value differs from the previous row's, nulls dropped (the first row
      itself never adds a second one); its hit objects are the non-null
      mappings of all notes in measure, row and note order. */
  lemma LoadFromNotesOutcome(ms: seq<NoteMeasure>, tpMap: TimingPointMapper, hoMap: HitObjectMapper)
    ensures var r := LoadFromNotesSpec(ms, tpMap, hoMap);
      (r.Ok? <==>
        |ms| > 0 && |ms[0].rows| > 0 && ms[0].rows[0].bpm.Some? &&
        var row0 := ms[0].rows[0];
        var v := row0.bpm.value.value;
        tpMap(row0, row0.bpm).Ok? && AllTimed(Sites(ms)) &&
        AllOk(TpOutcomes(v, Sites(ms), tpMap)) && AllOk(HoOutcomes(NoteSites(Sites(ms)), hoMap))) &&
      (r.Ok? ==>
        var row0 := ms[0].rows[0];
        var v := row0.bpm.value.value;
        |Sites(ms)| > 0 && TpOutcomes(v, Sites(ms), tpMap)[0] == Ok(None) &&
        r.value.timingPoints == Kept([tpMap(row0, row0.bpm)]) + Kept(TpOutcomes(v, Sites(ms), tpMap)) &&
        r.value.hitObjects == Kept(HoOutcomes(NoteSites(Sites(ms)), hoMap)))
  {
    if |ms| > 0 && |ms[0].rows| > 0 {
      var row0 := ms[0].rows[0];
      SitesFirst(ms);
      match tpMap(row0, row0.bpm)
      case Err(_) =>
      case Ok(o) =>
        var st := Loaded(row0.bpm, Present(o), []);
        KeptOne(tpMap(row0, row0.bpm));
        if row0.bpm.None? {
          LoadSitesUnknownBpm(st, Sites(ms), tpMap, hoMap);
        } else {
          LoadSitesOutcome(st, Sites(ms), tpMap, hoMap);
        }
    }
  }

  /** TimingInfo: the two lists, replaced element by element in place. */
  class TimingInfo {
    var timingPoints: seq<TimingPoint>
    var hitObjects: seq<HitObject>

    constructor (tps: seq<TimingPoint>, hos: seq<HitObject>)
      ensures timingPoints == tps && hitObjects == hos
    {
      timingPoints, hitObjects := tps, hos;
    }

    /** replaceTimingPoints(filter, action): each point passing the filter
        is set to the action's result, index by index. */
    method ReplaceTimingPoints(filter: TimingPoint -> bool, action: TimingPoint -> TimingPoint)
      modifies this
      ensures timingPoints == Rewritten(old(timingPoints), filter, action)
      ensures hitObjects == old(hitObjects)
    {
      RewrittenAt(timingPoints, filter, action);
      for i := 0 to |timingPoints|
        invariant |timingPoints| == |old(timingPoints)| && hitObjects == old(hitObjects)
        invariant forall k :: 0 <= k < i ==>
          timingPoints[k] == Rewritten(old(timingPoints), filter, action)[k]
        invariant forall k :: i <= k < |timingPoints| ==> timingPoints[k] == old(timingPoints)[k]
      {
        var tp := timingPoints[i];
        if filter(tp) {
          timingPoints := timingPoints[i := action(tp)];
        }
      }
    }

    /** replaceHitObjects(filter, action). */
    method ReplaceHitObjects(filter: HitObject -> bool, action: HitObject -> HitObject)
      modifies this
      ensures hitObjects == Rewritten(old(hitObjects), filter, action)
      ensures timingPoints == old(timingPoints)
    {
      RewrittenAt(hitObjects, filter, action);
      for i := 0 to |hitObjects|
        invariant |hitObjects| == |old(hitObjects)| && timingPoints == old(timingPoints)
        invariant forall k :: 0 <= k < i ==>
          hitObjects[k] == Rewritten(old(hitObjects), filter, action)[k]
        invariant forall k :: i <= k < |hitObjects| ==> hitObjects[k] == old(hitObjects)[k]
      {
        var h := hitObjects[i];
        if filter(h) {
          hitObjects := hitObjects[i := action(h)];
        }
      }
    }
  }

  /** One row of the loop, as loadFromNotes runs it. */
  method LoadRow(st: Loaded, s: Site, tpMap: TimingPointMapper, hoMap: HitObjectMapper) returns (r: Result<Loaded>)
    ensures r == RowStep(st, s, tpMap, hoMap)
  {
    var (m, row) := s;
    if st.latest.None? || row.bpm.None? {
      return Err(NullPointerException);
    }
    var latest, tps := st.latest, st.timingPoints;
    if latest.value.value != row.bpm.value.value {
      latest := row.bpm;
      var tp := tpMap(row, latest);
      if tp.Err? {
        return Err(tp.thrown);
      }
      tps := tps + Present(tp.value);
    }
    var hos := st.hitObjects;
    for k := 0 to |row.notes|
      invariant AddNotes(st.hitObjects, m, row, row.notes[..k], hoMap) == Ok(hos)
    {
      assert row.notes[..k + 1][..k] == row.notes[..k];
      var h := hoMap(m, row, row.notes[k]);
      if h.Err? {
        AddNotesStops(st.hitObjects, m, row, row.notes, k + 1, hoMap);
        return Err(h.thrown);
      }
      hos := hos + Present(h.value);
    }
    assert row.notes[..|row.notes|] == row.notes;
    return Ok(Loaded(latest, tps, hos));
  }

  lemma {:induction false} AddNotesStops(hos: seq<HitObject>, m: NoteMeasure, row: NoteRow, notes: seq<Note>, n: nat,
                                         hoMap: HitObjectMapper)
    requires n <= |notes| && AddNotes(hos, m, row, notes[..n], hoMap).Err?
    ensures AddNotes(hos, m, row, notes, hoMap) == AddNotes(hos, m, row, notes[..n], hoMap)
    decreases |notes| - n
  {
    if n == |notes| {
      assert notes[..n] == notes;
    } else {
      assert notes[..n + 1][..n] == notes[..n];
      AddNotesStops(hos, m, row, notes, n + 1, hoMap);
    }
  }

  /** loadFromNotes: the measures' rows in order, each row's BPM check and
      notes; the result is a new TimingInfo holding the two lists. */
  method LoadFromNotes(ms: seq<NoteMeasure>, tpMap: TimingPointMapper, hoMap: HitObjectMapper)
    returns (r: Result<TimingInfo>)
    ensures LoadFromNotesSpec(ms, tpMap, hoMap).Err? ==> r == Err(LoadFromNotesSpec(ms, tpMap, hoMap).thrown)
    ensures LoadFromNotesSpec(ms, tpMap, hoMap).Ok? ==>
      r.Ok? && fresh(r.value) &&
      r.value.timingPoints == LoadFromNotesSpec(ms, tpMap, hoMap).value.timingPoints &&
      r.value.hitObjects == LoadFromNotesSpec(ms, tpMap, hoMap).value.hitObjects
  {
    if |ms| == 0 || |ms[0].rows| == 0 {
      return Err(IndexOutOfBoundsException);
    }
    var row0 := ms[0].rows[0];
    var tp0 := tpMap(row0, row0.bpm);
    if tp0.Err? {
      return Err(tp0.thrown);
    }
    var init := Loaded(row0.bpm, Present(tp0.value), []);
    FromFirstRow(ms, tpMap, hoMap, init);
    var st := init;
    for i := 0 to |ms|
      invariant LoadSites(init, Sites(ms[..i]), tpMap, hoMap) == Ok(st)
    {
      var m := ms[i];
      var done := Sites(ms[..i]);
      assert done + RowSites(m)[..0] == done;
      for j := 0 to |m.rows|
        invariant LoadSites(init, done + RowSites(m)[..j], tpMap, hoMap) == Ok(st)
      {
        var next := LoadRow(st, (m, m.rows[j]), tpMap, hoMap);
        LoadSitesExtend(init, done, RowSites(m), j, st, next, tpMap, hoMap);
        if next.Err? {
          RowFails(ms, i, j, init, tpMap, hoMap);
          return Err(next.thrown);
        }
        st := next.value;
      }
      SitesStep(ms, i);
      assert RowSites(m)[..|m.rows|] == RowSites(m);
    }
    assert ms[..|ms|] == ms;
    var info := new TimingInfo(st.timingPoints, st.hitObjects);
    return Ok(info);
  }

  /** loadFromNotes, once the first row's timing point is mapped, is the
      row loop over all rows from that state. */
  lemma FromFirstRow(ms: seq<NoteMeasure>, tpMap: TimingPointMapper, hoMap: HitObjectMapper, init: Loaded)
    requires |ms| > 0 && |ms[0].rows| > 0 && tpMap(ms[0].rows[0], ms[0].rows[0].bpm).Ok?
    requires init == Loaded(ms[0].rows[0].bpm, Present(tpMap(ms[0].rows[0], ms[0].rows[0].bpm).value), [])
    ensures LoadFromNotesSpec(ms, tpMap, hoMap) == LoadSites(init, Sites(ms), tpMap, hoMap)
  {
  }

  /** One more row of the loop. */
  lemma LoadSitesExtend(init: Loaded, done: seq<Site>, rows: seq<Site>, j: nat, st: Loaded, next: Result<Loaded>,
                        tpMap: TimingPointMapper, hoMap: HitObjectMapper)
    requires j < |rows| && LoadSites(init, done + rows[..j], tpMap, hoMap) == Ok(st)
    requires next == RowStep(st, rows[j], tpMap, hoMap)
    ensures LoadSites(init, done + rows[..j + 1], tpMap, hoMap) == next
  {
    var prefix := done + rows[..j];
    assert done + rows[..j + 1] == prefix + [rows[j]];
    assert (prefix + [rows[j]])[..|prefix|] == prefix;
  }

  /** A failure at row j of measure i is the failure of the whole load. */
  lemma RowFails(ms: seq<NoteMeasure>, i: nat, j: nat, init: Loaded, tpMap: TimingPointMapper, hoMap: HitObjectMapper)
    requires i < |ms| && j < |ms[i].rows|
    requires LoadSites(init, Sites(ms[..i]) + RowSites(ms[i])[..j + 1], tpMap, hoMap).Err?
    ensures LoadSites(init, Sites(ms), tpMap, hoMap) ==
      LoadSites(init, Sites(ms[..i]) + RowSites(ms[i])[..j + 1], tpMap, hoMap)
  {
    var p := Sites(ms[..i]) + RowSites(ms[i])[..j + 1];
    SitesPrefix(ms, i + 1);
    SitesStep(ms, i);
    assert Sites(ms)[..|p|] == p;
    LoadSitesStops(init, Sites(ms), |p|, tpMap, hoMap);
  }

  // ---------------------------------------------------------------------
  // loadFromEtternaInfo

  /** The Etterna timing point mapper, with the beat length derivation. */
  function EtternaTpMapper(beatLength: real -> Dec): TimingPointMapper {
    (row: NoteRow, bpm: Option<Bpm>) => EtternaTimingPoint(row, bpm, beatLength)
  }

  /** The Etterna note mapper, with the column-to-x conversion of setX
      (given the column and the row's width). */
  function EtternaHoMapper(columnX: (int, int) -> int): HitObjectMapper {
    (m: NoteMeasure, row: NoteRow, note: Note) => EtternaHitObject(note, columnX(note.column, |row.notes|))
  }

  /** loadFromEtternaInfo: loadFromNotes with the Etterna mappers. */
  method LoadFromEtternaInfo(ms: seq<NoteMeasure>, beatLength: real -> Dec, columnX: (int, int) -> int)
    returns (r: Result<TimingInfo>)
    ensures var spec := LoadFromNotesSpec(ms, EtternaTpMapper(beatLength), EtternaHoMapper(columnX));
      (spec.Err? ==> r == Err(spec.thrown)) &&
      (spec.Ok? ==>
        r.Ok? && fresh(r.value) &&
        r.value.timingPoints == spec.value.timingPoints && r.value.hitObjects == spec.value.hitObjects)
  {
    r := LoadFromNotes(ms, EtternaTpMapper(beatLength), EtternaHoMapper(columnX));
  }

  /** A chart whose first row is timed but carries a BPM of value zero
      fails to load with ArithmeticException, raised by the first call of
      the Etterna timing point mapper. */
  lemma EtternaZeroBpmFails(ms: seq<NoteMeasure>, beatLength: real -> Dec, columnX: (int, int) -> int)
    requires |ms| > 0 && |ms[0].rows| > 0
    requires |ms[0].rows[0].notes| > 0 && ms[0].rows[0].notes[0].startTime.Some?
    requires ms[0].rows[0].bpm.Some? && ms[0].rows[0].bpm.value.value == 0.0
    ensures LoadFromNotesSpec(ms, EtternaTpMapper(beatLength), EtternaHoMapper(columnX)) == Err(ArithmeticException)
  {
    var row0 := ms[0].rows[0];
    EtternaTimingPointShape(row0, row0.bpm, beatLength);
  }

  /** The points kept from Etterna mapper results are all uninherited. */
  lemma EtternaTpUninherited(row: NoteRow, bpm: Option<Bpm>, beatLength: real -> Dec)
    ensures var t := EtternaTpMapper(beatLength)(row, bpm);
      t.Ok? && t.value.Some? ==> t.value.value.unInherited
  {
  }

  lemma EtternaPointsUninherited(rs: seq<Result<Option<TimingPoint>>>, p: TimingPoint)
    requires forall i :: 0 <= i < |rs| && rs[i].Ok? && rs[i].value.Some? ==> rs[i].value.value.unInherited
    requires p in Kept(rs)
    ensures p.unInherited
  {
    KeptMembers(rs, p);
    var i :| 0 <= i < |rs| && rs[i] == Ok(Some(p));
  }

  /** The hit objects kept from the Etterna note mapper over some notes
      are exactly the mappings of the taps and hold heads among them. */
  lemma EtternaHitObjectsKept(ns: seq<NoteSite>, columnX: (int, int) -> int, h: HitObject)
    ensures h in Kept(HoOutcomes(ns, EtternaHoMapper(columnX))) <==>
      exists i :: 0 <= i < |ns| && (ns[i].2.startNote.IsTap() || ns[i].2.startNote.IsHoldHead()) &&
        EtternaHitObject(ns[i].2, columnX(ns[i].2.column, |ns[i].1.notes|)) == Ok(Some(h))
  {
    var hos := HoOutcomes(ns, EtternaHoMapper(columnX));
    KeptMembers(hos, h);
    forall i | 0 <= i < |ns|
      ensures hos[i] == EtternaHitObject(ns[i].2, columnX(ns[i].2.column, |ns[i].1.notes|))
      ensures hos[i].Ok? && hos[i].value.Some? ==> ns[i].2.startNote.IsTap() || ns[i].2.startNote.IsHoldHead()
    {
      EtternaHitObjectShape(ns[i].2, columnX(ns[i].2.column, |ns[i].1.notes|));
    }
  }

  /** Loaded from Etterna notes, the hit objects are exactly the mappings
      of the taps and hold heads (every other note is skipped), and every
      timing point is uninherited. */
  lemma EtternaLoadShape(ms: seq<NoteMeasure>, beatLength: real -> Dec, columnX: (int, int) -> int)
    ensures var r := LoadFromNotesSpec(ms, EtternaTpMapper(beatLength), EtternaHoMapper(columnX));
      var ns := NoteSites(Sites(ms));
      r.Ok? ==>
        (forall p :: p in r.value.timingPoints ==> p.unInherited) &&
        (forall h :: h in r.value.hitObjects <==>
          exists i :: 0 <= i < |ns| && (ns[i].2.startNote.IsTap() || ns[i].2.startNote.IsHoldHead()) &&
            EtternaHitObject(ns[i].2, columnX(ns[i].2.column, |ns[i].1.notes|)) == Ok(Some(h)))
  {
    EtternaPointsLoaded(ms, beatLength, columnX);
    EtternaObjectsLoaded(ms, beatLength, columnX);
  }

  lemma EtternaPointsLoaded(ms: seq<NoteMeasure>, beatLength: real -> Dec, columnX: (int, int) -> int)
    ensures var r := LoadFromNotesSpec(ms, EtternaTpMapper(beatLength), EtternaHoMapper(columnX));
      r.Ok? ==> forall p :: p in r.value.timingPoints ==> p.unInherited
  {
    var tpMap, hoMap := EtternaTpMapper(beatLength), EtternaHoMapper(columnX);
    var r := LoadFromNotesSpec(ms, tpMap, hoMap);
    LoadFromNotesOutcome(ms, tpMap, hoMap);
    if r.Ok? {
      var row0 := ms[0].rows[0];
      var first := [tpMap(row0, row0.bpm)];
      var rest := TpOutcomes(row0.bpm.value.value, Sites(ms), tpMap);
      EtternaTpUninherited(row0, row0.bpm, beatLength);
      TpOutcomesUninherited(row0.bpm.value.value, Sites(ms), beatLength);
      forall p | p in r.value.timingPoints ensures p.unInherited {
        if p in Kept(first) {
          EtternaPointsUninherited(first, p);
        } else {
          EtternaPointsUninherited(rest, p);
        }
      }
    }
  }

  lemma TpOutcomesUninherited(v: real, sites: seq<Site>, beatLength: real -> Dec)
    ensures var rs := TpOutcomes(v, sites, EtternaTpMapper(beatLength));
      forall i :: 0 <= i < |rs| && rs[i].Ok? && rs[i].value.Some? ==> rs[i].value.value.unInherited
  {
    forall i | 0 <= i < |sites| {
      EtternaTpUninherited(sites[i].1, sites[i].1.bpm, beatLength);
    }
  }

  lemma EtternaObjectsLoaded(ms: seq<NoteMeasure>, beatLength: real -> Dec, columnX: (int, int) -> int)
    ensures var r := LoadFromNotesSpec(ms, EtternaTpMapper(beatLength), EtternaHoMapper(columnX));
      var ns := NoteSites(Sites(ms));
      r.Ok? ==>
        forall h :: h in r.value.hitObjects <==>
          exists i :: 0 <= i < |ns| && (ns[i].2.startNote.IsTap() || ns[i].2.startNote.IsHoldHead()) &&
            EtternaHitObject(ns[i].2, columnX(ns[i].2.column, |ns[i].1.notes|)) == Ok(Some(h))
  {
    var tpMap, hoMap := EtternaTpMapper(beatLength), EtternaHoMapper(columnX);
    var r := LoadFromNotesSpec(ms, tpMap, hoMap);
    LoadFromNotesOutcome(ms, tpMap, hoMap);
    if r.Ok? {
      var ns := NoteSites(Sites(ms));
      forall h ensures h in r.value.hitObjects <==>
        exists i :: 0 <= i < |ns| && (ns[i].2.startNote.IsTap() || ns[i].2.startNote.IsHoldHead()) &&
          EtternaHitObject(ns[i].2, columnX(ns[i].2.column, |ns[i].1.notes|)) == Ok(Some(h))
      {
        EtternaHitObjectsKept(ns, columnX, h);
      }
    }
  }
}
