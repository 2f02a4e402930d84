/** TemplateFile of the redone osu! builder: the values that fill the
    placeholders of the .osu template, kept in a map whose iteration
    order is insertion order, and the compile step that substitutes them.

    The template text, which the source loads from a resource file, is a
    parameter of compile. A map entry is an (element, value) pair and the
    map is the list of its entries in iteration order. */
module TemplateFiles {
  import opened Wrappers
  import opened Text

  /** The editable elements, in declaration order, with their
      placeholders. */
  datatype Element =
    | AUDIO_FILE_NAME | TITLE | TITLE_UNICODE | ARTIST | ARTIST_UNICODE | CREATOR | VERSION
    | SOURCE | TAGS | HP_DRAIN | OVERALL_DIFFICULTY | BACKGROUND_FILE | TIMING_POINTS | HIT_OBJECTS
  {
    function Placeholder(): string {
      match this
      case AUDIO_FILE_NAME => "___AUDIO_FILE_NAME"
      case TITLE => "___TITLE"
      case TITLE_UNICODE => "___TITLE_UNICODE"
      case ARTIST => "___ARTIST"
      case ARTIST_UNICODE => "___ARTIST_UNICODE"
      case CREATOR => "___CREATOR"
      case VERSION => "___VERSION"
      case SOURCE => "___SOURCE"
      case TAGS => "___TAGS"
      case HP_DRAIN => "___HP_DRAIN"
      case OVERALL_DIFFICULTY => "___OVERALL_DIFFICULTY"
      case BACKGROUND_FILE => "___BACKGROUND_FILE"
      case TIMING_POINTS => "___TIMING_POINTS"
      case HIT_OBJECTS => "___HIT_OBJECTS"
    }
  }

  /** Element.values(). */
  const Elements: seq<Element> := [
    AUDIO_FILE_NAME, TITLE, TITLE_UNICODE, ARTIST, ARTIST_UNICODE, CREATOR, VERSION,
    SOURCE, TAGS, HP_DRAIN, OVERALL_DIFFICULTY, BACKGROUND_FILE, TIMING_POINTS, HIT_OBJECTS]

  type Entry = (Element, string)

  /** A map holds each key at most once. */
  predicate DistinctKeys(m: seq<Entry>) {
    forall i, j :: 0 <= i < j < |m| ==> m[i].0 != m[j].0
  }

  /** The position of the entry for `e`. */
  function KeyIndex(m: seq<Entry>, e: Element): (r: Option<nat>)
    ensures r.Some? ==> r.value < |m| && m[r.value].0 == e
    ensures r.Some? ==> forall j :: 0 <= j < r.value ==> m[j].0 != e
    ensures r.None? ==> forall j :: 0 <= j < |m| ==> m[j].0 != e
  {
    if m == [] then None
    else if m[0].0 == e then Some(0)
    else match KeyIndex(m[1..], e)
      case None => None
      case Some(k) => Some(k + 1)
  }

  /** Map.get: the value of the entry for `e`, or null. */
  function Lookup(m: seq<Entry>, e: Element): Option<string> {
    match KeyIndex(m, e)
    case None => None
    case Some(i) => Some(m[i].1)
  }

  /** LinkedHashMap.put: a new key goes to the end; an existing key keeps
      its position and takes the new value. */
  function Put(m: seq<Entry>, e: Element, v: string): seq<Entry> {
    match KeyIndex(m, e)
    case None => m + [(e, v)]
    case Some(i) => m[i := (e, v)]
  }

  /** Map.putIfAbsent. */
  function PutIfAbsent(m: seq<Entry>, e: Element, v: string): seq<Entry> {
    if KeyIndex(m, e).None? then m + [(e, v)] else m
  }

  /** The constructor's loop: putIfAbsent(e, "") for each element in turn. */
  function FillDefaults(m: seq<Entry>, es: seq<Element>): seq<Entry> {
    if es == [] then m
    else PutIfAbsent(FillDefaults(m, es[..|es| - 1]), es[|es| - 1], "")
  }

  /** compile's loop: the first literal occurrence of each entry's
      placeholder becomes its value, entry by entry in map order. */
  function Fill(template: string, m: seq<Entry>): string {
    if m == [] then template
    else
      var last := m[|m| - 1];
      ReplaceFirst(Fill(template, m[..|m| - 1]), last.0.Placeholder(), last.1)
  }

  /** Maps with the same keys at the same positions find every key at the
      same position. */
  lemma KeyIndexSameKeys(m: seq<Entry>, n: seq<Entry>, e: Element)
    requires |m| == |n| && forall i :: 0 <= i < |m| ==> m[i].0 == n[i].0
    ensures KeyIndex(m, e) == KeyIndex(n, e)
  {
  }

  /** Appending a new key leaves the old keys where they were and finds
      the new one at the end. */
  lemma KeyIndexAppend(m: seq<Entry>, k: Element, v: string, e: Element)
    requires KeyIndex(m, k).None?
    ensures KeyIndex(m + [(k, v)], e) == if e == k then Some(|m|) else KeyIndex(m, e)
  {
    var n := m + [(k, v)];
    var a := KeyIndex(n, e);
    if e == k {
      assert n[|m|].0 == e;
    } else {
      var b := KeyIndex(m, e);
      if b.Some? {
        assert n[b.value].0 == e;
      }
    }
  }

  /** put(e, v) then get(e) gives v, every other key keeps its value, the
      keys keep their order (a new key coming last), and keys stay
      distinct. */
  lemma PutThenGet(m: seq<Entry>, e: Element, v: string)
    requires DistinctKeys(m)
    ensures DistinctKeys(Put(m, e, v))
    ensures Lookup(Put(m, e, v), e) == Some(v)
    ensures forall k :: k != e ==> Lookup(Put(m, e, v), k) == Lookup(m, k)
    ensures KeyIndex(m, e).Some? ==> |Put(m, e, v)| == |m|
    ensures KeyIndex(m, e).None? ==> |Put(m, e, v)| == |m| + 1 && Put(m, e, v)[|m|] == (e, v)
    ensures forall i :: 0 <= i < |m| ==> Put(m, e, v)[i].0 == m[i].0
  {
    match KeyIndex(m, e)
    case None =>
      forall k ensures Lookup(Put(m, e, v), k) == if k == e then Some(v) else Lookup(m, k) {
        KeyIndexAppend(m, e, v, k);
      }
    case Some(i) =>
      forall k ensures KeyIndex(Put(m, e, v), k) == KeyIndex(m, k) {
        KeyIndexSameKeys(Put(m, e, v), m, k);
      }
  }

  /** After the constructor's loop over some elements: the given map comes
      first and unchanged; a key keeps its given value; every element of
      the loop that was missing maps to ""; nothing else is added. */
  lemma {:induction false} FillDefaultsLookup(m: seq<Entry>, es: seq<Element>)
    requires DistinctKeys(m)
    ensures DistinctKeys(FillDefaults(m, es))
    ensures |FillDefaults(m, es)| >= |m| && FillDefaults(m, es)[..|m|] == m
    ensures forall e :: (Lookup(FillDefaults(m, es), e) ==
      if Lookup(m, e).Some? then Lookup(m, e) else if e in es then Some("") else None)
  {
    if es != [] {
      var init := es[..|es| - 1];
      var e := es[|es| - 1];
      var before := FillDefaults(m, init);
      FillDefaultsLookup(m, init);
      if KeyIndex(before, e).None? {
        forall k ensures KeyIndex(before + [(e, "")], k) == if k == e then Some(|before|) else KeyIndex(before, k) {
          KeyIndexAppend(before, e, "", k);
        }
        assert (before + [(e, "")])[..|m|] == before[..|m|];
      }
      assert forall k :: k in es <==> k in init || k == e;
    }
  }

  /** Map.putIfAbsent on the map the builder hands to the constructor. The
      builder's build() collects the @Singular entries into an unmodifiable
      map (an empty, singleton or unmodifiable view), whose putIfAbsent
      throws whatever the key; a modifiable map adds a missing key. */
  function PutIfAbsentOn(m: seq<Entry>, unmodifiable: bool, e: Element, v: string): (r: Result<seq<Entry>>)
    ensures r.Err? <==> unmodifiable
    ensures r.Err? ==> r.thrown == UnsupportedOperationException
    ensures r.Ok? ==> |r.value| >= |m| && r.value[..|m|] == m
  {
    if unmodifiable then Err(UnsupportedOperationException) else Ok(PutIfAbsent(m, e, v))
  }

  /** The constructor's loop as written, on the map it is given: the first
      failing putIfAbsent ends it. */
  function FillDefaultsOn(m: seq<Entry>, unmodifiable: bool, es: seq<Element>): Result<seq<Entry>> {
    if es == [] then Ok(m)
    else match FillDefaultsOn(m, unmodifiable, es[..|es| - 1])
      case Err(t) => Err(t)
      case Ok(p) => PutIfAbsentOn(p, unmodifiable, es[|es| - 1], "")
  }

  /** On a modifiable map the loop as written is the filling of defaults. */
  lemma {:induction false} FillDefaultsOnModifiable(m: seq<Entry>, es: seq<Element>)
    ensures FillDefaultsOn(m, false, es) == Ok(FillDefaults(m, es))
  {
    if es != [] {
      FillDefaultsOnModifiable(m, es[..|es| - 1]);
    }
  }

  /** On the unmodifiable map the builder produces, the loop throws at its
      first element, so no template file is ever built. */
  lemma {:induction false} FillDefaultsOnUnmodifiable(m: seq<Entry>, es: seq<Element>)
    requires es != []
    ensures FillDefaultsOn(m, true, es) == Err(UnsupportedOperationException)
  {
    var init := es[..|es| - 1];
    if init != [] {
      FillDefaultsOnUnmodifiable(m, init);
    }
  }

  /** Building a template file always throws UnsupportedOperationException,
      whatever elements were set on the builder. */
  lemma BuiltConstructorThrows(given: seq<Entry>)
    ensures FillDefaultsOn(given, true, Elements) == Err(UnsupportedOperationException)
  {
    FillDefaultsOnUnmodifiable(given, Elements);
  }

  /** After construction every element has a value: the one given, or ""
      for those not given; and the map holds exactly the fourteen
      elements. */
  lemma ConstructedComplete(m: seq<Entry>)
    requires DistinctKeys(m)
    ensures forall e :: (Lookup(FillDefaults(m, Elements), e) ==
      if Lookup(m, e).Some? then Lookup(m, e) else Some(""))
    ensures |FillDefaults(m, Elements)| >= |m| && FillDefaults(m, Elements)[..|m|] == m
  {
    FillDefaultsLookup(m, Elements);
    forall e: Element ensures e in Elements {
    }
  }

  /** Placeholders overlap in exactly two pairs: ___TITLE begins
      ___TITLE_UNICODE and ___ARTIST begins ___ARTIST_UNICODE, so the
      first occurrence of ___TITLE can be the head of ___TITLE_UNICODE. */
  lemma PlaceholderPrefixes(a: Element, b: Element)
    ensures a != b && StartsWith(b.Placeholder(), a.Placeholder()) <==>
      (a == TITLE && b == TITLE_UNICODE) || (a == ARTIST && b == ARTIST_UNICODE)
  {
    var p, q := a.Placeholder(), b.Placeholder();
    if StartsWith(q, p) {
      assert q[3] == p[3] && q[4] == p[4] && q[5] == p[5] && |p| <= |q|;
    }
  }

  /** The order of the entries decides the output: on a template holding
      ___TITLE_UNICODE, filling TITLE first overwrites the head of the
      unicode placeholder, which is then no longer there to fill, while
      the opposite order fills it. */
  lemma FillOrderMatters()
    ensures Fill("___TITLE_UNICODE", [(TITLE, "a"), (TITLE_UNICODE, "b")]) == "a_UNICODE"
    ensures Fill("___TITLE_UNICODE", [(TITLE_UNICODE, "b"), (TITLE, "a")]) == "b"
  {
    var m1: seq<Entry> := [(TITLE, "a"), (TITLE_UNICODE, "b")];
    var m2: seq<Entry> := [(TITLE_UNICODE, "b"), (TITLE, "a")];
    assert m1[..1] == [(TITLE, "a")] && m2[..1] == [(TITLE_UNICODE, "b")];
    assert [(TITLE, "a")][..0] == [] && [(TITLE_UNICODE, "b")][..0] == [];
    TitleFirst();
    UnicodeFirst();
  }

  /** Replacing ___TITLE first consumes the head of ___TITLE_UNICODE,
      which then no longer occurs. */
  lemma TitleFirst()
    ensures ReplaceFirst("___TITLE_UNICODE", "___TITLE", "a") == "a_UNICODE"
    ensures ReplaceFirst("a_UNICODE", "___TITLE_UNICODE", "b") == "a_UNICODE"
  {
    var t, pat := "___TITLE_UNICODE", "___TITLE";
    assert t[..|pat|] == pat;
    assert t[8..] == "_UNICODE";
  }

  /** Replacing ___TITLE_UNICODE first fills it whole; no ___TITLE is
      left for the other entry. */
  lemma UnicodeFirst()
    ensures ReplaceFirst("___TITLE_UNICODE", "___TITLE_UNICODE", "b") == "b"
    ensures ReplaceFirst("b", "___TITLE", "a") == "b"
  {
    var t := "___TITLE_UNICODE";
    assert t[..|t|] == t;
  }


  class TemplateFile {
    var changeMap: seq<Entry>

    /** The change map holds each element at most once. */
    predicate Valid()
      reads this
    {
      DistinctKeys(changeMap)
    }

    /** The private constructor on a modifiable copy of the given map:
        putIfAbsent(e, "") for every element in declaration order, then the
        map is kept. */
    constructor (given: seq<Entry>)
      requires DistinctKeys(given)
      ensures changeMap == FillDefaults(given, Elements)
      ensures Valid()
    {
      var m := given;
      for i := 0 to |Elements|
        invariant m == FillDefaults(given, Elements[..i])
      {
        assert Elements[..i + 1][..i] == Elements[..i];
        m := PutIfAbsent(m, Elements[i], "");
      }
      assert Elements[..|Elements|] == Elements;
      changeMap := m;
      FillDefaultsLookup(given, Elements);
    }

    /** getElement(e): the mapped value, or null. */
    function GetElement(e: Element): (r: Option<string>)
      reads this
      requires Valid()
      ensures r.Some? <==> exists i :: 0 <= i < |changeMap| && changeMap[i].0 == e
      ensures r.Some? ==> forall i :: 0 <= i < |changeMap| && changeMap[i].0 == e ==> changeMap[i].1 == r.value
    {
      Lookup(changeMap, e)
    }

    /** setElement(e, v). */
    method SetElement(e: Element, v: string)
      requires Valid()
      modifies this
      ensures changeMap == Put(old(changeMap), e, v)
      ensures Valid() && GetElement(e) == Some(v)
    {
      PutThenGet(changeMap, e, v);
      changeMap := Put(changeMap, e, v);
    }

    /** compile(): the template with each entry's placeholder replaced
        once, in map order. */
    method Compile(template: string) returns (content: string)
      ensures content == Fill(template, changeMap)
    {
      content := template;
      for i := 0 to |changeMap|
        invariant content == Fill(template, changeMap[..i])
      {
        var entry := changeMap[i];
        assert changeMap[..i + 1][..i] == changeMap[..i];
        content := ReplaceFirst(content, entry.0.Placeholder(), entry.1);
      }
      assert changeMap[..|changeMap|] == changeMap;
    }
  }

  /** A constructed template file answers getElement with the value set
      last, after any number of setElement calls on other elements. */
  method SetThenGet(given: seq<Entry>, e: Element, v: string, others: seq<Entry>) returns (got: Option<string>)
    requires DistinctKeys(given)
    requires forall i :: 0 <= i < |others| ==> others[i].0 != e
    ensures got == Some(v)
  {
    var file := new TemplateFile(given);
    file.SetElement(e, v);
    for i := 0 to |others|
      invariant file.Valid() && file.GetElement(e) == Some(v)
    {
      PutThenGet(file.changeMap, others[i].0, others[i].1);
      file.SetElement(others[i].0, others[i].1);
    }
    got := file.GetElement(e);
  }
}
