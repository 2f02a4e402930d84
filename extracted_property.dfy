/** ExtractedProperty: the values a property extraction found, with the
    three size queries and the accessors guarded by them. The property
    description itself is not part of this model; a `Mapper` is a function
    from the text of a value. */
module ExtractedProperties {
  import opened Wrappers

  datatype ExtractedProperty = ExtractedProperty(rawValues: seq<string>) {
    predicate IsEmpty() { |rawValues| == 0 }
    predicate IsSingleton() { |rawValues| == 1 }
    predicate HasMany() { |rawValues| > 1 }

    /** getSingleton(): the one value, and java.lang.Error otherwise. */
    function GetSingleton(): Result<string> {
      if !IsSingleton() then Err(JavaError) else Ok(rawValues[0])
    }

    /** processSingleton(mapper). */
    function ProcessSingleton<V>(mapper: string -> V): Result<V> {
      match GetSingleton()
      case Err(e) => Err(e)
      case Ok(v) => Ok(mapper(v))
    }

    /** getMany(): all values, and java.lang.Error unless there are more
        than one. */
    function GetMany(): Result<seq<string>> {
      if !HasMany() then Err(JavaError) else Ok(rawValues)
    }

    /** processMany(mapper). */
    function ProcessMany<V>(mapper: string -> V): seq<V> {
      MapAll(rawValues, mapper)
    }
  }

  /** The mapper applied to each value in turn, collected in a new list. */
  function MapAll<V>(xs: seq<string>, mapper: string -> V): seq<V> {
    if xs == [] then [] else MapAll(xs[..|xs| - 1], mapper) + [mapper(xs[|xs| - 1])]
  }

  /** Every property is exactly one of empty, singleton, many. */
  lemma ExactlyOneSize(p: ExtractedProperty)
    ensures p.IsEmpty() || p.IsSingleton() || p.HasMany()
    ensures !(p.IsEmpty() && p.IsSingleton())
    ensures !(p.IsEmpty() && p.HasMany())
    ensures !(p.IsSingleton() && p.HasMany())
  {
  }

  /** The accessors succeed exactly under their size query and then give
      the values; a property never answers both. */
  lemma AccessorsGuarded(p: ExtractedProperty)
    ensures p.GetSingleton().Ok? <==> |p.rawValues| == 1
    ensures p.GetSingleton().Ok? ==> [p.GetSingleton().value] == p.rawValues
    ensures p.GetMany().Ok? <==> |p.rawValues| > 1
    ensures p.GetMany().Ok? ==> p.GetMany().value == p.rawValues
    ensures !(p.GetSingleton().Ok? && p.GetMany().Ok?)
  {
  }

  /** processMany keeps the number of values and their order, mapping
      each in place. */
  lemma {:induction false} MapAllAt<V>(xs: seq<string>, mapper: string -> V)
    ensures |MapAll(xs, mapper)| == |xs|
    ensures forall i :: 0 <= i < |xs| ==> MapAll(xs, mapper)[i] == mapper(xs[i])
  {
    if xs != [] {
      MapAllAt(xs[..|xs| - 1], mapper);
    }
  }

  /** Mapping a singleton's values gives the one-element list of what
      processSingleton gives. */
  lemma ProcessAgree<V>(p: ExtractedProperty, mapper: string -> V)
    requires p.IsSingleton()
    ensures p.ProcessMany(mapper) == [p.ProcessSingleton(mapper).value]
  {
    MapAllAt(p.rawValues, mapper);
  }
}
