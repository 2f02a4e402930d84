/** The C++ side of the MinaCalc bridge (MinaCalc.cpp, Util.h).

    The translation unit keeps one global handle to the scoring engine,
    CALC_INSTANCE; here it is the field `instance` of a `NativeBridge`
    object, and deleting the engine is modelled by clearing the `live`
    flag of the `Calc` object (its storage is gone, the pointer remains).
    The host-side java.util.List the glue fills is a `HostList` whose
    contents only grow. The engine itself is not modelled: the scoring
    entry points are stubs in the source and only their glue is. */
module MinaCalcNative {

  /** A 32-bit jint, as stored in the pinned notes buffer. */
  newtype Int32 = x: int | -0x8000_0000 <= x < 0x8000_0000

  /** A 32-bit unsigned int, the row bitmask the engine reads. */
  newtype UInt32 = x: int | 0 <= x < 0x1_0000_0000

  /** The C cast (unsigned int) on a 32-bit value: two's-complement
      reinterpretation, that is, reduction modulo 2^32. */
  function ToUnsigned(x: Int32): (u: UInt32)
    ensures x >= 0 ==> u as int == x as int
    ensures x < 0 ==> u as int == x as int + 0x1_0000_0000
  {
    ((x as int) % 0x1_0000_0000) as UInt32
  }

  /** The reverse cast (int) on a 32-bit unsigned value. */
  function ToSigned(u: UInt32): (x: Int32)
    ensures u < 0x8000_0000 ==> x as int == u as int
    ensures u >= 0x8000_0000 ==> x as int == u as int - 0x1_0000_0000
  {
    if u < 0x8000_0000 then u as int as Int32 else (u as int - 0x1_0000_0000) as Int32
  }

  /** The cast loses nothing: casting back recovers the signed value. */
  lemma ToUnsignedRoundTrip(x: Int32)
    ensures ToSigned(ToUnsigned(x)) == x
  {
  }

  /** ... and every unsigned value is reached exactly once. */
  lemma ToSignedRoundTrip(u: UInt32)
    ensures ToUnsigned(ToSigned(u)) == u
  {
  }

  /** The engine's input record: a row bitmask and its time. */
  datatype NoteInfo = NoteInfo(notes: UInt32, rowTime: real)

  /** The scoring engine object; `live` is false once it has been deleted. */
  class Calc {
    var live: bool

    constructor ()
      ensures live
    {
      live := true;
    }
  }

  /** A java.util.List<float[]> owned by the JVM. JList.add appends. */
  class HostList {
    var items: seq<array<real>>

    constructor (items: seq<array<real>>)
      ensures this.items == items
    {
      this.items := items;
    }

    /** JList.add: one more element at the end, the rest untouched. */
    method Add(t: array<real>)
      modifies this
      ensures items == old(items) + [t]
    {
      items := items + [t];
    }
  }

  /** The global state of MinaCalc.cpp. */
  class NativeBridge {
    var instance: Calc?

    /** Static initialisation: CALC_INSTANCE = nullptr. */
    constructor ()
      ensures instance == null
    {
      instance := null;
    }

    /** isInitialised: the handle is set. */
    predicate IsInitialised()
      reads this
    {
      instance != null
    }

    /** isNativelyLoaded: exactly isInitialised, with no side effect. */
    method IsNativelyLoaded() returns (loaded: bool)
      ensures loaded <==> instance != null
    {
      loaded := IsInitialised();
    }

    /** initSequence: creates an engine only when there is none. */
    method InitSequence()
      modifies this
      ensures old(instance) != null ==> instance == old(instance)
      ensures old(instance) == null ==> instance != null && fresh(instance) && instance.live
    {
      if !IsInitialised() {
        instance := new Calc();
      }
    }

    /** dispose, as written: deletes the engine but leaves CALC_INSTANCE
        pointing at it. A second call deletes the same engine again;
        `doubleDelete` reports that this call deleted an engine that was
        already deleted. */
    method Dispose() returns (doubleDelete: bool)
      modifies if instance != null then {instance} else {}
      ensures instance == old(instance)
      ensures instance != null ==> !instance.live
      ensures doubleDelete <==> old(instance) != null && !old(instance.live)
    {
      doubleDelete := false;
      if IsInitialised() {
        doubleDelete := !instance.live;
        instance.live := false;
      }
    }

    /** dispose with the pointer reset after the delete, which is what the
        "final resource cleanup" the function documents needs. */
    method DisposeAndReset() returns (doubleDelete: bool)
      modifies this, if instance != null then {instance} else {}
      ensures instance == null
      ensures old(instance) != null ==> !old(instance).live
      ensures doubleDelete <==> old(instance) != null && !old(instance.live)
    {
      doubleDelete := false;
      if IsInitialised() {
        doubleDelete := !instance.live;
        instance.live := false;
        instance := null;
      }
    }

    /** getMSDForAllRates glue: initialises the engine, appends a float[8]
        and then a float[4] to the host list, and returns that same list. */
    method GetMsdForAllRates(notes: array<Int32>, times: array<real>, list: HostList)
      returns (r: HostList)
      modifies this, list
      ensures r == list
      ensures old(instance) != null ==> instance == old(instance)
      ensures instance != null && (old(instance) == null ==> fresh(instance) && instance.live)
      ensures |list.items| == |old(list.items)| + 2
      ensures list.items[..|old(list.items)|] == old(list.items)
      ensures list.items[|old(list.items)|].Length == 8
      ensures list.items[|old(list.items)| + 1].Length == 4
      ensures fresh(list.items[|old(list.items)|]) && fresh(list.items[|old(list.items)| + 1])
    {
      InitSequence();
      var a := new real[8](_ => 0.0);
      list.Add(a);
      var b := new real[4](_ => 0.0);
      list.Add(b);
      r := list;
    }

    /** getMSDForRateAndGoal: a stub that returns null and touches nothing. */
    method GetMsdForRateAndGoal(notes: array<Int32>, times: array<real>, scoreGoal: real, rate: real)
      returns (r: array?<real>)
      ensures r == null
    {
      r := null;
    }

    /** getDefaultMSDFor: a stub that returns null and touches nothing. */
    method GetDefaultMsdFor(notes: array<Int32>, times: array<real>) returns (r: array?<real>)
      ensures r == null
    {
      r := null;
    }
  }

  /** After dispose as written the bridge still reports itself loaded, a
      later initSequence does not replace the deleted engine, and a second
      dispose deletes that engine again. */
  method DisposeLeavesHandleSet() returns (loaded: bool, reusable: bool, deletedTwice: bool)
    ensures loaded
    ensures !reusable
    ensures deletedTwice
  {
    var bridge := new NativeBridge();
    bridge.InitSequence();
    var first := bridge.Dispose();
    loaded := bridge.IsNativelyLoaded();
    bridge.InitSequence();
    reusable := bridge.instance != null && bridge.instance.live;
    deletedTwice := bridge.Dispose();
  }

  /** With the pointer reset, dispose makes the bridge report absent, a
      later initSequence creates a live engine again, and disposing twice
      never deletes an engine twice. */
  method DisposeAndResetClearsHandle() returns (loaded: bool, reusable: bool, deletedTwice: bool)
    ensures !loaded
    ensures reusable
    ensures !deletedTwice
  {
    var bridge := new NativeBridge();
    bridge.InitSequence();
    var first := bridge.DisposeAndReset();
    loaded := bridge.IsNativelyLoaded();
    bridge.InitSequence();
    reusable := bridge.instance != null && bridge.instance.live;
    var second := bridge.DisposeAndReset();
    var third := bridge.DisposeAndReset();
    deletedTwice := first || second || third;
  }

  /** Util.h RawNotes: the two pinned Java buffers and the length of the
      notes buffer. */
  class RawNotes {
    const notes: array<Int32>
    const times: array<real>
    const size: int

    constructor (notes: array<Int32>, times: array<real>)
      ensures this.notes == notes && this.times == times
      ensures size == notes.Length
    {
      this.notes := notes;
      this.times := times;
      size := notes.Length;
    }

    /** asNoteInfo: element i pairs the unsigned reinterpretation of
        notes[i] with times[i]. The method is const: it modifies nothing,
        so both buffers are left as they were. The times buffer must be at
        least as long as the notes buffer, which the Java caller
        guarantees by building both from one list. */
    method AsNoteInfo() returns (r: seq<NoteInfo>)
      requires size == notes.Length && times.Length >= size
      ensures |r| == size
      ensures forall i :: 0 <= i < size ==> r[i] == NoteInfo(ToUnsigned(notes[i]), times[i])
    {
      var pNotes := new NoteInfo[size](_ => NoteInfo(0, 0.0));
      var i := 0;
      while i < size
        invariant 0 <= i <= size
        invariant forall k :: 0 <= k < i ==> pNotes[k] == NoteInfo(ToUnsigned(notes[k]), times[k])
      {
        pNotes[i] := NoteInfo(ToUnsigned(notes[i]), times[i]);
        i := i + 1;
      }
      r := pNotes[..];
    }
  }
}
