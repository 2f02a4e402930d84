/** CommandBuilder of the FFMPEG module: the argument list of an ffmpeg
    command line, grown by `add` and rewritten in place by the two
    `mutate` forms and by `replaceFirst`.

    The regular expression of `replaceFirst` is passed as the predicate
    `matches` (what String.matches answers for each argument), and the
    two mutate forms, which Java tells apart by overloading, are
    `Mutate` and `MutateWhere`. */
module CommandBuilders {
  import opened Wrappers
  import opened Lists

  /** The arguments after every one equal to `target` became `v`. */
  function Substituted(xs: seq<string>, target: string, v: string): seq<string> {
    if xs == [] then []
    else
      var last := xs[|xs| - 1];
      Substituted(xs[..|xs| - 1], target, v) + [if last == target then v else last]
  }

  /** The index of the first argument satisfying `p`. */
  function FirstMatch(xs: seq<string>, p: string -> bool): (r: Option<nat>)
    ensures r.Some? ==> r.value < |xs| && p(xs[r.value])
    ensures r.Some? ==> forall j :: 0 <= j < r.value ==> !p(xs[j])
    ensures r.None? ==> forall j :: 0 <= j < |xs| ==> !p(xs[j])
  {
    if xs == [] then None
    else if p(xs[0]) then Some(0)
    else match FirstMatch(xs[1..], p)
      case None => None
      case Some(k) => Some(k + 1)
  }

  /** The arguments after the first one satisfying `p` became `rep`. */
  function ReplacedFirst(xs: seq<string>, p: string -> bool, rep: string): seq<string> {
    match FirstMatch(xs, p)
    case None => xs
    case Some(i) => xs[i := rep]
  }

  /** mutate(target, v) keeps the length, turns exactly the arguments equal
      to the target into `v`, and leaves every other argument as it was. */
  lemma {:induction false} SubstitutedAt(xs: seq<string>, target: string, v: string)
    ensures |Substituted(xs, target, v)| == |xs|
    ensures forall i :: 0 <= i < |xs| ==>
      Substituted(xs, target, v)[i] == if xs[i] == target then v else xs[i]
  {
    if xs != [] {
      SubstitutedAt(xs[..|xs| - 1], target, v);
    }
  }

  /** The first form of mutate is the second with "equals target" as the
      predicate and "always v" as the action. */
  lemma SubstitutedIsRewritten(xs: seq<string>, target: string, v: string)
    ensures Substituted(xs, target, v) == Rewritten(xs, x => x == target, x => v)
  {
    SubstitutedAt(xs, target, v);
    RewrittenAt(xs, x => x == target, x => v);
  }

  /** After mutate(target, v) with v different from the target, no
      argument equals the target any more, and a second identical call
      changes nothing. */
  lemma SubstitutedRemovesTarget(xs: seq<string>, target: string, v: string)
    ensures target != v ==> target !in Substituted(xs, target, v)
    ensures Substituted(Substituted(xs, target, v), target, v) == Substituted(xs, target, v)
  {
    var once := Substituted(xs, target, v);
    SubstitutedAt(xs, target, v);
    SubstitutedAt(once, target, v);
  }

  /** replaceFirst changes at most one argument, the first that matches,
      and changes nothing when none matches. */
  lemma ReplacedFirstChangesOne(xs: seq<string>, p: string -> bool, rep: string)
    ensures |ReplacedFirst(xs, p, rep)| == |xs|
    ensures forall j, k :: 0 <= j < k < |xs| && ReplacedFirst(xs, p, rep)[j] != xs[j] ==>
      ReplacedFirst(xs, p, rep)[k] == xs[k]
    ensures forall j :: 0 <= j < |xs| && ReplacedFirst(xs, p, rep)[j] != xs[j] ==>
      p(xs[j]) && forall i :: 0 <= i < j ==> !p(xs[i])
    ensures (forall j :: 0 <= j < |xs| ==> !p(xs[j])) ==> ReplacedFirst(xs, p, rep) == xs
    ensures (exists j :: 0 <= j < |xs| && p(xs[j])) ==>
      exists j :: 0 <= j < |xs| && p(xs[j]) && ReplacedFirst(xs, p, rep)[j] == rep
  {
    match FirstMatch(xs, p)
    case None =>
    case Some(i) =>
  }

  class CommandBuilder {
    var args: seq<string>

    /** CommandBuilder.builder(): no arguments yet. */
    constructor ()
      ensures args == []
    {
      args := [];
    }

    /** add(arg): the argument goes to the end. */
    method Add(arg: string)
      modifies this
      ensures args == old(args) + [arg]
    {
      args := args + [arg];
    }

    /** add(args...): each argument is added in turn, so they follow the
        old arguments in the order given. */
    method AddAll(more: seq<string>)
      modifies this
      ensures args == old(args) + more
    {
      for i := 0 to |more|
        invariant args == old(args) + more[..i]
      {
        Add(more[i]);
        assert more[..i + 1] == more[..i] + [more[i]];
      }
    }

    /** mutate(target, newValue): every argument equal to the target is
        set to the new value, index by index. */
    method Mutate(target: string, newValue: string)
      modifies this
      ensures args == Substituted(old(args), target, newValue)
    {
      ghost var before := args;
      for i := 0 to |args|
        invariant |args| == |before|
        invariant forall j :: 0 <= j < i ==> args[j] == if before[j] == target then newValue else before[j]
        invariant forall j :: i <= j < |args| ==> args[j] == before[j]
      {
        if target == args[i] {
          args := args[i := newValue];
        }
      }
      SubstitutedAt(before, target, newValue);
    }

    /** mutate(target, action): every argument the predicate accepts is
        set to the action applied to it. */
    method MutateWhere(target: string -> bool, action: string -> string)
      modifies this
      ensures args == Rewritten(old(args), target, action)
    {
      ghost var before := args;
      for i := 0 to |args|
        invariant |args| == |before|
        invariant forall j :: 0 <= j < i ==> args[j] == if target(before[j]) then action(before[j]) else before[j]
        invariant forall j :: i <= j < |args| ==> args[j] == before[j]
      {
        var x := args[i];
        if target(x) {
          args := args[i := action(x)];
        }
      }
      RewrittenAt(before, target, action);
    }

    /** replaceFirst(regex, replacement): the scan stops at the first
        argument that matches and sets it. */
    method ReplaceFirst(matches: string -> bool, replacement: string)
      modifies this
      ensures args == ReplacedFirst(old(args), matches, replacement)
    {
      for i := 0 to |args|
        invariant forall j :: 0 <= j < i ==> !matches(args[j])
        invariant args == old(args)
      {
        var x := args[i];
        if matches(x) {
          args := args[i := replacement];
          return;
        }
      }
    }

    /** build(): a new array holding the arguments in insertion order. */
    method Build() returns (r: array<string>)
      ensures fresh(r) && r[..] == args
    {
      r := new string[|args|];
      for i := 0 to |args|
        invariant forall j :: 0 <= j < i ==> r[j] == args[j]
      {
        r[i] := args[i];
      }
    }
  }
}
