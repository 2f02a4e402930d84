/** NoteType: the kinds of note an Etterna chart row can hold, the
    character class each one is recognised by, and the lookup `of` that
    picks the first kind (in declaration order) whose class matches a
    one-character string. */
module NoteTypes {
  import opened Wrappers

  /** Declaration order matters: `of` tries the kinds in this order and the
      ordinal is what the chart key prints. */
  datatype NoteType = EMPTY | TAP | HOLD_HEAD | HOLD_TAIL | MINE | LIFT | AUTO_KEY_SOUND | FAKE
  {
    /** The identity character of the kind. */
    function IdentityChar(): char {
      match this
      case EMPTY => '0'
      case TAP => '1'
      case HOLD_HEAD => '2'
      case HOLD_TAIL => '3'
      case MINE => 'M'
      case LIFT => 'L'
      case AUTO_KEY_SOUND => 'K'
      case FAKE => 'F'
    }

    function Ordinal(): nat {
      match this
      case EMPTY => 0
      case TAP => 1
      case HOLD_HEAD => 2
      case HOLD_TAIL => 3
      case MINE => 4
      case LIFT => 5
      case AUTO_KEY_SOUND => 6
      case FAKE => 7
    }

    /** isThis: `s.matches(identity)`. Every identity is a single character
        class (or the literal "M"), so only one-character strings match. */
    predicate Matches(s: string) {
      |s| == 1 &&
      match this
      case EMPTY => s[0] !in {'1', '2', '3', '4', 'M', 'L', 'K', 'F'}
      case TAP => s[0] == '1'
      case HOLD_HEAD => s[0] == '2' || s[0] == '4'
      case HOLD_TAIL => s[0] == '3'
      case MINE => s[0] == 'M'
      case LIFT => s[0] == 'L'
      case AUTO_KEY_SOUND => s[0] == 'K'
      case FAKE => s[0] == 'F'
    }

    predicate IsEmpty() { this == EMPTY }
    predicate IsTap() { this == TAP || this == AUTO_KEY_SOUND || this == FAKE }
    predicate IsHold() { this == HOLD_HEAD || this == HOLD_TAIL }
    predicate IsHoldHead() { this == HOLD_HEAD }
    predicate IsHoldTail() { this == HOLD_TAIL }
    predicate IsMine() { this == MINE }
  }

  /** NoteType.values(), in declaration order. */
  const Values: seq<NoteType> := [EMPTY, TAP, HOLD_HEAD, HOLD_TAIL, MINE, LIFT, AUTO_KEY_SOUND, FAKE]

  /** RESERVED_REGEX: the characters [0-4MLKF]. */
  predicate IsReserved(c: char) {
    c in {'0', '1', '2', '3', '4', 'M', 'L', 'K', 'F'}
  }

  /** isOnlyReserved: removing every reserved character leaves nothing. */
  predicate IsOnlyReserved(s: string) {
    forall i :: 0 <= i < |s| ==> IsReserved(s[i])
  }

  /** The first of `types` whose class matches `s`. */
  function FirstMatch(types: seq<NoteType>, s: string): (r: Option<NoteType>)
    ensures r.Some? ==> r.value in types && r.value.Matches(s)
    ensures r.None? ==> forall t :: t in types ==> !t.Matches(s)
  {
    if types == [] then None
    else if types[0].Matches(s) then Some(types[0])
    else FirstMatch(types[1..], s)
  }

  /** The result of `of` as a value: the first matching kind, or
      IllegalStateException when none matches. */
  function TypeOf(s: string): Result<NoteType> {
    match FirstMatch(Values, s)
    case Some(t) => Ok(t)
    case None => Err(IllegalStateException)
  }

  /** NoteType.of: try each kind in declaration order. */
  method Of(s: string) returns (r: Result<NoteType>)
    ensures r == TypeOf(s)
  {
    var i := 0;
    while i < |Values|
      invariant 0 <= i <= |Values|
      invariant FirstMatch(Values, s) == FirstMatch(Values[i..], s)
    {
      if Values[i].Matches(s) {
        return Ok(Values[i]);
      }
      assert Values[i..][1..] == Values[i + 1..];
      i := i + 1;
    }
    return Err(IllegalStateException);
  }

  /** EMPTY's class is a negated one, so every one-character string matches
      some kind: `of` fails exactly on strings whose length is not one. */
  lemma TypeOfFailsIffNotOneChar(s: string)
    ensures TypeOf(s).Err? <==> |s| != 1
  {
    if |s| == 1 {
      if s[0] !in {'1', '2', '3', '4', 'M', 'L', 'K', 'F'} {
        assert EMPTY.Matches(s);
      } else {
        assert TAP.Matches(s) || HOLD_HEAD.Matches(s) || HOLD_TAIL.Matches(s) || MINE.Matches(s)
          || LIFT.Matches(s) || AUTO_KEY_SOUND.Matches(s) || FAKE.Matches(s);
      }
    }
  }

  /** The kind a single character stands for. */
  function CharType(c: char): NoteType {
    if c == '1' then TAP
    else if c == '2' || c == '4' then HOLD_HEAD
    else if c == '3' then HOLD_TAIL
    else if c == 'M' then MINE
    else if c == 'L' then LIFT
    else if c == 'K' then AUTO_KEY_SOUND
    else if c == 'F' then FAKE
    else EMPTY
  }

  /** `of` on a one-character string is CharType: '2' and '4' are both
      hold heads, '0' (and anything unreserved) is empty. */
  lemma {:induction false} TypeOfChar(c: char)
    ensures TypeOf([c]) == Ok(CharType(c))
    ensures c == '0' ==> CharType(c) == EMPTY
  {
    var s := [c];
    var vs := Values;
    var k := 0;
    while k < |vs| && !vs[k].Matches(s)
      invariant 0 <= k <= |vs|
      invariant FirstMatch(Values, s) == FirstMatch(vs[k..], s)
      invariant forall j :: 0 <= j < k ==> vs[j] != CharType(c)
    {
      assert vs[k..][1..] == vs[k + 1..];
      k := k + 1;
    }
    assert k < |vs| && vs[k] == CharType(c) by {
      assert CharType(c).Matches(s);
      assert CharType(c) in vs;
    }
  }

  /** The reserved characters are exactly the empty cell '0' and the
      characters that stand for a kind of their own, so a string is only
      reserved characters exactly when each of them is one of those. */
  lemma OnlyReservedKinds(s: string)
    ensures IsOnlyReserved(s) <==> forall i :: 0 <= i < |s| ==> s[i] == '0' || CharType(s[i]) != EMPTY
  {
    forall i | 0 <= i < |s|
      ensures IsReserved(s[i]) <==> s[i] == '0' || CharType(s[i]) != EMPTY
    {
    }
  }

  /** A kind's identity character is looked up as that kind again. */
  lemma TypeOfIdentityChar(t: NoteType)
    ensures IsReserved(t.IdentityChar())
    ensures TypeOf([t.IdentityChar()]) == Ok(t)
  {
    TypeOfChar(t.IdentityChar());
  }

  /** isHold is isHoldHead or isHoldTail, and no kind is both. */
  lemma HoldIsHeadOrTail(t: NoteType)
    ensures t.IsHold() <==> t.IsHoldHead() || t.IsHoldTail()
    ensures !(t.IsHoldHead() && t.IsHoldTail())
    ensures t.IsHold() ==> !t.IsTap() && !t.IsEmpty()
  {
  }
}
