/** MessageBuilder: fixed-width text columns. Each string added is padded
    with spaces to the column width; a longer one is cut to the width
    when auto-clamp is on and is refused otherwise; with auto-newline
    every add call ends its strings with one line separator.

    System.lineSeparator() depends on the platform and is given to the
    constructor. */
module MessageBuilders {
  import opened Wrappers
  import opened Text

  /** The text one string contributes to a column `spacing` wide. A
      string that is too long raises IllegalStateException unless
      clamping; clamping to a negative width makes substring raise
      StringIndexOutOfBoundsException. */
  function Cell(s: string, spacing: int, clamp: bool): Result<string> {
    if spacing - |s| < 0 then
      if !clamp then Err(IllegalStateException)
      else if spacing < 0 then Err(IndexOutOfBoundsException)
      else Ok(s[..spacing])
    else Ok(s + Repeat(' ', spacing - |s|))
  }

  /** What the strings of one add call append before the first string that
      fails, and that string's exception. */
  datatype Appended = Appended(text: string, failure: Option<Thrown>)

  function Cells(strs: seq<string>, spacing: int, clamp: bool): Appended {
    if strs == [] then Appended("", None)
    else
      var before := Cells(strs[..|strs| - 1], spacing, clamp);
      if before.failure.Some? then before
      else match Cell(strs[|strs| - 1], spacing, clamp)
        case Err(e) => Appended(before.text, Some(e))
        case Ok(c) => Appended(before.text + c, None)
  }

  /** A column is exactly `spacing` characters: the string followed by
      spaces when it fits, its first `spacing` characters when it is cut.
      A string fails exactly when it is too long and clamping is off or the
      width is negative. */
  lemma CellWidth(s: string, spacing: int, clamp: bool)
    ensures Cell(s, spacing, clamp).Err? <==> |s| > spacing && (!clamp || spacing < 0)
    ensures Cell(s, spacing, clamp).Ok? ==>
      var c := Cell(s, spacing, clamp).value;
      |c| == spacing &&
      (|s| <= spacing ==> c[..|s|] == s && forall k :: |s| <= k < spacing ==> c[k] == ' ') &&
      (|s| > spacing ==> c == s[..spacing])
  {
  }

  /** An add call that fails at no string appends one column per string,
      so spacing times the number of strings; and clamping with a width
      that is not negative never fails. */
  lemma {:induction false} CellsWidth(strs: seq<string>, spacing: int, clamp: bool)
    ensures Cells(strs, spacing, clamp).failure.None? ==>
      |Cells(strs, spacing, clamp).text| == spacing * |strs|
    ensures clamp && spacing >= 0 ==> Cells(strs, spacing, clamp).failure.None?
  {
    if strs != [] {
      CellsWidth(strs[..|strs| - 1], spacing, clamp);
      CellWidth(strs[|strs| - 1], spacing, clamp);
      MulStep(spacing, |strs|);
    }
  }

  lemma MulStep(a: int, n: nat)
    requires n >= 1
    ensures a * (n - 1) + a == a * n
  {
  }

  /** One more string: its column, or its exception. */
  lemma CellsStep(strs: seq<string>, i: nat, spacing: int, clamp: bool)
    requires i < |strs| && Cells(strs[..i], spacing, clamp).failure.None?
    ensures Cells(strs[..i + 1], spacing, clamp) ==
      match Cell(strs[i], spacing, clamp)
      case Err(e) => Appended(Cells(strs[..i], spacing, clamp).text, Some(e))
      case Ok(c) => Appended(Cells(strs[..i], spacing, clamp).text + c, None)
  {
    assert strs[..i + 1][..i] == strs[..i];
  }

  /** The strings after the first failing one change nothing. */
  lemma {:induction false} CellsStop(strs: seq<string>, n: nat, spacing: int, clamp: bool)
    requires n <= |strs| && Cells(strs[..n], spacing, clamp).failure.Some?
    ensures Cells(strs, spacing, clamp) == Cells(strs[..n], spacing, clamp)
    decreases |strs| - n
  {
    if n < |strs| {
      var next := strs[..n + 1];
      assert next[..n] == strs[..n];
      CellsStop(strs, n + 1, spacing, clamp);
    } else {
      assert strs[..n] == strs;
    }
  }

  class MessageBuilder {
    var msg: string
    var isAutoClamp: bool
    var isAutoInsertNewLine: bool
    const spacing: int
    const lineSeparator: string

    /** MessageBuilder.builder(spacing): empty, both options off. */
    constructor (spacing: int, lineSeparator: string)
      ensures msg == "" && !isAutoClamp && !isAutoInsertNewLine
      ensures this.spacing == spacing && this.lineSeparator == lineSeparator
    {
      msg := "";
      isAutoClamp := false;
      isAutoInsertNewLine := false;
      this.spacing := spacing;
      this.lineSeparator := lineSeparator;
    }

    method SetAutoNewline(state: bool)
      modifies this
      ensures isAutoInsertNewLine == state
      ensures msg == old(msg) && isAutoClamp == old(isAutoClamp)
    {
      isAutoInsertNewLine := state;
    }

    method SetAutoClamp(state: bool)
      modifies this
      ensures isAutoClamp == state
      ensures msg == old(msg) && isAutoInsertNewLine == old(isAutoInsertNewLine)
    {
      isAutoClamp := state;
    }

    method AddLineSeparator()
      modifies this
      ensures msg == old(msg) + lineSeparator
      ensures isAutoClamp == old(isAutoClamp) && isAutoInsertNewLine == old(isAutoInsertNewLine)
    {
      msg := msg + lineSeparator;
    }

    /** addString(str, requiredSpacing): the text and then the spaces. */
    method AddString(str: string, requiredSpacing: int)
      modifies this
      ensures msg == old(msg) + str + Repeat(' ', if requiredSpacing < 0 then 0 else requiredSpacing)
      ensures isAutoClamp == old(isAutoClamp) && isAutoInsertNewLine == old(isAutoInsertNewLine)
    {
      msg := msg + str + Repeat(' ', if requiredSpacing < 0 then 0 else requiredSpacing);
    }

    /** add(strings...): one column per string; an exception leaves the
        columns of the strings before it in place; the separator comes
        once, after the last string, when auto-newline is on. */
    method Add(strings: seq<string>) returns (thrown: Option<Thrown>)
      modifies this
      ensures var a := Cells(strings, spacing, isAutoClamp);
        thrown == a.failure &&
        msg == old(msg) + a.text + (if a.failure.None? && isAutoInsertNewLine then lineSeparator else "")
      ensures isAutoClamp == old(isAutoClamp) && isAutoInsertNewLine == old(isAutoInsertNewLine)
    {
      for i := 0 to |strings|
        invariant isAutoClamp == old(isAutoClamp) && isAutoInsertNewLine == old(isAutoInsertNewLine)
        invariant Cells(strings[..i], spacing, isAutoClamp).failure.None?
        invariant msg == old(msg) + Cells(strings[..i], spacing, isAutoClamp).text
      {
        CellsStep(strings, i, spacing, isAutoClamp);
        var t := AddCell(strings[i]);
        if t.Some? {
          CellsStop(strings, i + 1, spacing, isAutoClamp);
          return t;
        }
      }
      assert strings[..|strings|] == strings;
      if isAutoInsertNewLine {
        AddLineSeparator();
      }
      return None;
    }

    /** One string of add: its column, or the exception that ends the call
        with the text unchanged. */
    method AddCell(str: string) returns (thrown: Option<Thrown>)
      modifies this
      ensures var c := Cell(str, spacing, isAutoClamp);
        (c.Err? ==> thrown == Some(c.thrown) && msg == old(msg)) &&
        (c.Ok? ==> thrown.None? && msg == old(msg) + c.value)
      ensures isAutoClamp == old(isAutoClamp) && isAutoInsertNewLine == old(isAutoInsertNewLine)
    {
      var requiredSpacing := spacing - |str|;
      if requiredSpacing < 0 {
        if !isAutoClamp {
          return Some(IllegalStateException);
        } else if spacing < 0 {
          return Some(IndexOutOfBoundsException);
        } else {
          AddString(str[..spacing], 0);
          assert Repeat(' ', 0) == "";
        }
      } else {
        AddString(str, requiredSpacing);
      }
      return None;
    }

    /** build(): the text accumulated so far, unchanged. */
    method Build() returns (r: string)
      ensures r == msg
    {
      r := msg;
    }
  }

  /** A builder with auto-clamp and auto-newline on turns every add call
      into exactly one line of `spacing` characters per string. */
  method ClampedLine(spacing: nat, sep: string, strings: seq<string>) returns (line: string)
    ensures line == Cells(strings, spacing, true).text + sep
    ensures |line| == spacing * |strings| + |sep|
  {
    var b := new MessageBuilder(spacing, sep);
    b.SetAutoClamp(true);
    b.SetAutoNewline(true);
    CellsWidth(strings, spacing, true);
    var thrown := b.Add(strings);
    line := b.Build();
  }
}
