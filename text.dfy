/** The java.lang.String operations the modelled code relies on:
    String.split (with its rule of dropping trailing empty strings),
    String.join / StringJoiner, trim, startsWith, lastIndexOf,
    literal replaceFirst and ASCII equalsIgnoreCase. */
module Text {
  import opened Wrappers
  import opened Decimals

  /** The characters the regex class \s matches. */
  predicate IsWhitespace(c: char) {
    c == ' ' || c == '\t' || c == '\n' || c == '\U{B}' || c == '\U{C}' || c == '\r'
  }

  predicate StartsWith(s: string, prefix: string) {
    |prefix| <= |s| && s[..|prefix|] == prefix
  }

  /** String.trim: drops every leading and trailing character <= ' '. */
  function Trim(s: string): (r: string)
    ensures |r| <= |s|
    ensures r == [] || (r[0] > ' ' && r[|r| - 1] > ' ')
    ensures (forall i :: 0 <= i < |s| ==> s[i] <= ' ') ==> r == []
  {
    TrimEnd(TrimStart(s))
  }

  function TrimStart(s: string): (r: string)
    ensures |r| <= |s| && r == s[|s| - |r|..]
    ensures r == [] || r[0] > ' '
    ensures forall i :: 0 <= i < |s| - |r| ==> s[i] <= ' '
  {
    if s != [] && s[0] <= ' ' then TrimStart(s[1..]) else s
  }

  function TrimEnd(s: string): (r: string)
    ensures |r| <= |s| && r == s[..|r|]
    ensures r == [] || r[|r| - 1] > ' '
    ensures forall i :: |r| <= i < |s| ==> s[i] <= ' '
    ensures s != [] && s[0] > ' ' ==> r != [] && r[0] == s[0]
  {
    if s != [] && s[|s| - 1] <= ' ' then TrimEnd(s[..|s| - 1]) else s
  }

  /** String.lastIndexOf(char), with -1 as None. */
  function LastIndexOf(s: string, c: char): (r: Option<nat>)
    ensures r.Some? ==> r.value < |s| && s[r.value] == c && c !in s[r.value + 1..]
    ensures r.None? ==> c !in s
  {
    if s == [] then None
    else if s[|s| - 1] == c then Some(|s| - 1)
    else LastIndexOf(s[..|s| - 1], c)
  }

  predicate OccursAt(s: string, pat: string, j: nat) {
    j + |pat| <= |s| && s[j..j + |pat|] == pat
  }

  lemma OccursAtTail(s: string, pat: string, j: nat)
    requires |s| >= 1
    ensures OccursAt(s, pat, j + 1) == OccursAt(s[1..], pat, j)
  {
    if j + 1 + |pat| <= |s| {
      var a, b := s[j + 1..j + 1 + |pat|], s[1..][j..j + |pat|];
      assert |a| == |b|;
      forall k | 0 <= k < |a| ensures a[k] == b[k] {
        assert a[k] == s[j + 1 + k];
        assert b[k] == s[1..][j + k];
      }
      assert a == b;
    }
  }

  /** The index of the first occurrence of `pat` in `s`. */
  function Find(s: string, pat: string): (r: Option<nat>)
    ensures r.Some? ==> OccursAt(s, pat, r.value)
    ensures r.Some? ==> forall j :: 0 <= j < r.value ==> !OccursAt(s, pat, j)
    ensures r.None? ==> forall j: nat :: !OccursAt(s, pat, j)
    decreases |s|
  {
    if |s| < |pat| then None
    else if s[..|pat|] == pat then Some(0)
    else match Find(s[1..], pat)
      case None =>
        assert forall j: nat :: !OccursAt(s, pat, j) by {
          forall j: nat ensures !OccursAt(s, pat, j) {
            if j > 0 { OccursAtTail(s, pat, j - 1); }
          }
        }
        None
      case Some(k) =>
        OccursAtTail(s, pat, k);
        assert forall j :: 0 <= j < k + 1 ==> !OccursAt(s, pat, j) by {
          forall j | 0 <= j < k + 1 ensures !OccursAt(s, pat, j) {
            if j > 0 { OccursAtTail(s, pat, j - 1); }
          }
        }
        Some(k + 1)
  }

  /** String.replaceFirst(Pattern.quote(pat), Matcher.quoteReplacement(rep)):
      the first literal occurrence of `pat` becomes `rep`. */
  function ReplaceFirst(s: string, pat: string, rep: string): string {
    match Find(s, pat)
    case None => s
    case Some(i) => s[..i] + rep + s[i + |pat|..]
  }

  /** ASCII case folding, as toLowerCase does on ASCII letters. */
  function LowerChar(c: char): char {
    if 'A' <= c <= 'Z' then (c as int + 32) as char else c
  }

  function Lower(s: string): (r: string)
    ensures |r| == |s| && forall i :: 0 <= i < |s| ==> r[i] == LowerChar(s[i])
  {
    if s == [] then [] else [LowerChar(s[0])] + Lower(s[1..])
  }

  predicate EqualsIgnoreCase(a: string, b: string) {
    Lower(a) == Lower(b)
  }

  function Repeat(c: char, n: nat): (r: string)
    ensures |r| == n && forall i :: 0 <= i < n ==> r[i] == c
  {
    if n == 0 then "" else [c] + Repeat(c, n - 1)
  }

  // ---------------------------------------------------------------------
  // Joining
  // ---------------------------------------------------------------------

  /** String.join / StringJoiner: the pieces in order with `sep` between them. */
  function Join(xs: seq<string>, sep: string): string {
    if |xs| == 0 then ""
    else if |xs| == 1 then xs[0]
    else xs[0] + sep + Join(xs[1..], sep)
  }

  lemma JoinCons(x: string, xs: seq<string>, sep: string)
    requires |xs| >= 1
    ensures Join([x] + xs, sep) == x + sep + Join(xs, sep)
  {
    assert ([x] + xs)[1..] == xs;
  }

  /** Every character of a joined string comes from a piece or from the
      separator. */
  lemma {:induction false} JoinChars(xs: seq<string>, sep: string, p: char -> bool)
    requires forall i, k :: 0 <= i < |xs| && 0 <= k < |xs[i]| ==> p(xs[i][k])
    requires forall k :: 0 <= k < |sep| ==> p(sep[k])
    ensures forall k :: 0 <= k < |Join(xs, sep)| ==> p(Join(xs, sep)[k])
    decreases |xs|
  {
    if |xs| >= 2 {
      JoinChars(xs[1..], sep, p);
      var rest := Join(xs[1..], sep);
      var s := Join(xs, sep);
      assert s == xs[0] + sep + rest;
      forall k | 0 <= k < |s| ensures p(s[k]) {
        if k < |xs[0]| {
          assert s[k] == xs[0][k];
        } else if k < |xs[0]| + |sep| {
          assert s[k] == sep[k - |xs[0]|];
        } else {
          assert s[k] == rest[k - |xs[0]| - |sep|];
        }
      }
    } else if |xs| == 1 {
      assert Join(xs, sep) == xs[0];
    }
  }

  lemma JoinStartsWith(xs: seq<string>, sep: string)
    requires |xs| >= 1
    ensures StartsWith(Join(xs, sep), xs[0])
  {
  }

  // ---------------------------------------------------------------------
  // Splitting at single characters: String.split(",") and the like
  // ---------------------------------------------------------------------

  /** The pieces between the occurrences of `c`, before Java drops the
      trailing empty ones. */
  function Fields(s: string, c: char): (r: seq<string>)
    ensures |r| >= 1
    ensures forall i :: 0 <= i < |r| ==> c !in r[i]
    decreases |s|
  {
    match IndexOf(s, c)
    case None => [s]
    case Some(i) => [s[..i]] + Fields(s[i + 1..], c)
  }

  /** The pieces of `xs` up to the last non-empty one. */
  function DropTrailingEmpty(xs: seq<string>): (r: seq<string>)
    ensures |r| <= |xs| && r == xs[..|r|]
    ensures r == [] || r[|r| - 1] != ""
    ensures forall i :: |r| <= i < |xs| ==> xs[i] == ""
  {
    if xs == [] then []
    else if xs[|xs| - 1] == "" then DropTrailingEmpty(xs[..|xs| - 1])
    else xs
  }

  /** String.split with a one-character pattern: no match gives the whole
      string; otherwise the trailing empty pieces are removed. */
  function SplitAt(s: string, c: char): (r: seq<string>)
    ensures forall i :: 0 <= i < |r| ==> c !in r[i]
  {
    var raw := Fields(s, c);
    if |raw| == 1 then raw else DropTrailingEmpty(raw)
  }

  /** Splitting at `c` and joining with `c` gives the string back. */
  lemma {:induction false} FieldsJoin(s: string, c: char)
    ensures Join(Fields(s, c), [c]) == s
    decreases |s|
  {
    match IndexOf(s, c)
    case None =>
    case Some(i) =>
      var rest := Fields(s[i + 1..], c);
      FieldsJoin(s[i + 1..], c);
      JoinCons(s[..i], rest, [c]);
      assert s == s[..i] + [c] + s[i + 1..];
  }

  /** Joining pieces free of `c` with `c` and splitting gives the pieces back. */
  lemma {:induction false} JoinFields(xs: seq<string>, c: char)
    requires |xs| >= 1
    requires forall i :: 0 <= i < |xs| ==> c !in xs[i]
    ensures Fields(Join(xs, [c]), c) == xs
    decreases |xs|
  {
    if |xs| == 1 {
      assert IndexOf(xs[0], c).None?;
    } else {
      var s := Join(xs, [c]);
      assert s == xs[0] + [c] + Join(xs[1..], [c]);
      assert s[..|xs[0]|] == xs[0];
      IndexOfFirst(s, c, |xs[0]|);
      assert s[|xs[0]| + 1..] == Join(xs[1..], [c]);
      JoinFields(xs[1..], c);
    }
  }

  /** Java's split with `c` inverts joining with `c` when no piece holds `c`
      and the last piece is not empty. */
  lemma SplitAtJoin(xs: seq<string>, c: char)
    requires |xs| >= 1 && xs[|xs| - 1] != ""
    requires forall i :: 0 <= i < |xs| ==> c !in xs[i]
    ensures SplitAt(Join(xs, [c]), c) == xs
  {
    JoinFields(xs, c);
  }

  // ---------------------------------------------------------------------
  // Splitting at runs of characters: String.split("\\s+"), split("[=]+")
  // ---------------------------------------------------------------------

  function FirstWhere(s: string, p: char -> bool): (r: Option<nat>)
    ensures r.Some? ==> r.value < |s| && p(s[r.value])
    ensures r.Some? ==> forall j :: 0 <= j < r.value ==> !p(s[j])
    ensures r.None? ==> forall j :: 0 <= j < |s| ==> !p(s[j])
  {
    if s == [] then None
    else if p(s[0]) then Some(0)
    else match FirstWhere(s[1..], p)
      case None => None
      case Some(k) => Some(k + 1)
  }

  /** The end of the run of `p` characters that starts at i. */
  function RunEnd(s: string, i: nat, p: char -> bool): (j: nat)
    requires i <= |s|
    ensures i <= j <= |s|
    ensures forall k :: i <= k < j ==> p(s[k])
    ensures j == |s| || !p(s[j])
    decreases |s| - i
  {
    if i < |s| && p(s[i]) then RunEnd(s, i + 1, p) else i
  }

  /** The pieces between maximal runs of `p` characters, before Java drops
      the trailing empty ones. */
  function Runs(s: string, p: char -> bool): (r: seq<string>)
    ensures |r| >= 1
    ensures forall i :: 0 <= i < |r| ==> forall k :: 0 <= k < |r[i]| ==> !p(r[i][k])
    decreases |s|
  {
    match FirstWhere(s, p)
    case None => [s]
    case Some(i) => [s[..i]] + Runs(s[RunEnd(s, i, p)..], p)
  }

  /** String.split with a regex of the form "[...]+". */
  function SplitRuns(s: string, p: char -> bool): (r: seq<string>)
    ensures forall i :: 0 <= i < |r| ==> forall k :: 0 <= k < |r[i]| ==> !p(r[i][k])
  {
    var raw := Runs(s, p);
    if |raw| == 1 then raw else DropTrailingEmpty(raw)
  }

  /** Tokens with no separator in them, joined by one separator, split back
      into the same tokens. */
  lemma {:induction false} JoinRuns(ts: seq<string>, sep: char, p: char -> bool)
    requires |ts| >= 1 && p(sep)
    requires forall i :: 0 <= i < |ts| ==> |ts[i]| >= 1
    requires forall i :: 0 <= i < |ts| ==> forall k :: 0 <= k < |ts[i]| ==> !p(ts[i][k])
    ensures Runs(Join(ts, [sep]), p) == ts
    decreases |ts|
  {
    if |ts| == 1 {
      assert FirstWhere(ts[0], p).None?;
    } else {
      var s := Join(ts, [sep]);
      var rest := Join(ts[1..], [sep]);
      var n := |ts[0]|;
      assert s == ts[0] + [sep] + rest;
      assert rest[0] == ts[1][0] by {
        JoinStartsWith(ts[1..], [sep]);
      }
      assert FirstWhere(s, p) == Some(n) by {
        FirstWhereAt(s, p, n);
      }
      assert RunEnd(s, n, p) == n + 1 by {
        assert RunEnd(s, n + 1, p) == n + 1;
      }
      assert s[..n] == ts[0];
      assert s[n + 1..] == rest;
      JoinRuns(ts[1..], sep, p);
    }
  }

  lemma FirstWhereAt(s: string, p: char -> bool, n: nat)
    requires n < |s| && p(s[n]) && forall j :: 0 <= j < n ==> !p(s[j])
    ensures FirstWhere(s, p) == Some(n)
  {
  }

  /** Java's split on runs of separators inverts joining non-empty,
      separator-free tokens with one separator. */
  lemma SplitRunsJoin(ts: seq<string>, sep: char, p: char -> bool)
    requires |ts| >= 1 && p(sep)
    requires forall i :: 0 <= i < |ts| ==> |ts[i]| >= 1
    requires forall i :: 0 <= i < |ts| ==> forall k :: 0 <= k < |ts[i]| ==> !p(ts[i][k])
    ensures SplitRuns(Join(ts, [sep]), p) == ts
  {
    JoinRuns(ts, sep, p);
  }
}
