/** StringUtils: the integer recogniser and the clamping integer parser,
    quoting, the file-name and extension split at the last '.', and path
    building.

    BigInteger's parser also accepts non-ASCII Unicode digits; the model
    accepts the ASCII digits only. */
module StringUtil {
  import opened Wrappers
  import opened Decimals
  import opened Text

  const MaxInt: int := 0x7fff_ffff
  const MinInt: int := -0x8000_0000

  /** isInteger: s matches -?[0-9]+ as a whole. */
  predicate IsInteger(s: string) {
    var digits := if |s| > 0 && s[0] == '-' then s[1..] else s;
    |digits| >= 1 && AllDigits(digits)
  }

  /** new BigInteger(s): an optional '-' or '+' and at least one digit;
      anything else is a NumberFormatException. */
  function ParseBigInteger(s: string): Option<int> {
    if |s| > 0 && (s[0] == '-' || s[0] == '+') then
      var digits := s[1..];
      if |digits| >= 1 && AllDigits(digits) then
        Some(if s[0] == '-' then -(DigitsValue(digits) as int) else DigitsValue(digits) as int)
      else None
    else if |s| >= 1 && AllDigits(s) then Some(DigitsValue(s) as int)
    else None
  }

  /** The int parseInt returns for the integer v: v itself when it fits,
      otherwise the nearer end of the int range. */
  function Clamp(v: int): int {
    if v > MaxInt then MaxInt else if v < MinInt then MinInt else v
  }

  /** parseInt(s). */
  function ParseInt(s: string): Result<int> {
    match ParseBigInteger(s)
    case None => Err(NumberFormatException)
    case Some(v) => Ok(Clamp(v))
  }

  /** Whatever text parseInt accepts, its result is an int; a number that
      fits comes back unchanged and one that does not fit comes back as
      the end of the range it lies beyond. */
  lemma ParseIntRange(s: string)
    ensures ParseInt(s).Ok? ==> MinInt <= ParseInt(s).value <= MaxInt
    ensures ParseBigInteger(s).Some? ==>
      var v := ParseBigInteger(s).value;
      (MinInt <= v <= MaxInt ==> ParseInt(s) == Ok(v)) &&
      (v > MaxInt ==> ParseInt(s) == Ok(MaxInt)) &&
      (v < MinInt ==> ParseInt(s) == Ok(MinInt))
  {
  }

  /** Printing any integer and parsing it back gives the integer clamped
      to the int range. */
  lemma ParseIntOfPrinted(i: int)
    ensures ParseBigInteger(IntToString(i)) == Some(i)
    ensures ParseInt(IntToString(i)) == Ok(Clamp(i))
  {
    if i < 0 {
      ParseNegative(-i);
    } else {
      ParseNatural(i);
    }
  }

  lemma ParseNegative(n: nat)
    requires n > 0
    ensures ParseBigInteger("-" + NatToString(n)) == Some(-(n as int))
  {
    NatToStringValue(n);
    assert ("-" + NatToString(n))[1..] == NatToString(n);
  }

  lemma ParseNatural(n: nat)
    ensures ParseBigInteger(NatToString(n)) == Some(n)
  {
    NatToStringValue(n);
  }

  /** Every text isInteger accepts parses, and every text parseInt parses
      is one isInteger accepts unless it starts with '+'. */
  lemma IsIntegerParses(s: string)
    ensures IsInteger(s) ==> ParseInt(s).Ok?
    ensures ParseInt(s).Ok? && s[0] != '+' ==> IsInteger(s)
  {
  }

  /** quote(a, quote). */
  function Quote(a: string, q: string): string {
    q + a + q
  }

  /** quote(s): quoted with a double quote character. */
  function QuoteDefault(s: string): string {
    Quote(s, "\"")
  }

  /** Quoting wraps the text: stripping |q| characters from both ends of
      the result gives the text back. */
  lemma QuoteUnwrap(a: string, q: string)
    ensures |Quote(a, q)| == |a| + 2 * |q|
    ensures StartsWith(Quote(a, q), q)
    ensures Quote(a, q)[|q|..|q| + |a|] == a
    ensures Quote(a, q)[|q| + |a|..] == q
  {
  }

  /** getFileExtension(s, withDot): from the last '.' to the end, with or
      without the '.', and java.lang.Error when there is no '.'. */
  function FileExtension(s: string, withDot: bool): Result<string> {
    match LastIndexOf(s, '.')
    case None => Err(JavaError)
    case Some(last) => Ok(if withDot then s[last..] else s[last + 1..])
  }

  /** getFileName(s): everything before the last '.', and
      MalformedParametersException when there is no '.'. */
  function FileName(s: string): Result<string> {
    match LastIndexOf(s, '.')
    case None => Err(MalformedParametersException)
    case Some(last) => Ok(s[..last])
  }

  /** Both halves exist exactly when the text holds a '.'; the name
      followed by the extension with its dot is the text again; the
      extension with its dot is '.' followed by the extension without it,
      which holds no further '.'. */
  lemma FileNameAndExtension(s: string)
    ensures FileName(s).Ok? <==> '.' in s
    ensures FileExtension(s, true).Ok? <==> '.' in s
    ensures FileExtension(s, false).Ok? <==> '.' in s
    ensures FileName(s).Ok? ==>
      FileName(s).value + FileExtension(s, true).value == s &&
      FileExtension(s, true).value == "." + FileExtension(s, false).value &&
      '.' !in FileExtension(s, false).value
  {
    match LastIndexOf(s, '.')
    case None =>
    case Some(last) =>
      assert s == s[..last] + s[last..];
      assert s[last..] == [s[last]] + s[last + 1..];
  }

  /** buildPath(elems...): the printed elements joined with '/'. The
      printed form of each element (a File's absolute path, any other
      object's toString) is given. */
  function BuildPath(elems: seq<string>): string {
    Join(elems, "/")
  }

  /** Elements free of '/' come back, in order, when the path is split at
      '/'. */
  lemma BuildPathSplits(elems: seq<string>)
    requires |elems| >= 1
    requires forall i :: 0 <= i < |elems| ==> '/' !in elems[i]
    ensures Fields(BuildPath(elems), '/') == elems
  {
    JoinFields(elems, '/');
  }
}
