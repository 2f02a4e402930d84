/** FFMPEGUtils: the argument lists of the audio delay, audio rate,
    audio compression and image compression commands, and the
    double-quote wrapper they use for paths.

    A delay is a BigDecimal (`Dec`); the positive branch multiplies it by
    1000 in a MathContext of 12 significant digits rounding HALF_UP and
    truncates the product to an integer number of milliseconds. */
module FfmpegUtils {
  import opened Wrappers
  import opened Decimals
  import opened Text

  /** quote(a). */
  function Quote(a: string): string {
    "\"" + a + "\""
  }

  /** The quotes are the first and the last character, and what lies
      between them is the text. */
  lemma QuoteUnwrap(a: string)
    ensures |Quote(a)| == |a| + 2
    ensures Quote(a)[0] == '"' && Quote(a)[|a| + 1] == '"'
    ensures Quote(a)[1..|a| + 1] == a
  {
  }

  /** The precision of the MathContext used for the millisecond product. */
  const Significant: nat := 12

  /** The number of decimal digits of the integer n (BigDecimal.precision
      of an unscaled value; zero has one). */
  function Precision(n: int): nat {
    |NatToString(Abs(n))|
  }

  /** The unscaled value u rounded HALF_UP to `Significant` digits, kept at
      the same scale: the dropped digits become zeros. */
  function RoundSignificant(u: int): int {
    var p := Precision(u);
    if p <= Significant then u
    else
      var q := Pow10(p - Significant);
      RoundHalfUp(u as real / q as real) * q
  }

  /** delay.multiply(1000, C).toBigInteger(): the product's unscaled value
      is the delay's times 1000 at the delay's scale; it is rounded to 12
      digits and then truncated towards zero. */
  function DelayMillis(delay: Dec): (m: int)
    ensures delay.unscaled >= 0 ==> m >= 0
  {
    var u := delay.unscaled * 1000;
    assert u >= 0 && Precision(u) > Significant ==>
      u as real / Pow10(Precision(u) - Significant) as real >= 0.0;
    Truncate(RoundSignificant(u) as real / Pow10(delay.scale) as real)
  }

  /** A delay whose product has at most 12 digits is converted exactly: the
      whole number of milliseconds in it, truncated. */
  lemma DelayMillisExact(delay: Dec)
    ensures Precision(delay.unscaled * 1000) <= Significant ==>
      DelayMillis(delay) == Truncate(delay.Value() * 1000.0)
  {
    ThousandfoldQuotient(delay.unscaled, Pow10(delay.scale) as real);
  }

  lemma ThousandfoldQuotient(u: int, p: real)
    requires p > 0.0
    ensures (u * 1000) as real / p == (u as real / p) * 1000.0
  {
    assert (u * 1000) as real == u as real * 1000.0;
    assert (u as real * 1000.0) / p == (u as real / p) * 1000.0;
  }

  /** The four channel delays of the adelay filter, joined with '|'. */
  function ChannelDelays(s: string): string {
    Join([s, s, s, s], "|")
  }

  /** delayAudio(delay, input, output). A delay that is not negative
      (signum > -1) delays all four channels by the same number of
      milliseconds; a negative one seeks past the negated delay, printed
      with toPlainString. */
  function DelayAudio(delay: Dec, input: string, output: string): seq<string> {
    if delay.unscaled >= 0 then
      var s := IntToString(DelayMillis(delay));
      ["-y", "-i", Quote(input), "-af", Quote("adelay=" + ChannelDelays(s)), "-map", "0:a", Quote(output)]
    else
      ["-y", "-i", Quote(input), "-ss", PlainString(delay.Negate()), "-map", "0:a", Quote(output)]
  }

  /** Four equal fields of digits come back from the joined text when it
      is split at '|'. */
  lemma ChannelDelaysSplit(s: string)
    requires |s| >= 1 && AllDigits(s)
    ensures SplitAt(ChannelDelays(s), '|') == [s, s, s, s]
  {
    SplitAtJoin([s, s, s, s], '|');
  }

  /** Both branches read the quoted input, map the audio stream and write
      the quoted output. A delay that is not negative gives a filter whose
      four '|'-separated fields are the same number of milliseconds, each
      readable back as that number; a negative delay gives a seek whose
      text reads back as the negated delay, a positive amount. */
  lemma DelayAudioShape(delay: Dec, input: string, output: string)
    ensures var r := DelayAudio(delay, input, output);
      |r| == 8 && r[..3] == ["-y", "-i", Quote(input)] &&
      r[5..7] == ["-map", "0:a"] && r[7] == Quote(output)
    ensures delay.unscaled >= 0 ==>
      var r := DelayAudio(delay, input, output);
      var s := NatToString(DelayMillis(delay));
      r[3] == "-af" && r[4] == Quote("adelay=" + ChannelDelays(s)) &&
      SplitAt(ChannelDelays(s), '|') == [s, s, s, s] &&
      DigitsValue(s) == DelayMillis(delay)
    ensures delay.unscaled < 0 ==>
      var r := DelayAudio(delay, input, output);
      r[3] == "-ss" && ParseDecimal(r[4]) == Some(delay.Negate()) &&
      delay.Negate().Value() > 0.0
  {
    if delay.unscaled >= 0 {
      DelayForward(delay, input, output);
    } else {
      DelaySeek(delay, input, output);
    }
  }

  lemma DelayForward(delay: Dec, input: string, output: string)
    requires delay.unscaled >= 0
    ensures var r := DelayAudio(delay, input, output);
      |r| == 8 && r[..3] == ["-y", "-i", Quote(input)] &&
      r[5..7] == ["-map", "0:a"] && r[7] == Quote(output)
    ensures var r := DelayAudio(delay, input, output);
      var s := NatToString(DelayMillis(delay));
      r == ["-y", "-i", Quote(input), "-af", Quote("adelay=" + ChannelDelays(s)), "-map", "0:a", Quote(output)] &&
      SplitAt(ChannelDelays(s), '|') == [s, s, s, s] &&
      DigitsValue(s) == DelayMillis(delay)
  {
    var m := DelayMillis(delay);
    var s := NatToString(m);
    assert IntToString(m) == s;
    ChannelDelaysSplit(s);
    NatToStringValue(m);
  }

  lemma DelaySeek(delay: Dec, input: string, output: string)
    requires delay.unscaled < 0
    ensures var r := DelayAudio(delay, input, output);
      |r| == 8 && r[..3] == ["-y", "-i", Quote(input)] &&
      r[5..7] == ["-map", "0:a"] && r[7] == Quote(output)
    ensures var r := DelayAudio(delay, input, output);
      r[3] == "-ss" && ParseDecimal(r[4]) == Some(delay.Negate()) && delay.Negate().Value() > 0.0
  {
    var n := delay.Negate();
    var p := PlainString(n);
    SeekArgs(delay, input, output, p);
    PlainStringRoundTrip(n);
    PositiveValue(n.unscaled, Pow10(n.scale) as real);
    SeekCore(DelayAudio(delay, input, output), Quote(input), p, Quote(output), n);
  }

  lemma SeekArgs(delay: Dec, input: string, output: string, p: string)
    requires delay.unscaled < 0 && p == PlainString(delay.Negate())
    ensures DelayAudio(delay, input, output) == ["-y", "-i", Quote(input), "-ss", p, "-map", "0:a", Quote(output)]
  {
  }

  lemma SeekCore(r: seq<string>, qi: string, p: string, qo: string, n: Dec)
    requires r == ["-y", "-i", qi, "-ss", p, "-map", "0:a", qo]
    requires ParseDecimal(p) == Some(n) && n.Value() > 0.0
    ensures |r| == 8 && r[..3] == ["-y", "-i", qi] && r[5..7] == ["-map", "0:a"] && r[7] == qo
    ensures r[3] == "-ss" && ParseDecimal(r[4]) == Some(n) && n.Value() > 0.0
  {
  }

  lemma PositiveValue(u: int, p: real)
    requires u > 0 && p > 0.0
    ensures u as real / p > 0.0
  {
  }

  /** rateAudio(input, rate, isNC, output): the atempo filter, quoted,
      keeps the pitch; the nightcore form resamples from 44100 Hz and is
      not quoted. */
  function RateAudio(input: string, rate: string, isNC: bool, output: string): seq<string> {
    if !isNC then
      ["-y", "-i", Quote(input), "-filter:a", Quote("atempo=" + rate), "-vn", Quote(output)]
    else
      ["-y", "-i", Quote(input), "-filter:a", "asetrate=44100*" + rate, "-vn", Quote(output)]
  }

  /** The two modes differ in the filter argument alone, and each filter
      ends with the rate text. */
  lemma RateAudioShape(input: string, rate: string, output: string)
    ensures |RateAudio(input, rate, false, output)| == |RateAudio(input, rate, true, output)| == 7
    ensures forall i :: 0 <= i < 7 && i != 4 ==>
      RateAudio(input, rate, false, output)[i] == RateAudio(input, rate, true, output)[i]
    ensures RateAudio(input, rate, false, output)[..4] == ["-y", "-i", Quote(input), "-filter:a"]
    ensures RateAudio(input, rate, false, output)[5..] == ["-vn", Quote(output)]
    ensures RateAudio(input, rate, false, output)[4] == "\"atempo=" + rate + "\""
    ensures RateAudio(input, rate, true, output)[4] == "asetrate=44100*" + rate
  {
  }

  /** The suffix of the temporary copy compressAudio makes: the input's
      name from its last '.' on; a name without '.' makes substring(-1)
      raise StringIndexOutOfBoundsException. */
  function TempSuffix(name: string): Result<string> {
    match LastIndexOf(name, '.')
    case None => Err(IndexOutOfBoundsException)
    case Some(last) => Ok(name[last..])
  }

  /** compressAudio(input): re-encode the temporary copy `tmp` (whose path
      is given) onto the input's own path. */
  function CompressAudio(tmp: string, input: string): seq<string> {
    ["-y", "-i", Quote(tmp), "-preset", "veryslow", Quote(input)]
  }

  /** compressImage(input, output): re-encode the input as `output.jpg`. */
  function CompressImage(input: string, output: string): seq<string> {
    ["-y", "-i", Quote(input), Quote(output + ".jpg")]
  }

  /** The copy keeps the input's extension: a suffix exists exactly when
      the name holds a '.', starts with it, holds no further '.', and ends
      the name. */
  lemma TempSuffixShape(name: string)
    ensures TempSuffix(name).Ok? <==> '.' in name
    ensures TempSuffix(name).Err? ==> TempSuffix(name).thrown == IndexOutOfBoundsException
    ensures TempSuffix(name).Ok? ==>
      var x := TempSuffix(name).value;
      |x| >= 1 && x[0] == '.' && '.' !in x[1..] && name[|name| - |x|..] == x
  {
    match LastIndexOf(name, '.')
    case None =>
    case Some(last) =>
      assert name[last..][1..] == name[last + 1..];
  }

  /** Both compressions read the quoted input and write a quoted output:
      audio is read from the copy and written back over the input's path,
      an image is written beside `output` with the ".jpg" extension. */
  lemma CompressShape(tmp: string, input: string, output: string)
    ensures |CompressAudio(tmp, input)| == 6 && |CompressImage(input, output)| == 4
    ensures CompressAudio(tmp, input)[..2] == CompressImage(input, output)[..2] == ["-y", "-i"]
    ensures var a := CompressAudio(tmp, input)[2]; a[1..|a| - 1] == tmp
    ensures var a := CompressAudio(tmp, input)[5]; a[1..|a| - 1] == input
    ensures var a := CompressImage(input, output)[2]; a[1..|a| - 1] == input
    ensures var a := CompressImage(input, output)[3];
      a[1..|a| - 1] == output + ".jpg" && a[|a| - 5..] == ".jpg\""
  {
    QuoteUnwrap(tmp);
    QuoteUnwrap(input);
    QuoteUnwrap(output + ".jpg");
  }
}
