/** IOCommand: one input, one output ffmpeg command, built from global
    flags, input options and output options. The execution listener is
    not part of this model. */
module IoCommands {
  import opened FfmpegUtils

  datatype IoCommand = IoCommand(
    isQuotePaths: bool,
    globalFlags: seq<string>,
    inputFile: string,
    inputOptions: seq<string>,
    outputOptions: seq<string>,
    outputFile: string)
  {
    /** countArgs(). */
    function CountArgs(): int {
      2 + |globalFlags| + |inputOptions| + |outputOptions|
    }

    /** getInputFile(): the path, in double quotes when isQuotePaths. */
    function InputFile(): string {
      if isQuotePaths then Quote(inputFile) else inputFile
    }

    /** getOutputFile(): the path, in double quotes when isQuotePaths. */
    function OutputFile(): string {
      if isQuotePaths then Quote(outputFile) else outputFile
    }

    /** build(ffmpeg). */
    function Build(ffmpeg: string): seq<string> {
      [ffmpeg] + globalFlags + inputOptions + ["-i", InputFile()] + outputOptions + [OutputFile()]
    }
  }

  /** The command reads: the executable, the global flags, the input
      options, "-i" and the input path, the output options and the output
      path, each list copied in its own order. It is two longer than
      countArgs reports, which leaves out the executable and "-i". */
  lemma BuildLayout(c: IoCommand, ffmpeg: string)
    ensures var r := c.Build(ffmpeg);
      var g, i, o := |c.globalFlags|, |c.inputOptions|, |c.outputOptions|;
      |r| == 4 + g + i + o && |r| == c.CountArgs() + 2 &&
      r[0] == ffmpeg &&
      r[1..1 + g] == c.globalFlags &&
      r[1 + g..1 + g + i] == c.inputOptions &&
      r[1 + g + i] == "-i" && r[2 + g + i] == c.InputFile() &&
      r[3 + g + i..3 + g + i + o] == c.outputOptions &&
      r[3 + g + i + o] == c.OutputFile()
  {
    var r := c.Build(ffmpeg);
    var g, i, o := |c.globalFlags|, |c.inputOptions|, |c.outputOptions|;
    assert r == [ffmpeg] + (c.globalFlags + (c.inputOptions + (["-i", c.InputFile()] + (c.outputOptions + [c.OutputFile()]))));
  }

  /** The input and output arguments are the quoted paths exactly when
      isQuotePaths is set, and the paths themselves otherwise. */
  lemma PathsQuotedIff(c: IoCommand)
    ensures c.InputFile() == Quote(c.inputFile) <==> c.isQuotePaths
    ensures c.OutputFile() == Quote(c.outputFile) <==> c.isQuotePaths
    ensures !c.isQuotePaths ==> c.InputFile() == c.inputFile && c.OutputFile() == c.outputFile
    ensures c.isQuotePaths ==> c.InputFile()[1..|c.inputFile| + 1] == c.inputFile
    ensures c.isQuotePaths ==> c.OutputFile()[1..|c.outputFile| + 1] == c.outputFile
  {
    QuoteUnwrap(c.inputFile);
    QuoteUnwrap(c.outputFile);
  }
}
