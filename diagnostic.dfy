/** The analyzer's output value types: positions, ranges, diagnostics, run statistics
    and the envelope that carries them. */
module Diagnostics {

  /** A zero-based (line, column) pair in the syntax tree's coordinates. */
  datatype Position = Position(line: int, col: int)

  datatype Range = Range(start: Position, end: Position)

  /** One finding. An empty `ruleId`, `severity` or `tags` means the rule left it
      to the engine to fill in. */
  datatype Diagnostic = Diagnostic(
    ruleId: string,
    severity: string,
    message: string,
    explanation: string,
    range: Range,
    tags: seq<string>,
    docsUrl: string)

  datatype Stats = Stats(parseMS: int, analyzeMS: int, rulesRun: int)

  datatype Output = Output(
    version: string,
    path: string,
    language: string,
    diagnostics: seq<Diagnostic>,
    stats: Stats)

  /** The placeholder range (0,0)-(0,1) used where no node is at hand. */
  const FileStart := Range(Position(0, 0), Position(0, 1))
}
