/** The error record of error/Error.java and its report line "line code". */
module Errors {
  import opened Wrappers
  import opened ErrorTypes
  import Text

  /** An immutable (line, kind) record. */
  datatype Error = Error(line: int, kind: ErrorType) {

    /** The decimal line number, one space, then the kind's code. */
    function ToString(): (s: string)
      ensures |s| >= 3 && s[|s| - 2] == ' ' && s[|s| - 1] == kind.Code()
      ensures ' ' !in s[..|s| - 2]
    {
      Text.IntToDecimal(line) + " " + [kind.Code()]
    }
  }

  /** Reads a report line back into a record: None when it is not "decimal code". */
  function Parse(s: string): Option<Error> {
    var lineText := Text.BeforeSpace(s);
    var codeText := Text.AfterSpace(s);
    match Text.DecimalToInt(lineText)
    case None => None
    case Some(n) =>
      if |codeText| == 1 && FromCode(codeText[0]).Some? then Some(Error(n, FromCode(codeText[0]).value))
      else None
  }

  /** Splitting a report line at its space recovers the line number and the kind. */
  lemma ToStringRoundTrip(e: Error)
    ensures Parse(e.ToString()) == Some(e)
  {
    Text.SplitAtSpace(Text.IntToDecimal(e.line), [e.kind.Code()]);
    Text.IntDecimalRoundTrip(e.line);
    CodeRoundTrip(e.kind);
  }
}
