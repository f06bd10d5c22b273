/** The token record of lexer/Token.java: kind, literal text and source line. */
module Tokens {
  import opened Wrappers
  import opened TokenTypes
  import Text

  /**
   * An immutable token. The kind is None only for the end-of-input sentinel
   * the parser makes up (Java's `new Token(null, "EOF", line)`).
   */
  datatype Token = Token(kind: Option<TokenType>, text: string, line: int) {

    /** "KIND text", the trace line printed when the parser consumes this token. */
    function ToString(): (s: string)
      requires kind.Some?
      ensures |s| == |Name(kind.value)| + 1 + |text|
      ensures s[|Name(kind.value)|] == ' '
    {
      Name(kind.value) + " " + text
    }
  }

  /**
   * A trace line read back: the text before the first space names the kind
   * and the rest is the token's text, even when that text contains spaces.
   */
  lemma ToStringReadBack(t: Token)
    requires t.kind.Some?
    ensures FromName(Text.BeforeSpace(t.ToString())) == t.kind
    ensures Text.AfterSpace(t.ToString()) == t.text
  {
    NameRoundTrip(t.kind.value);
    NameShape(t.kind.value);
    Text.SplitAtSpace(Name(t.kind.value), t.text);
  }
}
