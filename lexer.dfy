/**
 * The scanner of lexer/Lexer.java as a class: a cursor over the source that
 * appends tokens to its list and lexical reports to the shared registry.
 * Every scanning method is proved to do what ScanStep (one call of
 * scanToken) or ScanFrom (the whole run) of LexSpec says.
 */
module Lexing {
  import opened Wrappers
  import opened TokenTypes
  import opened Tokens
  import opened ErrorTypes
  import opened Errors
  import opened ErrorRegistry
  import opened LexSpec

  class Lexer {
    const source: string
    const errorHandler: ErrorHandler
    var tokens: seq<Token>
    var position: nat
    var lineNumber: int

    /** The cursor is inside the source and the line counter is the line of the cursor. */
    ghost predicate Positioned()
      reads this
    {
      position <= |source| && lineNumber == LineAt(source, position)
    }

    /**
     * Between two calls of scanToken: the tokens so far are exactly what
     * scanning produces before the cursor.
     */
    ghost predicate Valid()
      reads this, errorHandler
    {
      && Positioned()
      && errorHandler.Valid()
      && tokens + ScanFrom(source, position).tokens == ScanFrom(source, 0).tokens
    }

    constructor (source: string, errorHandler: ErrorHandler)
      requires errorHandler.Valid()
      ensures Valid()
      ensures this.source == source && this.errorHandler == errorHandler
      ensures tokens == [] && position == 0 && lineNumber == 1
    {
      this.source := source;
      this.errorHandler := errorHandler;
      tokens := [];
      position := 0;
      lineNumber := 1;
      assert source[..0] == [];
    }

    /**
     * getTokens: the tokens scanned so far, which are the tokens ScanFrom
     * gives for the source before the cursor; once the cursor is at the end
     * they are the whole token stream, in line order, each with a kind and
     * non-empty text on a line of the source.
     */
    function GetTokens(): (r: seq<Token>)
      requires Valid()
      reads this, errorHandler
      ensures r + ScanFrom(source, position).tokens == ScanFrom(source, 0).tokens
      ensures IsAtEnd() ==> r == ScanFrom(source, 0).tokens
      ensures TokensWithin(r, 1, LineAt(source, |source|)) && TokensOrdered(r)
    {
      ScannedTokenLines(source, 0);
      ScannedTokensOrdered(source, 0);
      assert source[..0] == [];
      assert forall i :: 0 <= i < |tokens| ==> tokens[i] == ScanFrom(source, 0).tokens[i];
      tokens
    }

    /** run: scan from the cursor to the end of the source. */
    method Run()
      requires Valid()
      modifies this, errorHandler
      ensures Valid() && position == |source|
      ensures tokens == old(tokens) + ScanFrom(source, old(position)).tokens
      ensures errorHandler.errors == old(errorHandler.errors) + ScanFrom(source, old(position)).errors
      ensures errorHandler.history == old(errorHandler.history) + ScanFrom(source, old(position)).errors
      ensures errorHandler.cleared == old(errorHandler.cleared)
    {
      while !IsAtEnd()
        invariant Valid()
        invariant old(tokens) + ScanFrom(source, old(position)).tokens == tokens + ScanFrom(source, position).tokens
        invariant old(errorHandler.errors) + ScanFrom(source, old(position)).errors
               == errorHandler.errors + ScanFrom(source, position).errors
        invariant old(errorHandler.history) + ScanFrom(source, old(position)).errors
               == errorHandler.history + ScanFrom(source, position).errors
        invariant errorHandler.cleared == old(errorHandler.cleared)
        decreases |source| - position
      {
        ghost var p := position;
        ghost var ts, es, hs := tokens, errorHandler.errors, errorHandler.history;
        ScanToken();
        RunAdvances(source, p, ts, tokens);
        ScanFromStep(source, p);
        ConcatRegroup(ts, StepTokens(source, p), ScanFrom(source, position).tokens,
          old(tokens) + ScanFrom(source, old(position)).tokens);
        ConcatRegroup(es, StepErrors(source, p), ScanFrom(source, position).errors,
          old(errorHandler.errors) + ScanFrom(source, old(position)).errors);
        ConcatRegroup(hs, StepErrors(source, p), ScanFrom(source, position).errors,
          old(errorHandler.history) + ScanFrom(source, old(position)).errors);
      }
      assert ScanFrom(source, position) == Scanned([], []);
    }

    /**
     * scanToken: consume one lexeme at the cursor, adding the token or the
     * illegal-symbol report ScanStep prescribes for it.
     */
    method ScanToken()
      requires Positioned() && errorHandler.Valid() && position < |source|
      modifies this, errorHandler
      ensures Positioned() && errorHandler.Valid()
      ensures position == ScanStep(source, old(position)).next
      ensures tokens == old(tokens) + StepTokens(source, old(position))
      ensures errorHandler.errors == old(errorHandler.errors) + StepErrors(source, old(position))
      ensures errorHandler.history == old(errorHandler.history) + StepErrors(source, old(position))
      ensures errorHandler.cleared == old(errorHandler.cleared)
    {
      ghost var p := position;
      LineAtStep(source, p);
      var c := Advance();
      if c == '\n' {
        lineNumber := lineNumber + 1;
      }
      assert Positioned();
      match c {
      case '+' | '-' | '*' | '%' | ';' | ',' | '(' | ')' | '[' | ']' | '{' | '}' => ScanSingle(c);
      case '!' => ScanRelational(c);
      case '=' => ScanRelational(c);
      case '<' => ScanRelational(c);
      case '>' => ScanRelational(c);
      case '&' => ScanLogical(c);
      case '|' => ScanLogical(c);
      case '/' => ScanSlash();
      case ' ' | '\r' | '\t' | '\n' =>
      case '"' => ScanString();
      case _ =>
        if IsDigit(c) {
          ScanNumber();
        } else if IsAlpha(c) {
          ScanIdentifier();
        } else {
          errorHandler.AddErrorAt(lineNumber, ILLEGAL_SYMBOL);
        }
      }
    }

    /** The switch arms of scanToken for the one-character operators and delimiters. */
    method ScanSingle(c: char)
      requires Positioned() && 0 < position && source[position - 1] == c && c in "+-*%;,()[]{}"
      modifies this
      ensures Positioned()
      ensures position == ScanStep(source, old(position) - 1).next
      ensures tokens == old(tokens) + StepTokens(source, old(position) - 1)
      ensures StepErrors(source, old(position) - 1) == []
    {
      SliceOfOne(source, position - 1);
      match c {
      case '+' => AddToken(PLUS, "+");
      case '-' => AddToken(MINU, "-");
      case '*' => AddToken(MULT, "*");
      case '%' => AddToken(MOD, "%");
      case ';' => AddToken(SEMICN, ";");
      case ',' => AddToken(COMMA, ",");
      case '(' => AddToken(LPARENT, "(");
      case ')' => AddToken(RPARENT, ")");
      case '[' => AddToken(LBRACK, "[");
      case ']' => AddToken(RBRACK, "]");
      case '{' => AddToken(LBRACE, "{");
      case '}' => AddToken(RBRACE, "}");
      }
    }

    /** The switch arms of scanToken for '!', '=', '<' and '>': one '=' of lookahead. */
    method ScanRelational(c: char)
      requires Positioned() && 0 < position && source[position - 1] == c && c in "!=<>"
      modifies this
      ensures Positioned()
      ensures position == ScanStep(source, old(position) - 1).next
      ensures tokens == old(tokens) + StepTokens(source, old(position) - 1)
      ensures StepErrors(source, old(position) - 1) == []
    {
      ghost var p := position - 1;
      var m := Match('=');
      if m {
        SliceOfTwo(source, p);
      } else {
        SliceOfOne(source, p);
      }
      match c {
      case '!' => if m { AddToken(NEQ, "!="); } else { AddToken(NOT, "!"); }
      case '=' => if m { AddToken(EQL, "=="); } else { AddToken(ASSIGN, "="); }
      case '<' => if m { AddToken(LEQ, "<="); } else { AddToken(LSS, "<"); }
      case '>' => if m { AddToken(GEQ, ">="); } else { AddToken(GRE, ">"); }
      }
    }

    /**
     * The switch arms of scanToken for '&' and '|': the character must be
     * doubled; a lone one is reported on the current line.
     */
    method ScanLogical(c: char)
      requires Positioned() && errorHandler.Valid()
      requires 0 < position && source[position - 1] == c && c in "&|"
      modifies this, errorHandler
      ensures Positioned() && errorHandler.Valid()
      ensures position == ScanStep(source, old(position) - 1).next
      ensures tokens == old(tokens) + StepTokens(source, old(position) - 1)
      ensures errorHandler.errors == old(errorHandler.errors) + StepErrors(source, old(position) - 1)
      ensures errorHandler.history == old(errorHandler.history) + StepErrors(source, old(position) - 1)
      ensures errorHandler.cleared == old(errorHandler.cleared)
    {
      ghost var p := position - 1;
      LineAtStep(source, p);
      var m := Match(c);
      if m {
        SliceOfTwo(source, p);
        if c == '&' { AddToken(AND, "&&"); } else { AddToken(OR, "||"); }
      } else {
        errorHandler.AddErrorAt(lineNumber, ILLEGAL_SYMBOL);
      }
    }

    /** The switch arm of scanToken for '/': a line comment, a block comment or DIV. */
    method ScanSlash()
      requires Positioned() && 0 < position && source[position - 1] == '/'
      modifies this
      ensures Positioned()
      ensures position == ScanStep(source, old(position) - 1).next
      ensures tokens == old(tokens) + StepTokens(source, old(position) - 1)
      ensures StepErrors(source, old(position) - 1) == []
    {
      var line := Match('/');
      if line {
        SkipLineComment();
      } else {
        var block := Match('*');
        if block {
          SkipBlockComment();
        } else {
          SliceOfOne(source, old(position) - 1);
          AddToken(DIV, "/");
        }
      }
    }

    /** The loop of a line comment: consume up to, not including, the next '\n'. */
    method SkipLineComment()
      requires Positioned()
      modifies this
      ensures Positioned()
      ensures position == FindChar(source, old(position), '\n')
      ensures tokens == old(tokens)
    {
      while Peek() != '\n' && !IsAtEnd()
        invariant Positioned() && old(position) <= position
        invariant forall k :: old(position) <= k < position ==> source[k] != '\n'
        invariant tokens == old(tokens)
        decreases |source| - position
      {
        LineAtStep(source, position);
        var _ := Advance();
      }
      FindCharIsFirst(source, old(position), '\n', position);
    }

    /**
     * The loop of a block comment: consume through the next closing pair,
     * or to the end of the source, counting the newlines passed.
     */
    method SkipBlockComment()
      requires Positioned()
      modifies this
      ensures Positioned()
      ensures var e := CommentClose(source, old(position));
        position == if e < |source| then e + 2 else |source|
      ensures tokens == old(tokens)
    {
      while !(Peek() == '*' && PeekNext() == '/') && !IsAtEnd()
        invariant Positioned() && old(position) <= position
        invariant forall k :: old(position) <= k < position ==> !ClosesAt(source, k)
        invariant tokens == old(tokens)
        decreases |source| - position
      {
        LineAtStep(source, position);
        if Peek() == '\n' {
          lineNumber := lineNumber + 1;
        }
        var _ := Advance();
      }
      CommentCloseIsFirst(source, old(position), position);
      if !IsAtEnd() {
        LineAtStep(source, position);
        LineAtStep(source, position + 1);
        var _ := Advance();
        var _ := Advance();
      }
    }

    /** scanString: after the opening quote, read through the closing one. */
    method ScanString()
      requires Positioned() && 0 < position && source[position - 1] == '"'
      modifies this
      ensures Positioned()
      ensures position == ScanStep(source, old(position) - 1).next
      ensures tokens == old(tokens) + StepTokens(source, old(position) - 1)
    {
      var start := position;
      while Peek() != '"' && !IsAtEnd()
        invariant Positioned() && start <= position
        invariant forall k :: start <= k < position ==> source[k] != '"'
        invariant tokens == old(tokens)
        decreases |source| - position
      {
        LineAtStep(source, position);
        if Peek() == '\n' {
          lineNumber := lineNumber + 1;
        }
        var _ := Advance();
      }
      FindCharIsFirst(source, start, '"', position);
      if IsAtEnd() {
        return;
      }
      LineAtStep(source, position);
      var _ := Advance();
      var value := source[start - 1..position];
      AddToken(STRCON, value);
    }

    /** scanNumber: after the first digit, read the rest of the digit run. */
    method ScanNumber()
      requires Positioned() && 0 < position && IsDigit(source[position - 1])
      modifies this
      ensures Positioned()
      ensures position == ScanStep(source, old(position) - 1).next
      ensures tokens == old(tokens) + StepTokens(source, old(position) - 1)
    {
      var start := position - 1;
      while IsDigit(Peek())
        invariant Positioned() && start < position
        invariant forall k :: start <= k < position ==> IsDigit(source[k])
        invariant tokens == old(tokens)
        decreases |source| - position
      {
        LineAtStep(source, position);
        var _ := Advance();
      }
      DigitRunEndIsMaximal(source, start + 1, position);
      DigitStep(source, start);
      var value := source[start..position];
      AddToken(INTCON, value);
    }

    /** scanIdentifier: read the word and look it up in the keyword table. */
    method ScanIdentifier()
      requires Positioned() && 0 < position && IsAlpha(source[position - 1])
      modifies this
      ensures Positioned()
      ensures position == ScanStep(source, old(position) - 1).next
      ensures tokens == old(tokens) + StepTokens(source, old(position) - 1)
    {
      var start := position - 1;
      while IsAlphaNumeric(Peek())
        invariant Positioned() && start < position
        invariant forall k :: start <= k < position ==> IsAlphaNumeric(source[k])
        invariant tokens == old(tokens)
        decreases |source| - position
      {
        LineAtStep(source, position);
        var _ := Advance();
      }
      WordRunEndIsMaximal(source, start + 1, position);
      WordStep(source, start);
      var text := source[start..position];
      var kind := KindOfWord(text);
      AddToken(kind, text);
    }

    /** isAtEnd: no character is left at the cursor. */
    function IsAtEnd(): bool
      reads this
    {
      position >= |source|
    }

    /** advance: return the character at the cursor and move past it (the line counter is the caller's). */
    method Advance() returns (c: char)
      requires position < |source|
      modifies this
      ensures c == source[old(position)] && position == old(position) + 1
      ensures tokens == old(tokens) && lineNumber == old(lineNumber)
    {
      c := source[position];
      position := position + 1;
    }

    /** peek: the character at the cursor, '\0' at the end. */
    function Peek(): (c: char)
      reads this
      ensures position < |source| ==> c == source[position]
      ensures position >= |source| ==> c == '\0'
    {
      if position >= |source| then '\0' else source[position]
    }

    /** peekNext: the character after the cursor, '\0' past the end. */
    function PeekNext(): (c: char)
      reads this
      ensures position + 1 < |source| ==> c == source[position + 1]
      ensures position + 1 >= |source| ==> c == '\0'
    {
      if position + 1 >= |source| then '\0' else source[position + 1]
    }

    /** match: consume the expected character if it is at the cursor. */
    method Match(expected: char) returns (b: bool)
      requires Positioned() && expected != '\n'
      modifies this
      ensures Positioned()
      ensures b <==> Follows(source, old(position), expected)
      ensures position == old(position) + (if b then 1 else 0)
      ensures tokens == old(tokens)
    {
      if IsAtEnd() || source[position] != expected {
        return false;
      }
      LineAtStep(source, position);
      position := position + 1;
      return true;
    }

    /** addToken: append a token on the current line. */
    method AddToken(kind: TokenType, text: string)
      modifies this
      ensures tokens == old(tokens) + [Token(Some(kind), text, lineNumber)]
      ensures position == old(position) && lineNumber == old(lineNumber)
    {
      tokens := tokens + [Token(Some(kind), text, lineNumber)];
    }
  }
}
