/**
 * What the scanner of lexer/Lexer.java produces, as functions of the source
 * text: ScanStep says what one call of scanToken does at an offset, ScanFrom
 * what run() produces from an offset to the end. The Lexer class is proved
 * to follow these functions; the lemmas here state the scanning rules.
 */
module LexSpec {
  import opened Wrappers
  import opened TokenTypes
  import opened Tokens
  import opened ErrorTypes
  import opened Errors

  /** The 12-entry keyword table (KEYWORDS). */
  const Keywords: map<string, TokenType> := map[
    "const" := CONSTTK, "int" := INTTK, "static" := STATICTK, "break" := BREAKTK,
    "continue" := CONTINUETK, "if" := IFTK, "else" := ELSETK, "for" := FORTK,
    "return" := RETURNTK, "void" := VOIDTK, "main" := MAINTK, "printf" := PRINTFTK
  ]

  /** The table entry for a reserved-word kind. */
  function KeywordText(k: TokenType): string
    requires IsKeyword(k)
  {
    match k
    case CONSTTK => "const"
    case INTTK => "int"
    case STATICTK => "static"
    case BREAKTK => "break"
    case CONTINUETK => "continue"
    case IFTK => "if"
    case ELSETK => "else"
    case FORTK => "for"
    case RETURNTK => "return"
    case VOIDTK => "void"
    case MAINTK => "main"
    case PRINTFTK => "printf"
  }

  /**
   * The table is a one-to-one correspondence between its 12 words and the
   * 12 reserved-word kinds.
   */
  lemma KeywordTableBijective()
    ensures forall w :: w in Keywords ==> IsKeyword(Keywords[w]) && KeywordText(Keywords[w]) == w
    ensures forall k :: IsKeyword(k) ==> KeywordText(k) in Keywords && Keywords[KeywordText(k)] == k
  {
  }

  /** The ten ASCII decimal digits, none of which can start an identifier. */
  predicate IsDigit(c: char): (b: bool)
    ensures b ==> !IsAlpha(c)
  {
    '0' <= c <= '9'
  }

  /** The ASCII letters of either case and the underscore. */
  predicate IsAlpha(c: char) { ('a' <= c <= 'z') || ('A' <= c <= 'Z') || c == '_' }

  /** A character that may continue an identifier: a letter, the underscore or a digit. */
  predicate IsAlphaNumeric(c: char) { IsAlpha(c) || IsDigit(c) }

  /** The kind of a scanned word: its table entry, IDENFR when it has none. */
  function KindOfWord(w: string): (k: TokenType)
    ensures k == IDENFR || IsKeyword(k)
    ensures IsKeyword(k) <==> w in Keywords
    ensures IsKeyword(k) ==> KeywordText(k) == w
  {
    KeywordTableBijective();
    if w in Keywords then Keywords[w] else IDENFR
  }

  function CountNewlines(s: string): nat {
    if s == [] then 0 else CountNewlines(s[..|s| - 1]) + (if s[|s| - 1] == '\n' then 1 else 0)
  }

  /** The 1-based line of offset pos: one more than the newlines before it. */
  function LineAt(src: string, pos: nat): int
    requires pos <= |src|
  {
    1 + CountNewlines(src[..pos])
  }

  lemma LineAtStep(src: string, pos: nat)
    requires pos < |src|
    ensures LineAt(src, pos + 1) == LineAt(src, pos) + (if src[pos] == '\n' then 1 else 0)
  {
    assert src[..pos + 1][..pos] == src[..pos];
  }

  lemma {:induction false} LineAtMonotone(src: string, i: nat, j: nat)
    requires i <= j <= |src|
    ensures 1 <= LineAt(src, i) <= LineAt(src, j)
  {
    if i < j {
      LineAtMonotone(src, i, j - 1);
      LineAtStep(src, j - 1);
    }
  }

  /** A span without '\n' starts and ends on the same line. */
  lemma {:induction false} LineAtNoNewline(src: string, i: nat, j: nat)
    requires i <= j <= |src|
    requires forall k :: i <= k < j ==> src[k] != '\n'
    ensures LineAt(src, i) == LineAt(src, j)
  {
    if i < j {
      LineAtNoNewline(src, i, j - 1);
      LineAtStep(src, j - 1);
    }
  }

  /** src[q] exists and is c. */
  predicate Follows(src: string, q: nat, c: char) {
    q < |src| && src[q] == c
  }

  /** The end of the longest run of digits starting at i. */
  function DigitRunEnd(src: string, i: nat): (e: nat)
    requires i <= |src|
    ensures i <= e <= |src|
    decreases |src| - i
  {
    if i < |src| && IsDigit(src[i]) then DigitRunEnd(src, i + 1) else i
  }

  /** DigitRunEnd is the one offset that ends a maximal digit run from i. */
  lemma {:induction false} DigitRunEndIsMaximal(src: string, i: nat, e: nat)
    requires i <= |src|
    ensures (i <= e <= |src| && (forall k :: i <= k < e ==> IsDigit(src[k])) && (e == |src| || !IsDigit(src[e])))
        <==> e == DigitRunEnd(src, i)
    decreases |src| - i
  {
    if i < |src| && IsDigit(src[i]) {
      DigitRunEndIsMaximal(src, i + 1, e);
    }
  }

  /** The end of the longest run of letters, digits and '_' starting at i. */
  function WordRunEnd(src: string, i: nat): (e: nat)
    requires i <= |src|
    ensures i <= e <= |src|
    decreases |src| - i
  {
    if i < |src| && IsAlphaNumeric(src[i]) then WordRunEnd(src, i + 1) else i
  }

  /** WordRunEnd is the one offset that ends a maximal word run from i. */
  lemma {:induction false} WordRunEndIsMaximal(src: string, i: nat, e: nat)
    requires i <= |src|
    ensures (i <= e <= |src| && (forall k :: i <= k < e ==> IsAlphaNumeric(src[k])) && (e == |src| || !IsAlphaNumeric(src[e])))
        <==> e == WordRunEnd(src, i)
    decreases |src| - i
  {
    if i < |src| && IsAlphaNumeric(src[i]) {
      WordRunEndIsMaximal(src, i + 1, e);
    }
  }

  /** The first offset at or after i holding c, or |src|. */
  function FindChar(src: string, i: nat, c: char): (e: nat)
    requires i <= |src|
    ensures i <= e <= |src|
    decreases |src| - i
  {
    if i < |src| && src[i] != c then FindChar(src, i + 1, c) else i
  }

  /** FindChar is the one offset from i that holds c, or is the end, with no c before it. */
  lemma {:induction false} FindCharIsFirst(src: string, i: nat, c: char, e: nat)
    requires i <= |src|
    ensures (i <= e <= |src| && (forall k :: i <= k < e ==> src[k] != c) && (e == |src| || src[e] == c))
        <==> e == FindChar(src, i, c)
    decreases |src| - i
  {
    if i < |src| && src[i] != c {
      FindCharIsFirst(src, i + 1, c, e);
    }
  }

  // The closing pair of a block comment, '*' then '/', starts at k.
  predicate ClosesAt(src: string, k: nat) {
    k + 1 < |src| && src[k] == '*' && src[k + 1] == '/'
  }

  // The first offset at or after i where a block comment closes, or |src|.
  function CommentClose(src: string, i: nat): (e: nat)
    requires i <= |src|
    ensures i <= e <= |src|
    ensures e == |src| || e + 1 < |src|
    decreases |src| - i
  {
    if i < |src| && !ClosesAt(src, i) then CommentClose(src, i + 1) else i
  }

  // CommentClose is the one offset from i where a comment closes, or the
  // end, with no closing pair before it.
  lemma {:induction false} CommentCloseIsFirst(src: string, i: nat, e: nat)
    requires i <= |src|
    ensures (i <= e <= |src| && (forall k :: i <= k < e ==> !ClosesAt(src, k)) && (e == |src| || ClosesAt(src, e)))
        <==> e == CommentClose(src, i)
    decreases |src| - i
  {
    if i < |src| && !ClosesAt(src, i) {
      CommentCloseIsFirst(src, i + 1, e);
    }
  }

  /** The one-character operator of '!', '=', '<' and '>'. */
  function OneCharOperator(c: char): TokenType
    requires c in "!=<>"
  {
    match c
    case '!' => NOT
    case '=' => ASSIGN
    case '<' => LSS
    case _ => GRE
  }

  /**
   * What one scanning step yields: a token of the given kind (its text is
   * the slice the step consumed), an illegal-symbol report, or nothing.
   */
  datatype Lexeme = Emit(kind: TokenType) | Illegal | Skip

  datatype Step = Step(next: nat, lexeme: Lexeme)

  /** One call of scanToken at offset p: where it stops and what it yields. */
  function ScanStep(src: string, p: nat): (st: Step)
    requires p < |src|
    ensures p < st.next <= |src|
  {
    var c := src[p];
    var q := p + 1;
    match c
    case '+' => Step(q, Emit(PLUS))
    case '-' => Step(q, Emit(MINU))
    case '*' => Step(q, Emit(MULT))
    case '%' => Step(q, Emit(MOD))
    case ';' => Step(q, Emit(SEMICN))
    case ',' => Step(q, Emit(COMMA))
    case '(' => Step(q, Emit(LPARENT))
    case ')' => Step(q, Emit(RPARENT))
    case '[' => Step(q, Emit(LBRACK))
    case ']' => Step(q, Emit(RBRACK))
    case '{' => Step(q, Emit(LBRACE))
    case '}' => Step(q, Emit(RBRACE))
    case '!' => if Follows(src, q, '=') then Step(q + 1, Emit(NEQ)) else Step(q, Emit(NOT))
    case '=' => if Follows(src, q, '=') then Step(q + 1, Emit(EQL)) else Step(q, Emit(ASSIGN))
    case '<' => if Follows(src, q, '=') then Step(q + 1, Emit(LEQ)) else Step(q, Emit(LSS))
    case '>' => if Follows(src, q, '=') then Step(q + 1, Emit(GEQ)) else Step(q, Emit(GRE))
    case '&' => if Follows(src, q, '&') then Step(q + 1, Emit(AND)) else Step(q, Illegal)
    case '|' => if Follows(src, q, '|') then Step(q + 1, Emit(OR)) else Step(q, Illegal)
    case '/' =>
      if Follows(src, q, '/') then Step(FindChar(src, q + 1, '\n'), Skip)
      else if Follows(src, q, '*') then
        var e := CommentClose(src, q + 1);
        Step(if e < |src| then e + 2 else |src|, Skip)
      else Step(q, Emit(DIV))
    case ' ' => Step(q, Skip)
    case '\r' => Step(q, Skip)
    case '\t' => Step(q, Skip)
    case '\n' => Step(q, Skip)
    case '"' =>
      var e := FindChar(src, q, '"');
      if e < |src| then Step(e + 1, Emit(STRCON)) else Step(|src|, Skip)
    case _ =>
      if IsDigit(c) then Step(DigitRunEnd(src, q), Emit(INTCON))
      else if IsAlpha(c) then
        var e := WordRunEnd(src, q);
        Step(e, Emit(KindOfWord(src[p..e])))
      else Step(q, Illegal)
  }

  /** The token a step at p adds: its line is the line counter after the lexeme. */
  function StepTokens(src: string, p: nat): seq<Token>
    requires p < |src|
  {
    var st := ScanStep(src, p);
    match st.lexeme
    case Emit(k) => [Token(Some(k), src[p..st.next], LineAt(src, st.next))]
    case _ => []
  }

  /** The report a step at p adds, on the line of the offending character. */
  function StepErrors(src: string, p: nat): seq<Error>
    requires p < |src|
  {
    if ScanStep(src, p).lexeme.Illegal? then [Error(LineAt(src, p), ILLEGAL_SYMBOL)] else []
  }

  datatype Scanned = Scanned(tokens: seq<Token>, errors: seq<Error>)

  /** What run() produces from offset p to the end of the source. */
  function ScanFrom(src: string, p: nat): Scanned
    requires p <= |src|
    decreases |src| - p
  {
    if p == |src| then Scanned([], [])
    else
      var rest := ScanFrom(src, ScanStep(src, p).next);
      Scanned(StepTokens(src, p) + rest.tokens, StepErrors(src, p) + rest.errors)
  }

  lemma SliceOfOne(src: string, p: nat)
    requires p < |src|
    ensures src[p..p + 1] == [src[p]]
  {
  }

  lemma SliceOfTwo(src: string, p: nat)
    requires p + 1 < |src|
    ensures src[p..p + 2] == [src[p], src[p + 1]]
  {
  }

  /** A step from a letter or '_' reads the word run and looks the word up. */
  lemma WordStep(src: string, p: nat)
    requires p < |src| && IsAlpha(src[p])
    ensures var e := WordRunEnd(src, p + 1);
      ScanStep(src, p) == Step(e, Emit(KindOfWord(src[p..e])))
      && StepTokens(src, p) == [Token(Some(KindOfWord(src[p..e])), src[p..e], LineAt(src, e))]
  {
    var e := WordRunEnd(src, p + 1);
    assert ScanStep(src, p) == Step(e, Emit(KindOfWord(src[p..e])));
  }

  /** A step from a digit reads the digit run. */
  lemma DigitStep(src: string, p: nat)
    requires p < |src| && IsDigit(src[p])
    ensures var e := DigitRunEnd(src, p + 1);
      ScanStep(src, p) == Step(e, Emit(INTCON))
      && StepTokens(src, p) == [Token(Some(INTCON), src[p..e], LineAt(src, e))]
  {
    assert ScanStep(src, p) == Step(DigitRunEnd(src, p + 1), Emit(INTCON));
  }

  /** A run from p is the step at p followed by the run from where that step stops. */
  lemma ScanFromStep(src: string, p: nat)
    requires p < |src|
    ensures ScanFrom(src, p).tokens == StepTokens(src, p) + ScanFrom(src, ScanStep(src, p).next).tokens
    ensures ScanFrom(src, p).errors == StepErrors(src, p) + ScanFrom(src, ScanStep(src, p).next).errors
  {
  }

  /**
   * If ts0 is what scanning produced before p, then ts0 plus the step's
   * token is what it produced before the step's end.
   */
  lemma RunAdvances(src: string, p: nat, ts0: seq<Token>, ts1: seq<Token>)
    requires p < |src|
    requires ts0 + ScanFrom(src, p).tokens == ScanFrom(src, 0).tokens
    requires ts1 == ts0 + StepTokens(src, p)
    ensures ts1 + ScanFrom(src, ScanStep(src, p).next).tokens == ScanFrom(src, 0).tokens
  {
    ScanFromStep(src, p);
    ConcatRegroup(ts0, StepTokens(src, p), ScanFrom(src, ScanStep(src, p).next).tokens, ScanFrom(src, 0).tokens);
  }

  lemma ConcatRegroup<T>(a: seq<T>, s: seq<T>, r: seq<T>, d: seq<T>)
    requires a + (s + r) == d
    ensures (a + s) + r == d
  {
    assert (a + s) + r == a + (s + r);
  }

  // ----- the scanning rules, one lemma per family of lexemes -----

  /**
   * '+', '-', '*', '%' and the delimiters are one-character tokens whose
   * text is that character.
   */
  lemma SingleCharTokens(src: string, p: nat)
    requires p < |src| && src[p] in "+-*%;,()[]{}"
    ensures var st := ScanStep(src, p);
      && st.next == p + 1 && st.lexeme.Emit?
      && (IsOperator(st.lexeme.kind) || IsDelimiter(st.lexeme.kind))
      && (src[p] == '+' ==> st.lexeme.kind == PLUS) && (src[p] == '-' ==> st.lexeme.kind == MINU)
      && (src[p] == '*' ==> st.lexeme.kind == MULT) && (src[p] == '%' ==> st.lexeme.kind == MOD)
      && (src[p] == ';' ==> st.lexeme.kind == SEMICN) && (src[p] == ',' ==> st.lexeme.kind == COMMA)
      && (src[p] == '(' ==> st.lexeme.kind == LPARENT) && (src[p] == ')' ==> st.lexeme.kind == RPARENT)
      && (src[p] == '[' ==> st.lexeme.kind == LBRACK) && (src[p] == ']' ==> st.lexeme.kind == RBRACK)
      && (src[p] == '{' ==> st.lexeme.kind == LBRACE) && (src[p] == '}' ==> st.lexeme.kind == RBRACE)
      && StepTokens(src, p) == [Token(Some(st.lexeme.kind), [src[p]], LineAt(src, p + 1))]
      && StepErrors(src, p) == []
  {
    assert src[p..p + 1] == [src[p]];
  }

  /**
   * '!', '=', '<', '>' followed by '=' give NEQ, EQL, LEQ, GEQ over two
   * characters, otherwise NOT, ASSIGN, LSS, GRE over one.
   */
  lemma TwoCharOperators(src: string, p: nat)
    requires p < |src| && src[p] in "!=<>"
    ensures var one := OneCharOperator(src[p]);
      Follows(src, p + 1, '=') ==>
      && ScanStep(src, p) == Step(p + 2, Emit(Extended(one).value))
      && StepTokens(src, p) == [Token(Some(Extended(one).value), [src[p], '='], LineAt(src, p + 2))]
    ensures var one := OneCharOperator(src[p]);
      !Follows(src, p + 1, '=') ==>
      && ScanStep(src, p) == Step(p + 1, Emit(one))
      && StepTokens(src, p) == [Token(Some(one), [src[p]], LineAt(src, p + 1))]
    ensures StepErrors(src, p) == []
  {
    if Follows(src, p + 1, '=') {
      assert src[p..p + 2] == [src[p], '='];
    } else {
      assert src[p..p + 1] == [src[p]];
    }
  }

  /** "&&" and "||" give AND and OR; a lone '&' or '|' is reported and only it is consumed. */
  lemma LogicalOperators(src: string, p: nat)
    requires p < |src| && src[p] in "&|"
    ensures Follows(src, p + 1, src[p]) ==>
      && ScanStep(src, p) == Step(p + 2, Emit(if src[p] == '&' then AND else OR))
      && StepTokens(src, p) == [Token(Some(if src[p] == '&' then AND else OR), [src[p], src[p]], LineAt(src, p + 2))]
    ensures !Follows(src, p + 1, src[p]) ==>
      ScanStep(src, p) == Step(p + 1, Illegal) && StepErrors(src, p) == [Error(LineAt(src, p), ILLEGAL_SYMBOL)]
      && StepTokens(src, p) == []
  {
    if Follows(src, p + 1, src[p]) {
      assert src[p..p + 2] == [src[p], src[p]];
    }
  }

  /**
   * An identifier is the longest run of letters, digits and '_' from a
   * letter or '_'; it is a reserved word exactly when the whole run is a
   * table entry, and an IDENFR otherwise.
   */
  lemma Identifiers(src: string, p: nat)
    requires p < |src| && IsAlpha(src[p])
    ensures var st := ScanStep(src, p);
      var text := src[p..st.next];
      && st.lexeme.Emit?
      && (forall k :: p <= k < st.next ==> IsAlphaNumeric(src[k]))
      && (st.next == |src| || !IsAlphaNumeric(src[st.next]))
      && (IsKeyword(st.lexeme.kind) <==> text in Keywords)
      && (st.lexeme.kind == IDENFR <==> text !in Keywords)
      && (text in Keywords ==> st.lexeme.kind == Keywords[text])
  {
    KeywordTableBijective();
    WordRunEndIsMaximal(src, p + 1, WordRunEnd(src, p + 1));
  }

  /** An integer literal is the longest run of decimal digits. */
  lemma Numbers(src: string, p: nat)
    requires p < |src| && IsDigit(src[p])
    ensures var st := ScanStep(src, p);
      && st.lexeme == Emit(INTCON)
      && (forall k :: p <= k < st.next ==> IsDigit(src[k]))
      && (st.next == |src| || !IsDigit(src[st.next]))
  {
    DigitRunEndIsMaximal(src, p + 1, DigitRunEnd(src, p + 1));
  }

  /**
   * A string literal runs from its opening quote through the next quote and
   * takes the line after the closing quote; unclosed, it yields nothing and
   * reports nothing.
   */
  lemma Strings(src: string, p: nat)
    requires p < |src| && src[p] == '"'
    ensures var st := ScanStep(src, p);
      && (forall k :: p < k < st.next - 1 ==> src[k] != '"')
      && (src[st.next - 1] == '"' && st.next - 1 > p ==>
            st.lexeme == Emit(STRCON)
            && StepTokens(src, p) == [Token(Some(STRCON), src[p..st.next], LineAt(src, st.next))])
      && ((exists k :: p < k < |src| && src[k] == '"') ==>
            p < st.next - 1 && src[st.next - 1] == '"' && st.lexeme == Emit(STRCON))
      && (st.lexeme.Skip? <==> (forall k :: p < k < |src| ==> src[k] != '"'))
      && (st.lexeme.Skip? ==> st.next == |src| && StepErrors(src, p) == [])
  {
    FindCharIsFirst(src, p + 1, '"', FindChar(src, p + 1, '"'));
  }

  // Whitespace and comments yield nothing: a line comment stops before the
  // next '\n', a block comment runs through the next closing pair or to the
  // end of the source, unreported.
  lemma Comments(src: string, p: nat)
    requires p + 1 < |src| && src[p] == '/' && src[p + 1] in "/*"
    ensures var st := ScanStep(src, p);
      && st.lexeme.Skip?
      && (src[p + 1] == '/' ==>
            (forall k :: p + 2 <= k < st.next ==> src[k] != '\n') && (st.next == |src| || src[st.next] == '\n'))
      && (src[p + 1] == '*' ==>
            (forall k :: p + 2 <= k < st.next - 2 ==> !ClosesAt(src, k))
            && (st.next < |src| ==> ClosesAt(src, st.next - 2) && p + 2 <= st.next - 2)
            && (st.next == |src| ==> ClosesAt(src, |src| - 2) || forall k :: p + 2 <= k < |src| ==> !ClosesAt(src, k)))
  {
    if src[p + 1] == '/' {
      FindCharIsFirst(src, p + 2, '\n', FindChar(src, p + 2, '\n'));
    } else {
      CommentCloseIsFirst(src, p + 2, CommentClose(src, p + 2));
    }
  }

  /** Blanks and newlines are consumed alone and yield nothing. */
  lemma Whitespace(src: string, p: nat)
    requires p < |src| && src[p] in " \t\r\n"
    ensures ScanStep(src, p) == Step(p + 1, Skip)
  {
  }

  /** Any other character is reported once, on its own line, and yields no token. */
  lemma IllegalCharacters(src: string, p: nat)
    requires p < |src|
    requires src[p] !in "+-*/%;,()[]{}!=<>&|\"\n\r\t " && !IsAlphaNumeric(src[p])
    ensures ScanStep(src, p) == Step(p + 1, Illegal)
    ensures StepErrors(src, p) == [Error(LineAt(src, p), ILLEGAL_SYMBOL)] && StepTokens(src, p) == []
  {
  }

  // ----- what a whole run produces -----

  function TextLength(ts: seq<Token>): nat {
    if ts == [] then 0 else |ts[0].text| + TextLength(ts[1..])
  }

  /** A step adds at most one token, whose text is the consumed slice and whose line is the line after it. */
  lemma StepTokensShape(src: string, p: nat)
    requires p < |src|
    ensures var st := ScanStep(src, p);
      && |StepTokens(src, p)| <= 1
      && (StepTokens(src, p) != [] <==> st.lexeme.Emit?)
      && (st.lexeme.Emit? ==> StepTokens(src, p)[0] == Token(Some(st.lexeme.kind), src[p..st.next], LineAt(src, st.next)))
  {
  }

  /** Every token has a kind and non-empty text, on a line between lo and hi. */
  predicate TokensWithin(ts: seq<Token>, lo: int, hi: int) {
    forall i :: 0 <= i < |ts| ==> ts[i].kind.Some? && |ts[i].text| > 0 && lo <= ts[i].line <= hi
  }

  predicate TokensOrdered(ts: seq<Token>) {
    forall i, j :: 0 <= i < j < |ts| ==> ts[i].line <= ts[j].line
  }

  /** Every report is ILLEGAL_SYMBOL on a line from lo on. */
  predicate IllegalFrom(es: seq<Error>, lo: int) {
    forall i :: 0 <= i < |es| ==> es[i].kind == ILLEGAL_SYMBOL && lo <= es[i].line
  }

  predicate ErrorsOrdered(es: seq<Error>) {
    forall i, j :: 0 <= i < j < |es| ==> es[i].line <= es[j].line
  }

  /**
   * Tokens produced from p: every one has a kind and non-empty text, and its
   * line lies between p's line and the last line.
   */
  lemma {:induction false} ScannedTokenLines(src: string, p: nat)
    requires p <= |src|
    ensures TokensWithin(ScanFrom(src, p).tokens, LineAt(src, p), LineAt(src, |src|))
    decreases |src| - p
  {
    if p < |src| {
      var next := ScanStep(src, p).next;
      ScannedTokenLines(src, next);
      LineAtMonotone(src, p, next);
      LineAtMonotone(src, next, |src|);
      StepTokensShape(src, p);
      var ts := ScanFrom(src, p).tokens;
      var rest := ScanFrom(src, next).tokens;
      var first := StepTokens(src, p);
      assert ts == first + rest;
      forall i | 0 <= i < |ts|
        ensures ts[i].kind.Some? && |ts[i].text| > 0 && LineAt(src, p) <= ts[i].line <= LineAt(src, |src|)
      {
        if i < |first| {
          assert ts[i] == first[0];
        } else {
          assert ts[i] == rest[i - |first|];
        }
      }
    }
  }

  /** Tokens are produced in non-decreasing line order. */
  lemma {:induction false} ScannedTokensOrdered(src: string, p: nat)
    requires p <= |src|
    ensures TokensOrdered(ScanFrom(src, p).tokens)
    decreases |src| - p
  {
    if p < |src| {
      var next := ScanStep(src, p).next;
      ScannedTokensOrdered(src, next);
      ScannedTokenLines(src, next);
      StepTokensShape(src, p);
      var ts := ScanFrom(src, p).tokens;
      var rest := ScanFrom(src, next).tokens;
      var first := StepTokens(src, p);
      assert ts == first + rest;
      forall i, j | 0 <= i < j < |ts| ensures ts[i].line <= ts[j].line {
        assert ts[j] == rest[j - |first|];
        if i < |first| {
          assert ts[i] == first[0];
        } else {
          assert ts[i] == rest[i - |first|];
        }
      }
    }
  }

  /** The texts of the tokens produced from p are no longer, together, than the rest of the source. */
  lemma {:induction false} ScannedTextLength(src: string, p: nat)
    requires p <= |src|
    ensures TextLength(ScanFrom(src, p).tokens) <= |src| - p
    decreases |src| - p
  {
    if p < |src| {
      var next := ScanStep(src, p).next;
      ScannedTextLength(src, next);
      StepTokensShape(src, p);
      var ts := ScanFrom(src, p).tokens;
      var rest := ScanFrom(src, next).tokens;
      if StepTokens(src, p) != [] {
        assert ts == StepTokens(src, p) + rest;
        assert ts[1..] == rest;
      } else {
        assert ts == rest;
      }
    }
  }

  /**
   * Reports produced from p: all are ILLEGAL_SYMBOL, on lines from p's line
   * on, in non-decreasing line order.
   */
  lemma {:induction false} ScannedErrors(src: string, p: nat)
    requires p <= |src|
    ensures IllegalFrom(ScanFrom(src, p).errors, LineAt(src, p))
    ensures ErrorsOrdered(ScanFrom(src, p).errors)
    decreases |src| - p
  {
    if p < |src| {
      var next := ScanStep(src, p).next;
      ScannedErrors(src, next);
      LineAtMonotone(src, p, next);
      var es := ScanFrom(src, p).errors;
      var rest := ScanFrom(src, next).errors;
      var first := StepErrors(src, p);
      assert es == first + rest;
      assert |first| <= 1 && (first != [] ==> first[0] == Error(LineAt(src, p), ILLEGAL_SYMBOL));
      forall i | 0 <= i < |es| ensures es[i].kind == ILLEGAL_SYMBOL && LineAt(src, p) <= es[i].line {
        if i < |first| {
          assert es[i] == first[0];
        } else {
          assert es[i] == rest[i - |first|];
        }
      }
      forall i, j | 0 <= i < j < |es| ensures es[i].line <= es[j].line {
        assert es[j] == rest[j - |first|];
        if i < |first| {
          assert es[i] == first[0];
        } else {
          assert es[i] == rest[i - |first|];
        }
      }
    }
  }
}
