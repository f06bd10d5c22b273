/**
 * The recursive-descent parser of parser/Parser.java: a cursor into an
 * immutable token list, one procedure per nonterminal of the SysY grammar,
 * error recovery through `expect`, and a derivation trace. The trace is the
 * list of lines the Java parser prints: "KIND text" for every token it
 * consumes and "<Name>" when a nonterminal is complete.
 */
module Parsing {
  import opened Wrappers
  import opened TokenTypes
  import opened Tokens
  import opened ErrorTypes
  import opened Errors
  import opened ErrorRegistry
  import Text

  // ----- lookahead -----

  /**
   * peek(offset): the token at index i, or past the end a token with no kind
   * that carries the last token's line (1 for an empty list).
   */
  function PeekIn(ts: seq<Token>, i: nat): (t: Token)
    ensures i < |ts| ==> t == ts[i]
    ensures i >= |ts| ==> t.kind == None && t.line == (if ts == [] then 1 else ts[|ts| - 1].line)
  {
    if i < |ts| then ts[i] else Token(None, "EOF", if ts == [] then 1 else ts[|ts| - 1].line)
  }

  /** Every token has a kind, as every token the scanner emits does. */
  predicate AllKinded(ts: seq<Token>) {
    forall j :: 0 <= j < |ts| ==> ts[j].kind.Some?
  }

  /** On a scanned token list the kindless sentinel marks end of input and nothing else. */
  lemma SentinelOnlyAtEnd(ts: seq<Token>, i: nat)
    requires AllKinded(ts)
    ensures PeekIn(ts, i).kind.None? <==> i >= |ts|
    ensures PeekIn(ts, i).kind.Some? ==> PeekIn(ts, i) == ts[i]
  {
    if i < |ts| {
      assert ts[i].kind.Some?;
    }
  }

  /** The line expect reports at: the previous token's, or the current token's at the start. */
  function ErrorLine(ts: seq<Token>, p: nat): int
    requires p <= |ts|
  {
    if p > 0 then ts[p - 1].line else PeekIn(ts, 0).line
  }

  /** The reported line is always the line of some token of the list, or 1 for an empty list. */
  lemma ErrorLineIsTokenLine(ts: seq<Token>, p: nat)
    requires p <= |ts|
    ensures ts == [] ==> ErrorLine(ts, p) == 1
    ensures ts != [] ==> exists j :: 0 <= j < |ts| && ts[j].line == ErrorLine(ts, p) && (p > 0 ==> j == p - 1)
  {
    if ts != [] {
      var j := if p > 0 then p - 1 else 0;
      assert ts[j].line == ErrorLine(ts, p);
    }
  }

  // ----- skip-to-target recovery -----

  /** Where expect's skipping loop stops: end of input, the target, or a brace or semicolon. */
  predicate SkipStops(t: Token, target: TokenType) {
    t.kind == None || t.kind == Some(target)
    || t.kind == Some(RBRACE) || t.kind == Some(SEMICN) || t.kind == Some(LBRACE)
  }

  function SkipEnd(ts: seq<Token>, i: nat, target: TokenType): (e: nat)
    requires i <= |ts|
    ensures i <= e <= |ts|
    decreases |ts| - i
  {
    if i == |ts| || SkipStops(ts[i], target) then i else SkipEnd(ts, i + 1, target)
  }

  /**
   * SkipEnd is the first stopping index: the skipped tokens are neither the
   * target, nor a brace, nor a semicolon, nor kindless.
   */
  lemma {:induction false} SkipEndIsFirst(ts: seq<Token>, i: nat, target: TokenType, e: nat)
    requires i <= |ts|
    ensures (i <= e <= |ts|
             && (forall j :: i <= j < e ==> !SkipStops(ts[j], target))
             && (e == |ts| || SkipStops(ts[e], target)))
            <==> e == SkipEnd(ts, i, target)
    decreases |ts| - i
  {
    if i < |ts| && !SkipStops(ts[i], target) {
      SkipEndIsFirst(ts, i + 1, target, e);
    }
  }

  // ----- the statement lookahead of isAssignStmt -----

  /** An ASSIGN occurs in ts[i..] before the first SEMICN. */
  ghost predicate AssignBeforeSemicolon(ts: seq<Token>, i: nat) {
    exists j :: i <= j < |ts| && ts[j].kind == Some(ASSIGN)
                && forall k :: i <= k < j ==> ts[k].kind != Some(SEMICN)
  }

  // ----- the trace -----

  /**
   * One printed line of the derivation trace: a consumed token, printed
   * as "KIND text", or a finished nonterminal, printed as "<Name>".
   */
  datatype Line = TokenLine(token: Token) | Marker(name: string) {
    predicate Printable() {
      TokenLine? ==> token.kind.Some?
    }

    /** The text println writes for this line. */
    function Printed(): string
      requires Printable()
    {
      if TokenLine? then token.ToString() else "<" + name + ">"
    }
  }

  /** A printed line starting with '<' is a nonterminal marker. */
  predicate LooksLikeMarker(text: string) {
    |text| > 0 && text[0] == '<'
  }

  /**
   * The printed trace can be read back line by line: a marker line starts
   * with '<' and names its nonterminal, and a token line starts with a
   * capital letter and splits at its first space into the kind's name and
   * the token's text.
   */
  lemma PrintedLineReadBack(l: Line)
    requires l.Printable()
    ensures LooksLikeMarker(l.Printed()) <==> l.Marker?
    ensures l.Marker? ==> l.Printed()[1..|l.Printed()| - 1] == l.name
    ensures l.TokenLine? ==> FromName(Text.BeforeSpace(l.Printed())) == l.token.kind
                             && Text.AfterSpace(l.Printed()) == l.token.text
  {
    if l.TokenLine? {
      NameRoundTrip(l.token.kind.value);
      NameShape(l.token.kind.value);
      assert l.Printed()[0] == Name(l.token.kind.value)[0];
      ToStringReadBack(l.token);
    }
  }

  /** The line consume prints for a token: none for a kindless one. */
  function TraceLineOf(t: Token): (r: seq<Line>)
    ensures |r| <= 1 && (r != [] <==> t.kind.Some?)
    ensures forall i :: 0 <= i < |r| ==> r[i].Printable()
  {
    if t.kind.Some? then [TokenLine(t)] else []
  }

  /** The token lines printed for consuming ts[lo..hi] in order. */
  function Rendered(ts: seq<Token>, lo: nat, hi: nat): seq<Line>
    requires lo <= hi <= |ts|
    decreases hi
  {
    if hi == lo then [] else Rendered(ts, lo, hi - 1) + TraceLineOf(ts[hi - 1])
  }

  lemma {:induction false} RenderedSplit(ts: seq<Token>, a: nat, b: nat, c: nat)
    requires a <= b <= c <= |ts|
    ensures Rendered(ts, a, c) == Rendered(ts, a, b) + Rendered(ts, b, c)
    decreases c
  {
    if c == b {
      assert Rendered(ts, a, b) + [] == Rendered(ts, a, b);
    } else {
      RenderedSplit(ts, a, b, c - 1);
    }
  }

  /** Consuming ts[p] after ts[a..p] extends the printed lines by that token's line. */
  lemma RenderedExtend(prefix: seq<Line>, ts: seq<Token>, a: nat, p: nat)
    requires a <= p < |ts|
    ensures (prefix + Rendered(ts, a, p)) + TraceLineOf(ts[p]) == prefix + Rendered(ts, a, p + 1)
  {
    assert (prefix + Rendered(ts, a, p)) + TraceLineOf(ts[p]) == prefix + (Rendered(ts, a, p) + TraceLineOf(ts[p]));
  }

  /** The last line of the trace, when there is one, is the given marker. */
  predicate EndsWith(trace: seq<Line>, name: string) {
    |trace| > 0 && trace[|trace| - 1] == Marker(name)
  }

  lemma PrefixChain<T>(a: seq<T>, b: seq<T>, c: seq<T>)
    requires a <= b && b <= c
    ensures a <= c
  {
    assert c[..|a|] == c[..|b|][..|a|];
  }

  // ----- parseStmt's dispatch -----

  /** The alternatives of parseStmt's switch on the current token's kind. */
  datatype StmtCase =
    | IfCase | ForCase | BreakOrContinueCase | ReturnCase | PrintfCase
    | BlockCase | EmptyCase | DefaultCase

  function StmtCaseOf(k: TokenType): (c: StmtCase)
    ensures c == DefaultCase <==> k !in [IFTK, FORTK, BREAKTK, CONTINUETK, RETURNTK, PRINTFTK, LBRACE, SEMICN]
  {
    match k
    case IFTK => IfCase
    case FORTK => ForCase
    case BREAKTK => BreakOrContinueCase
    case CONTINUETK => BreakOrContinueCase
    case RETURNTK => ReturnCase
    case PRINTFTK => PrintfCase
    case LBRACE => BlockCase
    case SEMICN => EmptyCase
    case _ => DefaultCase
  }

  /**
   * The switch as written: Java's switch on an enum value throws a
   * NullPointerException for null before any case is chosen, so the
   * sentinel's missing kind yields no case at all.
   */
  function SwitchAsWritten(k: Option<TokenType>): (r: Option<StmtCase>)
    ensures r.None? <==> k.None?
  {
    if k.None? then None else Some(StmtCaseOf(k.value))
  }

  /** The switch as the default branch's end-of-input arm intends: no kind falls to default. */
  function StmtDispatch(k: Option<TokenType>): (c: StmtCase)
    ensures k.None? ==> c == DefaultCase
    ensures SwitchAsWritten(k).Some? ==> c == SwitchAsWritten(k).value
  {
    if k.None? then DefaultCase else StmtCaseOf(k.value)
  }

  /** Tokens of `int main ( ) { if ( x )`: the if-branch's inner statement starts at end of input. */
  function UnfinishedIf(): seq<Token> {
    [Token(Some(INTTK), "int", 1), Token(Some(MAINTK), "main", 1), Token(Some(LPARENT), "(", 1),
     Token(Some(RPARENT), ")", 1), Token(Some(LBRACE), "{", 1), Token(Some(IFTK), "if", 2),
     Token(Some(LPARENT), "(", 2), Token(Some(IDENFR), "x", 2), Token(Some(RPARENT), ")", 2)]
  }

  // ----- the expression grammar as functions -----

  /** What the parser has done so far: the cursor, the printed trace and the registry's log. */
  datatype Cursor = Cursor(pos: nat, trace: seq<Line>, history: seq<Error>)

  /** The six layers of left-associative binary operators, innermost first. */
  datatype Layer = MulLayer | AddLayer | RelLayer | EqLayer | LAndLayer | LOrLayer

  function LayerIndex(l: Layer): nat {
    match l
    case MulLayer => 0
    case AddLayer => 1
    case RelLayer => 2
    case EqLayer => 3
    case LAndLayer => 4
    case LOrLayer => 5
  }

  /** The nonterminal a layer prints. */
  function LayerName(l: Layer): string {
    match l
    case MulLayer => "MulExp"
    case AddLayer => "AddExp"
    case RelLayer => "RelExp"
    case EqLayer => "EqExp"
    case LAndLayer => "LAndExp"
    case LOrLayer => "LOrExp"
  }

  /** The operators a layer's loop consumes. */
  function LayerOperators(l: Layer): seq<TokenType> {
    match l
    case MulLayer => [MULT, DIV, MOD]
    case AddLayer => [PLUS, MINU]
    case RelLayer => [LSS, LEQ, GRE, GEQ]
    case EqLayer => [EQL, NEQ]
    case LAndLayer => [AND]
    case LOrLayer => [OR]
  }

  /** The token at i is one of the layer's operators. */
  predicate AtOperator(ts: seq<Token>, l: Layer, i: nat) {
    PeekIn(ts, i).kind.Some? && PeekIn(ts, i).kind.value in LayerOperators(l)
  }

  /** printNonTerminal. */
  function Emit(s: Cursor, name: string): Cursor {
    s.(trace := s.trace + [Marker(name)])
  }

  /** consume of a token that has a kind: print it and move past it. */
  function Take(ts: seq<Token>, s: Cursor): Cursor
    requires s.pos < |ts| && ts[s.pos].kind.Some?
  {
    Cursor(s.pos + 1, s.trace + [TokenLine(ts[s.pos])], s.history)
  }

  /**
   * expect without skipping: consume the token of the given kind, or report
   * err at ErrorLine unless that line had a lexical error.
   */
  function ExpectFrom(ts: seq<Token>, lex: set<int>, s: Cursor, kind: TokenType, err: Option<ErrorType>): (r: Cursor)
    requires s.pos <= |ts|
    ensures s.pos <= r.pos <= |ts|
  {
    if PeekIn(ts, s.pos).kind == Some(kind) then Take(ts, s)
    else
      var line := ErrorLine(ts, s.pos);
      s.(history := s.history + if err.Some? && line !in lex then [Error(line, err.value)] else [])
  }

  /** LVal -> Ident ['[' Exp ']'] */
  function LValFrom(ts: seq<Token>, lex: set<int>, s: Cursor): (r: Cursor)
    requires s.pos <= |ts|
    ensures s.pos <= r.pos <= |ts|
    decreases |ts| - s.pos, 1
  {
    var named := ExpectFrom(ts, lex, s, IDENFR, None);
    var whole :=
      if PeekIn(ts, named.pos).kind == Some(LBRACK) then
        ExpectFrom(ts, lex, ExpFrom(ts, lex, Take(ts, named)), RBRACK, Some(MISSING_RBRACK))
      else named;
    Emit(whole, "LVal")
  }

  /** Number -> IntConst */
  function NumberFrom(ts: seq<Token>, lex: set<int>, s: Cursor): (r: Cursor)
    requires s.pos <= |ts|
    ensures s.pos <= r.pos <= |ts|
  {
    Emit(ExpectFrom(ts, lex, s, INTCON, None), "Number")
  }

  /** PrimaryExp -> '(' Exp ')' | Number | LVal */
  function PrimaryExpFrom(ts: seq<Token>, lex: set<int>, s: Cursor): (r: Cursor)
    requires s.pos <= |ts|
    ensures s.pos <= r.pos <= |ts|
    decreases |ts| - s.pos, 2
  {
    var k := PeekIn(ts, s.pos).kind;
    var whole :=
      if k == Some(LPARENT) then ExpectFrom(ts, lex, ExpFrom(ts, lex, Take(ts, s)), RPARENT, Some(MISSING_RPARENT))
      else if k == Some(INTCON) then NumberFrom(ts, lex, s)
      else LValFrom(ts, lex, s);
    Emit(whole, "PrimaryExp")
  }

  /** UnaryExp -> UnaryOp UnaryExp | Ident '(' [FuncRParams] ')' | PrimaryExp */
  function UnaryExpFrom(ts: seq<Token>, lex: set<int>, s: Cursor): (r: Cursor)
    requires s.pos <= |ts|
    ensures s.pos <= r.pos <= |ts|
    decreases |ts| - s.pos, 3
  {
    var k := PeekIn(ts, s.pos).kind;
    var whole :=
      if k == Some(PLUS) || k == Some(MINU) || k == Some(NOT) then
        UnaryExpFrom(ts, lex, Emit(Take(ts, s), "UnaryOp"))
      else if k == Some(IDENFR) && PeekIn(ts, s.pos + 1).kind == Some(LPARENT) then CallFrom(ts, lex, s)
      else PrimaryExpFrom(ts, lex, s);
    Emit(whole, "UnaryExp")
  }

  /** The call Ident '(' [FuncRParams] ')', entered at the identifier. */
  function CallFrom(ts: seq<Token>, lex: set<int>, s: Cursor): (r: Cursor)
    requires s.pos + 1 < |ts| && ts[s.pos].kind == Some(IDENFR) && ts[s.pos + 1].kind == Some(LPARENT)
    ensures s.pos < r.pos <= |ts|
    decreases |ts| - s.pos, 0
  {
    var call := Take(ts, Take(ts, s));
    var args := if PeekIn(ts, call.pos).kind != Some(RPARENT) then FuncRParamsFrom(ts, lex, call) else call;
    ExpectFrom(ts, lex, args, RPARENT, Some(MISSING_RPARENT))
  }

  /** FuncRParams -> Exp { ',' Exp } */
  function FuncRParamsFrom(ts: seq<Token>, lex: set<int>, s: Cursor): (r: Cursor)
    requires s.pos <= |ts|
    ensures s.pos <= r.pos <= |ts|
    decreases |ts| - s.pos, 30
  {
    Emit(ArgumentsFrom(ts, lex, ExpFrom(ts, lex, s)), "FuncRParams")
  }

  /** The { ',' Exp } loop of FuncRParams. */
  function ArgumentsFrom(ts: seq<Token>, lex: set<int>, s: Cursor): (r: Cursor)
    requires s.pos <= |ts|
    ensures s.pos <= r.pos <= |ts|
    decreases |ts| - s.pos, 0
  {
    if PeekIn(ts, s.pos).kind == Some(COMMA) then ArgumentsFrom(ts, lex, ExpFrom(ts, lex, Take(ts, s))) else s
  }

  /** The operand of a layer: UnaryExp for MulExp, the next layer in otherwise. */
  function OperandFrom(ts: seq<Token>, lex: set<int>, l: Layer, s: Cursor): (r: Cursor)
    requires s.pos <= |ts|
    ensures s.pos <= r.pos <= |ts|
    decreases |ts| - s.pos, 10 * LayerIndex(l) + 5
  {
    match l
    case MulLayer => UnaryExpFrom(ts, lex, s)
    case AddLayer => LayerFrom(ts, lex, MulLayer, s)
    case RelLayer => LayerFrom(ts, lex, AddLayer, s)
    case EqLayer => LayerFrom(ts, lex, RelLayer, s)
    case LAndLayer => LayerFrom(ts, lex, EqLayer, s)
    case LOrLayer => LayerFrom(ts, lex, LAndLayer, s)
  }

  /**
   * A layer: an operand and its marker, then for each operator of the layer
   * the operator, the next operand and another marker.
   */
  function LayerFrom(ts: seq<Token>, lex: set<int>, l: Layer, s: Cursor): (r: Cursor)
    requires s.pos <= |ts|
    ensures s.pos <= r.pos <= |ts|
    ensures EndsWith(r.trace, LayerName(l)) && !AtOperator(ts, l, r.pos)
    decreases |ts| - s.pos, 10 * LayerIndex(l) + 10
  {
    LayerTailFrom(ts, lex, l, Emit(OperandFrom(ts, lex, l, s), LayerName(l)))
  }

  /** The operator loop of a layer. */
  function LayerTailFrom(ts: seq<Token>, lex: set<int>, l: Layer, s: Cursor): (r: Cursor)
    requires s.pos <= |ts|
    ensures s.pos <= r.pos <= |ts|
    ensures !AtOperator(ts, l, r.pos)
    ensures EndsWith(s.trace, LayerName(l)) ==> EndsWith(r.trace, LayerName(l))
    decreases |ts| - s.pos, 0
  {
    if AtOperator(ts, l, s.pos) then
      LayerTailFrom(ts, lex, l, Emit(OperandFrom(ts, lex, l, Take(ts, s)), LayerName(l)))
    else s
  }

  /** Exp -> AddExp */
  function ExpFrom(ts: seq<Token>, lex: set<int>, s: Cursor): (r: Cursor)
    requires s.pos <= |ts|
    ensures s.pos <= r.pos <= |ts|
    decreases |ts| - s.pos, 25
  {
    Emit(LayerFrom(ts, lex, AddLayer, s), "Exp")
  }

  /** Cond -> LOrExp */
  function CondFrom(ts: seq<Token>, lex: set<int>, s: Cursor): (r: Cursor)
    requires s.pos <= |ts|
    ensures s.pos <= r.pos <= |ts|
  {
    Emit(LayerFrom(ts, lex, LOrLayer, s), "Cond")
  }

  /** ConstExp -> AddExp */
  function ConstExpFrom(ts: seq<Token>, lex: set<int>, s: Cursor): (r: Cursor)
    requires s.pos <= |ts|
    ensures s.pos <= r.pos <= |ts|
  {
    Emit(LayerFrom(ts, lex, AddLayer, s), "ConstExp")
  }

  /** The assignment statement LVal '=' Exp ';' */
  function AssignStmtFrom(ts: seq<Token>, lex: set<int>, s: Cursor): (r: Cursor)
    requires s.pos <= |ts|
    ensures s.pos <= r.pos <= |ts|
  {
    var target := ExpectFrom(ts, lex, LValFrom(ts, lex, s), ASSIGN, None);
    ExpectFrom(ts, lex, ExpFrom(ts, lex, target), SEMICN, Some(MISSING_SEMICN))
  }

  /** The expression statement Exp ';' */
  function ExpStmtFrom(ts: seq<Token>, lex: set<int>, s: Cursor): (r: Cursor)
    requires s.pos <= |ts|
    ensures s.pos <= r.pos <= |ts|
  {
    ExpectFrom(ts, lex, ExpFrom(ts, lex, s), SEMICN, Some(MISSING_SEMICN))
  }

  // ----- what the expression functions print -----

  /** The tokens of the token lines of a trace, in order. */
  function TokensOf(lines: seq<Line>): seq<Token>
    decreases |lines|
  {
    if lines == [] then []
    else
      var last := lines[|lines| - 1];
      TokensOf(lines[..|lines| - 1]) + (if last.TokenLine? then [last.token] else [])
  }

  lemma {:induction false} TokensOfAppend(a: seq<Line>, b: seq<Line>)
    ensures TokensOf(a + b) == TokensOf(a) + TokensOf(b)
    decreases |b|
  {
    if b != [] {
      var init := b[..|b| - 1];
      var last := b[|b| - 1];
      assert (a + b)[..|a + b| - 1] == a + init && (a + b)[|a + b| - 1] == last;
      TokensOfAppend(a, init);
      assert TokensOf(b) == TokensOf(init) + (if last.TokenLine? then [last.token] else []);
    } else {
      assert a + b == a;
    }
  }

  /**
   * r continues s: the cursor has not moved back, the trace and the log
   * have only been appended to, and the token lines appended are exactly
   * the tokens passed over, in order.
   */
  ghost predicate Grows(ts: seq<Token>, s: Cursor, r: Cursor) {
    && s.pos <= r.pos <= |ts|
    && s.trace <= r.trace && s.history <= r.history
    && TokensOf(r.trace) == TokensOf(s.trace) + ts[s.pos..r.pos]
  }

  /** No token of ts[lo..hi] is an '='. */
  ghost predicate NoAssign(ts: seq<Token>, lo: nat, hi: nat)
    requires lo <= hi <= |ts|
  {
    forall k :: lo <= k < hi ==> ts[k].kind != Some(ASSIGN)
  }

  lemma GrowsTrans(ts: seq<Token>, a: Cursor, b: Cursor, c: Cursor)
    requires Grows(ts, a, b) && Grows(ts, b, c)
    ensures Grows(ts, a, c)
    ensures NoAssign(ts, a.pos, b.pos) && NoAssign(ts, b.pos, c.pos) ==> NoAssign(ts, a.pos, c.pos)
  {
    PrefixChain(a.trace, b.trace, c.trace);
    PrefixChain(a.history, b.history, c.history);
    assert ts[a.pos..b.pos] + ts[b.pos..c.pos] == ts[a.pos..c.pos];
  }

  lemma GrowsEmit(ts: seq<Token>, s: Cursor, r: Cursor, name: string)
    requires Grows(ts, s, r)
    ensures Grows(ts, s, Emit(r, name))
  {
    TokensOfAppend(r.trace, [Marker(name)]);
    assert [Marker(name)][..0] == [];
  }

  lemma GrowsTake(ts: seq<Token>, s: Cursor)
    requires s.pos < |ts| && ts[s.pos].kind.Some?
    ensures Grows(ts, s, Take(ts, s))
  {
    TokensOfAppend(s.trace, [TokenLine(ts[s.pos])]);
    assert [TokenLine(ts[s.pos])][..0] == [];
    assert ts[s.pos..s.pos + 1] == [ts[s.pos]];
  }

  lemma GrowsExpect(ts: seq<Token>, lex: set<int>, s: Cursor, kind: TokenType, err: Option<ErrorType>)
    requires s.pos <= |ts|
    ensures Grows(ts, s, ExpectFrom(ts, lex, s, kind, err))
    ensures kind != ASSIGN ==> NoAssign(ts, s.pos, ExpectFrom(ts, lex, s, kind, err).pos)
  {
    if PeekIn(ts, s.pos).kind == Some(kind) {
      GrowsTake(ts, s);
    } else {
      assert ts[s.pos..s.pos] == [];
    }
  }

  /** Take of an expected kind other than '=' followed by a step that grows without '='. */
  lemma GrowsAfterTake(ts: seq<Token>, s: Cursor, r: Cursor)
    requires s.pos < |ts| && ts[s.pos].kind.Some? && ts[s.pos].kind != Some(ASSIGN)
    requires Grows(ts, Take(ts, s), r) && NoAssign(ts, s.pos + 1, r.pos)
    ensures Grows(ts, s, r) && NoAssign(ts, s.pos, r.pos)
  {
    GrowsTake(ts, s);
    GrowsTrans(ts, s, Take(ts, s), r);
  }

  /** An lvalue prints the tokens it passes over and passes over no '='. */
  lemma {:induction false} LValGrows(ts: seq<Token>, lex: set<int>, s: Cursor)
    requires s.pos <= |ts|
    ensures var r := LValFrom(ts, lex, s); Grows(ts, s, r) && NoAssign(ts, s.pos, r.pos)
    decreases |ts| - s.pos, 1
  {
    var named := ExpectFrom(ts, lex, s, IDENFR, None);
    GrowsExpect(ts, lex, s, IDENFR, None);
    var whole := named;
    if PeekIn(ts, named.pos).kind == Some(LBRACK) {
      var e := ExpFrom(ts, lex, Take(ts, named));
      ExpGrows(ts, lex, Take(ts, named));
      GrowsAfterTake(ts, named, e);
      whole := ExpectFrom(ts, lex, e, RBRACK, Some(MISSING_RBRACK));
      GrowsExpect(ts, lex, e, RBRACK, Some(MISSING_RBRACK));
      GrowsTrans(ts, named, e, whole);
    }
    GrowsTrans(ts, s, named, whole);
    GrowsEmit(ts, s, whole, "LVal");
  }

  lemma {:induction false} PrimaryExpGrows(ts: seq<Token>, lex: set<int>, s: Cursor)
    requires s.pos <= |ts|
    ensures var r := PrimaryExpFrom(ts, lex, s); Grows(ts, s, r) && NoAssign(ts, s.pos, r.pos)
    decreases |ts| - s.pos, 2
  {
    var k := PeekIn(ts, s.pos).kind;
    var whole;
    if k == Some(LPARENT) {
      var e := ExpFrom(ts, lex, Take(ts, s));
      ExpGrows(ts, lex, Take(ts, s));
      GrowsAfterTake(ts, s, e);
      whole := ExpectFrom(ts, lex, e, RPARENT, Some(MISSING_RPARENT));
      GrowsExpect(ts, lex, e, RPARENT, Some(MISSING_RPARENT));
      GrowsTrans(ts, s, e, whole);
    } else if k == Some(INTCON) {
      whole := NumberFrom(ts, lex, s);
      GrowsExpect(ts, lex, s, INTCON, None);
      GrowsEmit(ts, s, ExpectFrom(ts, lex, s, INTCON, None), "Number");
    } else {
      whole := LValFrom(ts, lex, s);
      LValGrows(ts, lex, s);
    }
    GrowsEmit(ts, s, whole, "PrimaryExp");
  }

  lemma {:induction false} UnaryExpGrows(ts: seq<Token>, lex: set<int>, s: Cursor)
    requires s.pos <= |ts|
    ensures var r := UnaryExpFrom(ts, lex, s); Grows(ts, s, r) && NoAssign(ts, s.pos, r.pos)
    decreases |ts| - s.pos, 3
  {
    var k := PeekIn(ts, s.pos).kind;
    var whole;
    if k == Some(PLUS) || k == Some(MINU) || k == Some(NOT) {
      var op := Emit(Take(ts, s), "UnaryOp");
      whole := UnaryExpFrom(ts, lex, op);
      UnaryExpGrows(ts, lex, op);
      GrowsTake(ts, s);
      GrowsEmit(ts, s, Take(ts, s), "UnaryOp");
      GrowsTrans(ts, s, op, whole);
    } else if k == Some(IDENFR) && PeekIn(ts, s.pos + 1).kind == Some(LPARENT) {
      whole := CallFrom(ts, lex, s);
      CallGrows(ts, lex, s);
    } else {
      whole := PrimaryExpFrom(ts, lex, s);
      PrimaryExpGrows(ts, lex, s);
    }
    GrowsEmit(ts, s, whole, "UnaryExp");
  }

  lemma {:induction false} CallGrows(ts: seq<Token>, lex: set<int>, s: Cursor)
    requires s.pos + 1 < |ts| && ts[s.pos].kind == Some(IDENFR) && ts[s.pos + 1].kind == Some(LPARENT)
    ensures var r := CallFrom(ts, lex, s); Grows(ts, s, r) && NoAssign(ts, s.pos, r.pos)
    decreases |ts| - s.pos, 0
  {
    var named := Take(ts, s);
    var call := Take(ts, named);
    var args := call;
    assert Grows(ts, call, args) && NoAssign(ts, call.pos, args.pos) by {
      assert ts[call.pos..call.pos] == [];
    }
    if PeekIn(ts, call.pos).kind != Some(RPARENT) {
      args := FuncRParamsFrom(ts, lex, call);
      FuncRParamsGrows(ts, lex, call);
    }
    var r := ExpectFrom(ts, lex, args, RPARENT, Some(MISSING_RPARENT));
    GrowsExpect(ts, lex, args, RPARENT, Some(MISSING_RPARENT));
    GrowsTrans(ts, call, args, r);
    GrowsAfterTake(ts, named, r);
    GrowsAfterTake(ts, s, r);
  }

  lemma {:induction false} FuncRParamsGrows(ts: seq<Token>, lex: set<int>, s: Cursor)
    requires s.pos <= |ts|
    ensures var r := FuncRParamsFrom(ts, lex, s); Grows(ts, s, r) && NoAssign(ts, s.pos, r.pos)
    decreases |ts| - s.pos, 30
  {
    var e := ExpFrom(ts, lex, s);
    ExpGrows(ts, lex, s);
    ArgumentsGrows(ts, lex, e);
    GrowsTrans(ts, s, e, ArgumentsFrom(ts, lex, e));
    GrowsEmit(ts, s, ArgumentsFrom(ts, lex, e), "FuncRParams");
  }

  lemma {:induction false} ArgumentsGrows(ts: seq<Token>, lex: set<int>, s: Cursor)
    requires s.pos <= |ts|
    ensures var r := ArgumentsFrom(ts, lex, s); Grows(ts, s, r) && NoAssign(ts, s.pos, r.pos)
    decreases |ts| - s.pos, 0
  {
    if PeekIn(ts, s.pos).kind == Some(COMMA) {
      var e := ExpFrom(ts, lex, Take(ts, s));
      ExpGrows(ts, lex, Take(ts, s));
      GrowsAfterTake(ts, s, e);
      ArgumentsGrows(ts, lex, e);
      GrowsTrans(ts, s, e, ArgumentsFrom(ts, lex, e));
    } else {
      assert ts[s.pos..s.pos] == [];
    }
  }

  lemma {:induction false} OperandGrows(ts: seq<Token>, lex: set<int>, l: Layer, s: Cursor)
    requires s.pos <= |ts|
    ensures var r := OperandFrom(ts, lex, l, s); Grows(ts, s, r) && NoAssign(ts, s.pos, r.pos)
    decreases |ts| - s.pos, 10 * LayerIndex(l) + 5
  {
    match l
    case MulLayer => UnaryExpGrows(ts, lex, s);
    case AddLayer => LayerGrows(ts, lex, MulLayer, s);
    case RelLayer => LayerGrows(ts, lex, AddLayer, s);
    case EqLayer => LayerGrows(ts, lex, RelLayer, s);
    case LAndLayer => LayerGrows(ts, lex, EqLayer, s);
    case LOrLayer => LayerGrows(ts, lex, LAndLayer, s);
  }

  lemma {:induction false} LayerGrows(ts: seq<Token>, lex: set<int>, l: Layer, s: Cursor)
    requires s.pos <= |ts|
    ensures var r := LayerFrom(ts, lex, l, s); Grows(ts, s, r) && NoAssign(ts, s.pos, r.pos)
    decreases |ts| - s.pos, 10 * LayerIndex(l) + 10
  {
    var o := OperandFrom(ts, lex, l, s);
    OperandGrows(ts, lex, l, s);
    GrowsEmit(ts, s, o, LayerName(l));
    var m := Emit(o, LayerName(l));
    LayerTailGrows(ts, lex, l, m);
    GrowsTrans(ts, s, m, LayerTailFrom(ts, lex, l, m));
  }

  lemma {:induction false} LayerTailGrows(ts: seq<Token>, lex: set<int>, l: Layer, s: Cursor)
    requires s.pos <= |ts|
    ensures var r := LayerTailFrom(ts, lex, l, s); Grows(ts, s, r) && NoAssign(ts, s.pos, r.pos)
    decreases |ts| - s.pos, 0
  {
    if AtOperator(ts, l, s.pos) {
      assert ASSIGN !in LayerOperators(l);
      var o := OperandFrom(ts, lex, l, Take(ts, s));
      OperandGrows(ts, lex, l, Take(ts, s));
      GrowsEmit(ts, Take(ts, s), o, LayerName(l));
      var m := Emit(o, LayerName(l));
      GrowsAfterTake(ts, s, m);
      LayerTailGrows(ts, lex, l, m);
      GrowsTrans(ts, s, m, LayerTailFrom(ts, lex, l, m));
    } else {
      assert ts[s.pos..s.pos] == [];
    }
  }

  /** An expression prints exactly the tokens it passes over, in order, and none of them is '='. */
  lemma {:induction false} ExpGrows(ts: seq<Token>, lex: set<int>, s: Cursor)
    requires s.pos <= |ts|
    ensures var r := ExpFrom(ts, lex, s); Grows(ts, s, r) && NoAssign(ts, s.pos, r.pos)
    decreases |ts| - s.pos, 25
  {
    LayerGrows(ts, lex, AddLayer, s);
    GrowsEmit(ts, s, LayerFrom(ts, lex, AddLayer, s), "Exp");
  }

  /**
   * An assignment statement prints the lvalue's marker directly followed by
   * the '=' it consumes, and prints exactly the tokens it passes over.
   */
  lemma AssignStmtShape(ts: seq<Token>, lex: set<int>, s: Cursor)
    requires s.pos <= |ts|
    ensures var v := LValFrom(ts, lex, s);
            var r := AssignStmtFrom(ts, lex, s);
            && Grows(ts, s, r)
            && (PeekIn(ts, v.pos).kind == Some(ASSIGN) ==>
                  0 < |v.trace| < |r.trace| && r.trace[|v.trace| - 1] == Marker("LVal")
                  && r.trace[|v.trace|] == TokenLine(ts[v.pos]))
  {
    var v := LValFrom(ts, lex, s);
    LValGrows(ts, lex, s);
    var target := ExpectFrom(ts, lex, v, ASSIGN, None);
    GrowsExpect(ts, lex, v, ASSIGN, None);
    var r := ExpStmtFrom(ts, lex, target);
    ExpStmtShape(ts, lex, target);
    GrowsTrans(ts, v, target, r);
    GrowsTrans(ts, s, v, r);
    if PeekIn(ts, v.pos).kind == Some(ASSIGN) {
      assert target.trace == v.trace + [TokenLine(ts[v.pos])];
      assert r.trace[..|target.trace|] == target.trace;
    }
  }

  /**
   * An expression statement prints exactly the tokens it passes over, and
   * none of them is '=' unless it is the one the ';' expectation stops at.
   */
  lemma ExpStmtShape(ts: seq<Token>, lex: set<int>, s: Cursor)
    requires s.pos <= |ts|
    ensures var r := ExpStmtFrom(ts, lex, s); Grows(ts, s, r) && NoAssign(ts, s.pos, r.pos)
  {
    var e := ExpFrom(ts, lex, s);
    ExpGrows(ts, lex, s);
    GrowsExpect(ts, lex, e, SEMICN, Some(MISSING_SEMICN));
    GrowsTrans(ts, s, e, ExpStmtFrom(ts, lex, s));
  }

  /** A lone identifier before ')' is a whole operand of every layer. */
  lemma {:induction false} LoneIdentifier(ts: seq<Token>, lex: set<int>, l: Layer, s: Cursor)
    requires s.pos + 1 < |ts| && ts[s.pos].kind == Some(IDENFR) && ts[s.pos + 1].kind == Some(RPARENT)
    ensures var r := LayerFrom(ts, lex, l, s); r.pos == s.pos + 1 && r.history == s.history
    decreases LayerIndex(l)
  {
    var o := OperandFrom(ts, lex, l, s);
    match l {
      case MulLayer => LoneIdentifierUnary(ts, lex, s);
      case AddLayer => LoneIdentifier(ts, lex, MulLayer, s);
      case RelLayer => LoneIdentifier(ts, lex, AddLayer, s);
      case EqLayer => LoneIdentifier(ts, lex, RelLayer, s);
      case LAndLayer => LoneIdentifier(ts, lex, EqLayer, s);
      case LOrLayer => LoneIdentifier(ts, lex, LAndLayer, s);
    }
    assert o.pos == s.pos + 1 && o.history == s.history;
    assert RPARENT !in LayerOperators(l);
  }

  lemma LoneIdentifierUnary(ts: seq<Token>, lex: set<int>, s: Cursor)
    requires s.pos + 1 < |ts| && ts[s.pos].kind == Some(IDENFR) && ts[s.pos + 1].kind == Some(RPARENT)
    ensures var r := UnaryExpFrom(ts, lex, s); r.pos == s.pos + 1 && r.history == s.history
  {
    assert LValFrom(ts, lex, s).pos == s.pos + 1 && LValFrom(ts, lex, s).history == s.history;
    assert PrimaryExpFrom(ts, lex, s).pos == s.pos + 1 && PrimaryExpFrom(ts, lex, s).history == s.history;
  }

  // ----- the parser -----

  class Parser {
    const tokens: seq<Token>
    /** The shared error registry (ErrorHandler.getInstance() in the Java code). */
    const reg: ErrorHandler
    var position: nat
    /** The printed derivation: token lines and nonterminal markers, in order. */
    var trace: seq<Line>

    /** The lines that had a lexical error when parsing began; parsing never adds one. */
    ghost const lexicalLines: set<int>
    /** The registry's records from before parsing. */
    ghost const priorHistory: seq<Error>

    /** The cursor never passes the end of the list. */
    ghost predicate InBounds()
      reads this
    {
      position <= |tokens|
    }

    /**
     * The registry is consistent, and the parser has only added syntactic
     * errors to it, never on a line with a lexical error.
     */
    ghost predicate RegistryOk()
      reads reg
    {
      && reg.Valid()
      && reg.lexicalErrorLines == lexicalLines
      && priorHistory <= reg.history
      && (forall i :: |priorHistory| <= i < |reg.history| ==>
            reg.history[i].kind.IsSyntactic() && reg.history[i].line !in lexicalLines)
    }

    ghost predicate Valid()
      reads this, reg
    {
      InBounds() && RegistryOk()
    }

    /** The cursor, the trace and the registry's log, as the expression functions see them. */
    ghost function State(): Cursor
      reads this, reg
    {
      Cursor(position, trace, reg.history)
    }

    constructor (tokens: seq<Token>, reg: ErrorHandler)
      requires reg.Valid()
      ensures Valid()
      ensures this.tokens == tokens && this.reg == reg && position == 0 && trace == []
      ensures lexicalLines == reg.lexicalErrorLines && priorHistory == reg.history
    {
      this.tokens := tokens;
      this.reg := reg;
      position := 0;
      trace := [];
      lexicalLines := reg.lexicalErrorLines;
      priorHistory := reg.history;
    }

    /** peek(): the current token, or the kindless end-of-input token; PeekIn states which. */
    function Peek(): Token
      reads this
    {
      PeekIn(tokens, position)
    }

    /** peek(offset): offset 0 is the current token, 1 the next one, and so on. */
    function PeekAt(offset: nat): (t: Token)
      reads this
      ensures offset == 0 ==> t == Peek()
      ensures position + offset < |tokens| ==> t == tokens[position + offset]
      ensures position + offset >= |tokens| ==> t.kind == None
    {
      PeekIn(tokens, position + offset)
    }

    /** consume: hand out the current token, print it when it has a kind, and move past it unless at the end. */
    method Consume() returns (t: Token)
      requires InBounds()
      modifies this
      ensures InBounds()
      ensures t == old(Peek())
      ensures position == if old(position) < |tokens| then old(position) + 1 else old(position)
      ensures trace == old(trace) + TraceLineOf(t)
      ensures t.kind.Some? ==> State() == Take(tokens, old(State()))
    {
      t := Peek();
      trace := trace + TraceLineOf(t);
      if position < |tokens| {
        position := position + 1;
      }
    }

    /** match: consume the current token iff its kind is one of kinds. */
    method Match(kinds: seq<TokenType>) returns (b: bool)
      requires InBounds()
      modifies this
      ensures InBounds()
      ensures b <==> old(Peek()).kind.Some? && old(Peek()).kind.value in kinds
      ensures position == if b then old(position) + 1 else old(position)
      ensures trace == if b then old(trace) + [TokenLine(old(Peek()))] else old(trace)
      ensures State() == if b then Take(tokens, old(State())) else old(State())
    {
      var i := 0;
      while i < |kinds|
        invariant 0 <= i <= |kinds|
        invariant position == old(position) && trace == old(trace)
        invariant forall j :: 0 <= j < i ==> Peek().kind != Some(kinds[j])
      {
        if Peek().kind == Some(kinds[i]) {
          var _ := Consume();
          return true;
        }
        i := i + 1;
      }
      return false;
    }

    /**
     * expect: consume the expected token; otherwise report errorType (if
     * any) at ErrorLine unless that line has a lexical error, and, when
     * asked, skip to the target without crossing a brace or a semicolon.
     */
    method Expect(kind: TokenType, errorType: Option<ErrorType>, skipToTarget: bool) returns (r: Option<Token>)
      requires Valid()
      requires errorType.Some? ==> errorType.value.IsSyntactic()
      modifies this, reg
      ensures Valid() && old(reg.history) <= reg.history
      ensures old(position) <= position
      ensures trace == old(trace) + Rendered(tokens, old(position), position)
      ensures old(Peek()).kind == Some(kind) ==>
                r == Some(old(Peek())) && position == old(position) + 1 && reg.history == old(reg.history)
                && trace == old(trace) + [TokenLine(old(Peek()))]
      ensures old(Peek()).kind != Some(kind) ==>
                var line := ErrorLine(tokens, old(position));
                reg.history == old(reg.history)
                  + (if errorType.Some? && line !in lexicalLines then [Error(line, errorType.value)] else [])
      ensures old(Peek()).kind != Some(kind) && !skipToTarget ==>
                r == None && position == old(position) && trace == old(trace)
      ensures old(Peek()).kind != Some(kind) && skipToTarget ==>
                var e := SkipEnd(tokens, old(position), kind);
                if e < |tokens| && tokens[e].kind == Some(kind) then position == e + 1 && r == Some(tokens[e])
                else position == e && r == None
    {
      if Peek().kind == Some(kind) {
        RenderedExtend(old(trace), tokens, position, position);
        assert old(trace) + Rendered(tokens, position, position) == trace;
        var t := Consume();
        return Some(t);
      }
      r := MissingToken(kind, errorType, skipToTarget);
    }

    /** expect on a mismatch: the report, then the skip when asked. */
    method MissingToken(kind: TokenType, errorType: Option<ErrorType>, skipToTarget: bool) returns (r: Option<Token>)
      requires Valid() && Peek().kind != Some(kind)
      requires errorType.Some? ==> errorType.value.IsSyntactic()
      modifies this, reg
      ensures Valid()
      ensures old(position) <= position
      ensures trace == old(trace) + Rendered(tokens, old(position), position)
      ensures var line := ErrorLine(tokens, old(position));
              reg.history == old(reg.history)
                + (if errorType.Some? && line !in lexicalLines then [Error(line, errorType.value)] else [])
      ensures !skipToTarget ==> r == None && position == old(position) && trace == old(trace)
      ensures skipToTarget ==>
                var e := SkipEnd(tokens, old(position), kind);
                if e < |tokens| && tokens[e].kind == Some(kind) then position == e + 1 && r == Some(tokens[e])
                else position == e && r == None
    {
      assert old(trace) + Rendered(tokens, position, position) == trace;
      ReportMissing(errorType);
      if skipToTarget {
        r := SkipToTarget(kind);
      } else {
        r := None;
      }
    }

    /**
     * expect's report on a mismatch: errorType, if any, at ErrorLine, unless
     * that line has a lexical error.
     */
    method ReportMissing(errorType: Option<ErrorType>)
      requires Valid()
      requires errorType.Some? ==> errorType.value.IsSyntactic()
      modifies reg
      ensures Valid()
      ensures var line := ErrorLine(tokens, position);
              reg.history == old(reg.history)
                + (if errorType.Some? && line !in lexicalLines then [Error(line, errorType.value)] else [])
    {
      var errorLine := if position > 0 then tokens[position - 1].line else Peek().line;
      if errorType.Some? {
        if !reg.HasLexicalErrorOnLine(errorLine) {
          reg.AddErrorAt(errorLine, errorType.value);
        }
      }
    }

    /**
     * The two-argument expect overload: expect without skipping. On a
     * mismatch nothing is consumed or printed.
     */
    method ExpectNoSkip(kind: TokenType, errorType: Option<ErrorType>) returns (r: Option<Token>)
      requires Valid()
      requires errorType.Some? ==> errorType.value.IsSyntactic()
      modifies this, reg
      ensures Valid() && old(reg.history) <= reg.history
      ensures old(Peek()).kind == Some(kind) ==>
                r == Some(old(Peek())) && position == old(position) + 1
                && trace == old(trace) + [TokenLine(old(Peek()))] && reg.history == old(reg.history)
      ensures old(Peek()).kind != Some(kind) ==>
                var line := ErrorLine(tokens, old(position));
                r == None && position == old(position) && trace == old(trace)
                && reg.history == old(reg.history)
                     + (if errorType.Some? && line !in lexicalLines then [Error(line, errorType.value)] else [])
      ensures State() == ExpectFrom(tokens, lexicalLines, old(State()), kind, errorType)
    {
      r := Expect(kind, errorType, false);
    }

    /**
     * The recovery of expect: skip tokens up to the target, stopping at a
     * brace, a semicolon or end of input, and consume the target if that
     * is where the skipping stopped.
     */
    method SkipToTarget(kind: TokenType) returns (r: Option<Token>)
      requires InBounds()
      modifies this
      ensures InBounds()
      ensures old(position) <= position
      ensures trace == old(trace) + Rendered(tokens, old(position), position)
      ensures var e := SkipEnd(tokens, old(position), kind);
              if e < |tokens| && tokens[e].kind == Some(kind) then position == e + 1 && r == Some(tokens[e])
              else position == e && r == None
    {
      SkipUntilStop(kind);
      if Peek().kind == Some(kind) {
        RenderedExtend(old(trace), tokens, old(position), position);
        var t := Consume();
        return Some(t);
      }
      return None;
    }

    /** The skipping loop itself: it stops at SkipEnd, printing every token it passes. */
    method SkipUntilStop(kind: TokenType)
      requires InBounds()
      modifies this
      ensures InBounds()
      ensures position == SkipEnd(tokens, old(position), kind)
      ensures trace == old(trace) + Rendered(tokens, old(position), position)
    {
      assert old(trace) + Rendered(tokens, position, position) == trace;
      var current := Peek().kind;
      while current != Some(kind) && current != None
        invariant InBounds()
        invariant old(position) <= position && current == Peek().kind
        invariant SkipEnd(tokens, position, kind) == SkipEnd(tokens, old(position), kind)
        invariant trace == old(trace) + Rendered(tokens, old(position), position)
        decreases |tokens| - position
      {
        if current == Some(RBRACE) || current == Some(SEMICN) || current == Some(LBRACE) {
          break;
        }
        assert position < |tokens| && !SkipStops(tokens[position], kind);
        RenderedExtend(old(trace), tokens, old(position), position);
        var _ := Consume();
        current := Peek().kind;
      }
      assert position == |tokens| || SkipStops(tokens[position], kind);
    }

    /** printNonTerminal: append "<name>" to the trace. */
    method EmitNonTerminal(name: string)
      requires InBounds()
      modifies this
      ensures InBounds()
      ensures position == old(position)
      ensures trace == old(trace) + [Marker(name)]
      ensures State() == Emit(old(State()), name)
    {
      trace := trace + [Marker(name)];
    }

    /** isAssignStmt: a read-only forward scan for '=' before ';'. */
    method IsAssignStmt() returns (r: bool)
      requires InBounds()
      ensures r <==> AssignBeforeSemicolon(tokens, position)
    {
      var i := position;
      while i < |tokens|
        invariant position <= i <= |tokens|
        invariant forall k :: position <= k < i ==> tokens[k].kind != Some(SEMICN) && tokens[k].kind != Some(ASSIGN)
      {
        var kind := tokens[i].kind;
        if kind == Some(SEMICN) {
          return false;
        }
        if kind == Some(ASSIGN) {
          return true;
        }
        i := i + 1;
      }
      return false;
    }

    // ----- expressions -----

    /** LVal -> Ident ['[' Exp ']'] */
    method LVal()
      requires Valid()
      modifies this, reg
      decreases |tokens| - position, 1
      ensures Valid() && old(position) <= position
      ensures State() == LValFrom(tokens, lexicalLines, old(State()))
      ensures old(reg.history) <= reg.history
    {
      var _ := ExpectNoSkip(IDENFR, None);
      var indexed := Match([LBRACK]);
      if indexed {
        Exp();
        var _ := ExpectNoSkip(RBRACK, Some(MISSING_RBRACK));
      }
      EmitNonTerminal("LVal");
      LValGrows(tokens, lexicalLines, old(State()));
    }

    /** PrimaryExp -> '(' Exp ')' | LVal | Number */
    method PrimaryExp()
      requires Valid()
      modifies this, reg
      decreases |tokens| - position, 2
      ensures Valid() && old(position) <= position
      ensures State() == PrimaryExpFrom(tokens, lexicalLines, old(State()))
    {
      var parenthesized := Match([LPARENT]);
      if parenthesized {
        Exp();
        var _ := ExpectNoSkip(RPARENT, Some(MISSING_RPARENT));
      } else if Peek().kind == Some(INTCON) {
        Number();
      } else {
        LVal();
      }
      EmitNonTerminal("PrimaryExp");
    }

    /** Number -> IntConst */
    method Number()
      requires Valid()
      modifies this, reg
      ensures Valid() && old(position) <= position
      ensures State() == NumberFrom(tokens, lexicalLines, old(State()))
    {
      var _ := ExpectNoSkip(INTCON, None);
      EmitNonTerminal("Number");
    }

    /** UnaryExp -> PrimaryExp | Ident '(' [FuncRParams] ')' | UnaryOp UnaryExp */
    method UnaryExp()
      requires Valid()
      modifies this, reg
      decreases |tokens| - position, 3
      ensures Valid() && old(position) <= position
      ensures State() == UnaryExpFrom(tokens, lexicalLines, old(State()))
    {
      var kind := Peek().kind;
      if kind == Some(PLUS) || kind == Some(MINU) || kind == Some(NOT) {
        UnaryOp();
        UnaryExp();
      } else if kind == Some(IDENFR) && PeekAt(1).kind == Some(LPARENT) {
        FunctionCall();
      } else {
        PrimaryExp();
      }
      EmitNonTerminal("UnaryExp");
    }

    /** The call branch of UnaryExp: Ident '(' [FuncRParams] ')'. */
    method FunctionCall()
      requires Valid() && PeekIn(tokens, position).kind == Some(IDENFR) && PeekIn(tokens, position + 1).kind == Some(LPARENT)
      modifies this, reg
      decreases |tokens| - position, 0
      ensures Valid() && old(position) < position
      ensures State() == CallFrom(tokens, lexicalLines, old(State()))
    {
      var _ := Consume();
      var _ := Consume();
      if Peek().kind != Some(RPARENT) {
        FuncRParams();
      }
      var _ := ExpectNoSkip(RPARENT, Some(MISSING_RPARENT));
    }

    /** UnaryOp -> '+' | '-' | '!' */
    method UnaryOp()
      requires Valid()
      modifies this
      ensures Valid()
      ensures var op := old(Peek()).kind in {Some(PLUS), Some(MINU), Some(NOT)};
              && position == old(position) + (if op then 1 else 0)
              && trace == old(trace) + (if op then [TokenLine(old(Peek()))] else []) + [Marker("UnaryOp")]
    {
      var _ := Match([PLUS, MINU, NOT]);
      EmitNonTerminal("UnaryOp");
    }

    /** FuncRParams -> Exp { ',' Exp } */
    method FuncRParams()
      requires Valid()
      modifies this, reg
      decreases |tokens| - position, 9
      ensures Valid() && old(position) <= position
      ensures State() == FuncRParamsFrom(tokens, lexicalLines, old(State()))
    {
      Exp();
      while Peek().kind == Some(COMMA)
        invariant Valid() && old(position) <= position
        invariant ArgumentsFrom(tokens, lexicalLines, State())
                  == ArgumentsFrom(tokens, lexicalLines, ExpFrom(tokens, lexicalLines, old(State())))
        decreases |tokens| - position
      {
        Argument();
      }
      EmitNonTerminal("FuncRParams");
    }

    /** One round of FuncRParams' loop: the comma and the next argument. */
    method Argument()
      requires Valid() && PeekIn(tokens, position).kind == Some(COMMA)
      modifies this, reg
      decreases |tokens| - position, 0
      ensures Valid() && old(position) < position
      ensures State() == ExpFrom(tokens, lexicalLines, Take(tokens, old(State())))
    {
      var _ := Consume();
      Exp();
    }

    /** MulExp -> UnaryExp { ('*' | '/' | '%') UnaryExp }, a marker after each operand. */
    method MulExp()
      requires Valid()
      modifies this, reg
      decreases |tokens| - position, 5
      ensures Valid() && old(position) <= position
      ensures State() == LayerFrom(tokens, lexicalLines, MulLayer, old(State()))
    {
      UnaryExp();
      EmitNonTerminal("MulExp");
      while Peek().kind == Some(MULT) || Peek().kind == Some(DIV) || Peek().kind == Some(MOD)
        invariant Valid() && old(position) <= position
        invariant LayerTailFrom(tokens, lexicalLines, MulLayer, State()) == LayerFrom(tokens, lexicalLines, MulLayer, old(State()))
        decreases |tokens| - position
      {
        MulStep();
      }
    }

    /** One round of MulExp's loop: the operator, the next operand, a marker. */
    method MulStep()
      requires Valid() && AtOperator(tokens, MulLayer, position)
      modifies this, reg
      decreases |tokens| - position, 4
      ensures Valid() && old(position) < position
      ensures State() == Emit(OperandFrom(tokens, lexicalLines, MulLayer, Take(tokens, old(State()))), LayerName(MulLayer))
    {
      var _ := Consume();
      UnaryExp();
      EmitNonTerminal("MulExp");
    }

    /** AddExp -> MulExp { ('+' | '-') MulExp }, a marker after each operand. */
    method AddExp()
      requires Valid()
      modifies this, reg
      decreases |tokens| - position, 7
      ensures Valid() && old(position) <= position
      ensures State() == LayerFrom(tokens, lexicalLines, AddLayer, old(State()))
    {
      MulExp();
      EmitNonTerminal("AddExp");
      while Peek().kind == Some(PLUS) || Peek().kind == Some(MINU)
        invariant Valid() && old(position) <= position
        invariant LayerTailFrom(tokens, lexicalLines, AddLayer, State()) == LayerFrom(tokens, lexicalLines, AddLayer, old(State()))
        decreases |tokens| - position
      {
        AddStep();
      }
    }

    /** One round of AddExp's loop: the operator, the next operand, a marker. */
    method AddStep()
      requires Valid() && AtOperator(tokens, AddLayer, position)
      modifies this, reg
      decreases |tokens| - position, 6
      ensures Valid() && old(position) < position
      ensures State() == Emit(OperandFrom(tokens, lexicalLines, AddLayer, Take(tokens, old(State()))), LayerName(AddLayer))
    {
      var _ := Consume();
      MulExp();
      EmitNonTerminal("AddExp");
    }

    /** Exp -> AddExp */
    method Exp()
      requires Valid()
      modifies this, reg
      decreases |tokens| - position, 8
      ensures Valid() && old(position) <= position
      ensures State() == ExpFrom(tokens, lexicalLines, old(State()))
      ensures old(reg.history) <= reg.history
    {
      AddExp();
      EmitNonTerminal("Exp");
      ExpGrows(tokens, lexicalLines, old(State()));
    }

    /**
     * RelExp -> AddExp { ('<' | '>' | '<=' | '>=') AddExp }. This layer
     * prints its marker before each operator and once at the end, which
     * prints the same lines as a marker after each operand.
     */
    method RelExp()
      requires Valid()
      modifies this, reg
      ensures Valid() && old(position) <= position
      ensures State() == LayerFrom(tokens, lexicalLines, RelLayer, old(State()))
    {
      AddExp();
      while Peek().kind == Some(LSS) || Peek().kind == Some(LEQ) || Peek().kind == Some(GRE) || Peek().kind == Some(GEQ)
        invariant Valid() && old(position) <= position
        invariant LayerTailFrom(tokens, lexicalLines, RelLayer, Emit(State(), "RelExp"))
                  == LayerFrom(tokens, lexicalLines, RelLayer, old(State()))
        decreases |tokens| - position
      {
        RelStep();
      }
      EmitNonTerminal("RelExp");
    }

    /** One round of RelExp's loop: a marker, the operator, the next operand. */
    method RelStep()
      requires Valid() && AtOperator(tokens, RelLayer, position)
      modifies this, reg
      ensures Valid() && old(position) < position
      ensures State() == OperandFrom(tokens, lexicalLines, RelLayer, Take(tokens, Emit(old(State()), LayerName(RelLayer))))
    {
      EmitNonTerminal("RelExp");
      var _ := Consume();
      AddExp();
    }

    /** EqExp -> RelExp { ('==' | '!=') RelExp }, a marker after each operand. */
    method EqExp()
      requires Valid()
      modifies this, reg
      ensures Valid() && old(position) <= position
      ensures State() == LayerFrom(tokens, lexicalLines, EqLayer, old(State()))
    {
      RelExp();
      EmitNonTerminal("EqExp");
      while Peek().kind == Some(EQL) || Peek().kind == Some(NEQ)
        invariant Valid() && old(position) <= position
        invariant LayerTailFrom(tokens, lexicalLines, EqLayer, State()) == LayerFrom(tokens, lexicalLines, EqLayer, old(State()))
        decreases |tokens| - position
      {
        EqStep();
      }
    }

    /** One round of EqExp's loop: the operator, the next operand, a marker. */
    method EqStep()
      requires Valid() && AtOperator(tokens, EqLayer, position)
      modifies this, reg
      ensures Valid() && old(position) < position
      ensures State() == Emit(OperandFrom(tokens, lexicalLines, EqLayer, Take(tokens, old(State()))), LayerName(EqLayer))
    {
      var _ := Consume();
      RelExp();
      EmitNonTerminal("EqExp");
    }

    /** LAndExp -> EqExp { '&&' EqExp }, a marker after each operand. */
    method LAndExp()
      requires Valid()
      modifies this, reg
      ensures Valid() && old(position) <= position
      ensures State() == LayerFrom(tokens, lexicalLines, LAndLayer, old(State()))
    {
      EqExp();
      EmitNonTerminal("LAndExp");
      while Peek().kind == Some(AND)
        invariant Valid() && old(position) <= position
        invariant LayerTailFrom(tokens, lexicalLines, LAndLayer, State()) == LayerFrom(tokens, lexicalLines, LAndLayer, old(State()))
        decreases |tokens| - position
      {
        LAndStep();
      }
    }

    /** One round of LAndExp's loop: the operator, the next operand, a marker. */
    method LAndStep()
      requires Valid() && AtOperator(tokens, LAndLayer, position)
      modifies this, reg
      ensures Valid() && old(position) < position
      ensures State() == Emit(OperandFrom(tokens, lexicalLines, LAndLayer, Take(tokens, old(State()))), LayerName(LAndLayer))
    {
      var _ := Consume();
      EqExp();
      EmitNonTerminal("LAndExp");
    }

    /** LOrExp -> LAndExp { '||' LAndExp }, a marker after each operand. */
    method LOrExp()
      requires Valid()
      modifies this, reg
      ensures Valid() && old(position) <= position
      ensures State() == LayerFrom(tokens, lexicalLines, LOrLayer, old(State()))
    {
      LAndExp();
      EmitNonTerminal("LOrExp");
      while Peek().kind == Some(OR)
        invariant Valid() && old(position) <= position
        invariant LayerTailFrom(tokens, lexicalLines, LOrLayer, State()) == LayerFrom(tokens, lexicalLines, LOrLayer, old(State()))
        decreases |tokens| - position
      {
        LOrStep();
      }
    }

    /** One round of LOrExp's loop: the operator, the next operand, a marker. */
    method LOrStep()
      requires Valid() && AtOperator(tokens, LOrLayer, position)
      modifies this, reg
      ensures Valid() && old(position) < position
      ensures State() == Emit(OperandFrom(tokens, lexicalLines, LOrLayer, Take(tokens, old(State()))), LayerName(LOrLayer))
    {
      var _ := Consume();
      LAndExp();
      EmitNonTerminal("LOrExp");
    }

    /** Cond -> LOrExp */
    method Cond()
      requires Valid()
      modifies this, reg
      ensures Valid() && old(position) <= position
      ensures State() == CondFrom(tokens, lexicalLines, old(State()))
      ensures old(reg.history) <= reg.history
    {
      LOrExp();
      EmitNonTerminal("Cond");
      LayerGrows(tokens, lexicalLines, LOrLayer, old(State()));
      GrowsEmit(tokens, old(State()), LayerFrom(tokens, lexicalLines, LOrLayer, old(State())), "Cond");
    }

    /** ConstExp -> AddExp */
    method ConstExp()
      requires Valid()
      modifies this, reg
      ensures Valid() && old(position) <= position
      ensures State() == ConstExpFrom(tokens, lexicalLines, old(State()))
      ensures old(reg.history) <= reg.history
    {
      AddExp();
      EmitNonTerminal("ConstExp");
      LayerGrows(tokens, lexicalLines, AddLayer, old(State()));
      GrowsEmit(tokens, old(State()), LayerFrom(tokens, lexicalLines, AddLayer, old(State())), "ConstExp");
    }

    // ----- declarations -----

    /** Decl -> ConstDecl | VarDecl; it consumes a token whenever it starts at 'const', 'static' or 'int'. */
    method Decl()
      requires Valid()
      modifies this, reg
      ensures Valid() && old(position) <= position && old(reg.history) <= reg.history
      ensures old(Peek()).kind in {Some(CONSTTK), Some(STATICTK), Some(INTTK)} ==> old(position) < position
      ensures EndsWith(trace, "ConstDecl") || EndsWith(trace, "VarDecl")
    {
      if Peek().kind == Some(CONSTTK) {
        ghost var h1 := reg.history;
        ConstDecl();
        PrefixChain(old(reg.history), h1, reg.history);
      } else {
        ghost var h2 := reg.history;
        VarDecl();
        PrefixChain(old(reg.history), h2, reg.history);
      }
    }

    /** ConstDecl -> 'const' BType ConstDef { ',' ConstDef } ';' */
    method ConstDecl()
      requires Valid()
      modifies this, reg
      ensures Valid() && old(position) <= position && old(reg.history) <= reg.history
      ensures old(position) < |tokens| ==> old(position) < position
      ensures EndsWith(trace, "ConstDecl")
    {
      var _ := Consume();
      BType();
      ghost var h1 := reg.history;
      ConstDef();
      PrefixChain(old(reg.history), h1, reg.history);
      var more := Match([COMMA]);
      while more
        invariant Valid() && old(position) <= position && old(reg.history) <= reg.history
        decreases |tokens| - position, more
      {
        ghost var h2 := reg.history;
        ConstDef();
        PrefixChain(old(reg.history), h2, reg.history);
        more := Match([COMMA]);
      }
      ghost var h3 := reg.history;
      var _ := ExpectNoSkip(SEMICN, Some(MISSING_SEMICN));
      PrefixChain(old(reg.history), h3, reg.history);
      EmitNonTerminal("ConstDecl");
    }

    /** VarDecl -> [ 'static' ] BType VarDef { ',' VarDef } ';' */
    method VarDecl()
      requires Valid()
      modifies this, reg
      ensures Valid() && old(position) <= position && old(reg.history) <= reg.history
      ensures old(Peek()).kind in {Some(STATICTK), Some(INTTK)} ==> old(position) < position
      ensures EndsWith(trace, "VarDecl")
    {
      var _ := Match([STATICTK]);
      BType();
      ghost var h1 := reg.history;
      VarDef();
      PrefixChain(old(reg.history), h1, reg.history);
      var more := Match([COMMA]);
      while more
        invariant Valid() && old(position) <= position && old(reg.history) <= reg.history
        decreases |tokens| - position, more
      {
        ghost var h2 := reg.history;
        VarDef();
        PrefixChain(old(reg.history), h2, reg.history);
        more := Match([COMMA]);
      }
      ghost var h3 := reg.history;
      var _ := ExpectNoSkip(SEMICN, Some(MISSING_SEMICN));
      PrefixChain(old(reg.history), h3, reg.history);
      EmitNonTerminal("VarDecl");
    }

    /** ConstDef -> Ident [ '[' ConstExp ']' ] '=' ConstInitVal */
    method ConstDef()
      requires Valid()
      modifies this, reg
      ensures Valid() && old(position) <= position && old(reg.history) <= reg.history
      ensures EndsWith(trace, "ConstDef")
    {
      ghost var h1 := reg.history;
      DefHead();
      PrefixChain(old(reg.history), h1, reg.history);
      ghost var h2 := reg.history;
      var _ := ExpectNoSkip(ASSIGN, None);
      PrefixChain(old(reg.history), h2, reg.history);
      ghost var h3 := reg.history;
      ConstInitVal();
      PrefixChain(old(reg.history), h3, reg.history);
      EmitNonTerminal("ConstDef");
    }

    /** The Ident [ '[' ConstExp ']' ] that ConstDef and VarDef start with. */
    method DefHead()
      requires Valid()
      modifies this, reg
      ensures Valid() && old(position) <= position && old(reg.history) <= reg.history
    {
      var _ := Match([IDENFR]);
      var indexed := Match([LBRACK]);
      if indexed {
        ghost var h1 := reg.history;
        ConstExp();
        PrefixChain(old(reg.history), h1, reg.history);
        ghost var h2 := reg.history;
        var _ := ExpectNoSkip(RBRACK, Some(MISSING_RBRACK));
        PrefixChain(old(reg.history), h2, reg.history);
      }
    }

    /** VarDef -> Ident [ '[' ConstExp ']' ] [ '=' InitVal ] */
    method VarDef()
      requires Valid()
      modifies this, reg
      ensures Valid() && old(position) <= position && old(reg.history) <= reg.history
      ensures EndsWith(trace, "VarDef")
    {
      ghost var h1 := reg.history;
      DefHead();
      PrefixChain(old(reg.history), h1, reg.history);
      var initialized := Match([ASSIGN]);
      if initialized {
        ghost var h2 := reg.history;
        InitVal();
        PrefixChain(old(reg.history), h2, reg.history);
      }
      EmitNonTerminal("VarDef");
    }

    /** BType -> 'int', which prints no marker of its own. */
    method BType()
      requires InBounds()
      modifies this
      ensures InBounds()
      ensures old(Peek()).kind == Some(INTTK) ==>
                position == old(position) + 1 && trace == old(trace) + [TokenLine(old(Peek()))]
      ensures old(Peek()).kind != Some(INTTK) ==> position == old(position) && trace == old(trace)
    {
      var _ := Match([INTTK]);
    }

    /** ConstInitVal -> ConstExp | '{' [ ConstExp { ',' ConstExp } ] '}' */
    method ConstInitVal()
      requires Valid()
      modifies this, reg
      ensures Valid() && old(position) <= position && old(reg.history) <= reg.history
      ensures EndsWith(trace, "ConstInitVal")
    {
      if Peek().kind == Some(LBRACE) {
        var _ := Consume();
        if Peek().kind != Some(RBRACE) {
          ghost var h1 := reg.history;
          ConstExp();
          PrefixChain(old(reg.history), h1, reg.history);
          var more := Match([COMMA]);
          while more
            invariant Valid() && old(position) <= position && old(reg.history) <= reg.history
            decreases |tokens| - position, more
          {
            ghost var h2 := reg.history;
            ConstExp();
            PrefixChain(old(reg.history), h2, reg.history);
            more := Match([COMMA]);
          }
        }
        ghost var h3 := reg.history;
        var _ := ExpectNoSkip(RBRACE, None);
        PrefixChain(old(reg.history), h3, reg.history);
      } else {
        ghost var h4 := reg.history;
        ConstExp();
        PrefixChain(old(reg.history), h4, reg.history);
      }
      EmitNonTerminal("ConstInitVal");
    }

    /** InitVal -> Exp | '{' [ Exp { ',' Exp } ] '}' */
    method InitVal()
      requires Valid()
      modifies this, reg
      ensures Valid() && old(position) <= position && old(reg.history) <= reg.history
      ensures EndsWith(trace, "InitVal")
    {
      if Peek().kind == Some(LBRACE) {
        var _ := Consume();
        if Peek().kind != Some(RBRACE) {
          ghost var h1 := reg.history;
          Exp();
          PrefixChain(old(reg.history), h1, reg.history);
          var more := Match([COMMA]);
          while more
            invariant Valid() && old(position) <= position && old(reg.history) <= reg.history
            decreases |tokens| - position, more
          {
            ghost var h2 := reg.history;
            Exp();
            PrefixChain(old(reg.history), h2, reg.history);
            more := Match([COMMA]);
          }
        }
        ghost var h3 := reg.history;
        var _ := ExpectNoSkip(RBRACE, None);
        PrefixChain(old(reg.history), h3, reg.history);
      } else {
        ghost var h4 := reg.history;
        Exp();
        PrefixChain(old(reg.history), h4, reg.history);
      }
      EmitNonTerminal("InitVal");
    }

    // ----- functions -----

    /** FuncDef -> FuncType Ident '(' [FuncFParams] ')' Block */
    method FuncDef()
      requires Valid()
      modifies this, reg
      ensures Valid() && old(position) <= position && old(reg.history) <= reg.history
      ensures old(Peek()).kind in {Some(VOIDTK), Some(INTTK)} ==> old(position) < position
      ensures EndsWith(trace, "FuncDef")
    {
      FuncHead();
      ghost var h1 := reg.history;
      Block();
      PrefixChain(old(reg.history), h1, reg.history);
      EmitNonTerminal("FuncDef");
    }

    /** The FuncType Ident '(' [FuncFParams] ')' that FuncDef starts with. */
    method FuncHead()
      requires Valid()
      modifies this, reg
      ensures Valid() && old(position) <= position && old(reg.history) <= reg.history
      ensures old(Peek()).kind in {Some(VOIDTK), Some(INTTK)} ==> old(position) < position
    {
      FuncType();
      var _ := Match([IDENFR]);
      ghost var h1 := reg.history;
      var _ := ExpectNoSkip(LPARENT, None);
      PrefixChain(old(reg.history), h1, reg.history);
      if Peek().kind != Some(RPARENT) {
        ghost var h2 := reg.history;
        FuncFParams();
        PrefixChain(old(reg.history), h2, reg.history);
      }
      ghost var h3 := reg.history;
      var _ := ExpectNoSkip(RPARENT, Some(MISSING_RPARENT));
      PrefixChain(old(reg.history), h3, reg.history);
    }

    /** MainFuncDef -> 'int' 'main' '(' ')' Block */
    method MainFuncDef()
      requires Valid()
      modifies this, reg
      ensures Valid() && old(position) <= position && old(reg.history) <= reg.history
      ensures EndsWith(trace, "MainFuncDef")
    {
      var _ := Match([INTTK]);
      var _ := Match([MAINTK]);
      ghost var h1 := reg.history;
      var _ := ExpectNoSkip(LPARENT, None);
      PrefixChain(old(reg.history), h1, reg.history);
      ghost var h2 := reg.history;
      var _ := ExpectNoSkip(RPARENT, Some(MISSING_RPARENT));
      PrefixChain(old(reg.history), h2, reg.history);
      ghost var h3 := reg.history;
      Block();
      PrefixChain(old(reg.history), h3, reg.history);
      EmitNonTerminal("MainFuncDef");
    }

    /** FuncType -> 'void' | 'int'; any other token is left for the caller. */
    method FuncType()
      requires InBounds()
      modifies this
      ensures InBounds()
      ensures old(Peek()).kind in {Some(VOIDTK), Some(INTTK)} ==>
                position == old(position) + 1 && trace == old(trace) + [TokenLine(old(Peek())), Marker("FuncType")]
      ensures old(Peek()).kind !in {Some(VOIDTK), Some(INTTK)} ==>
                position == old(position) && trace == old(trace) + [Marker("FuncType")]
    {
      if Peek().kind == Some(VOIDTK) || Peek().kind == Some(INTTK) {
        var _ := Consume();
      }
      EmitNonTerminal("FuncType");
    }

    /** FuncFParams -> FuncFParam { ',' FuncFParam } */
    method FuncFParams()
      requires Valid()
      modifies this, reg
      ensures Valid() && old(position) <= position && old(reg.history) <= reg.history
      ensures EndsWith(trace, "FuncFParams")
    {
      ghost var h1 := reg.history;
      FuncFParam();
      PrefixChain(old(reg.history), h1, reg.history);
      var more := Match([COMMA]);
      while more
        invariant Valid() && old(position) <= position && old(reg.history) <= reg.history
        decreases |tokens| - position, more
      {
        ghost var h2 := reg.history;
        FuncFParam();
        PrefixChain(old(reg.history), h2, reg.history);
        more := Match([COMMA]);
      }
      EmitNonTerminal("FuncFParams");
    }

    /** FuncFParam -> BType Ident ['[' ']'] */
    method FuncFParam()
      requires Valid()
      modifies this, reg
      ensures Valid() && old(position) <= position && old(reg.history) <= reg.history
      ensures EndsWith(trace, "FuncFParam")
    {
      BType();
      var _ := Match([IDENFR]);
      var isArray := Match([LBRACK]);
      if isArray {
        ghost var h1 := reg.history;
        var _ := ExpectNoSkip(RBRACK, Some(MISSING_RBRACK));
        PrefixChain(old(reg.history), h1, reg.history);
      }
      EmitNonTerminal("FuncFParam");
    }

    // ----- statements -----

    /**
     * Block -> '{' { BlockItem } '}'. An item that consumes nothing makes
     * the loop consume the current token, so every round either moves the
     * cursor or ends the loop, and the loop ends only at '}' or at end of
     * input.
     */
    method Block()
      requires Valid()
      modifies this, reg
      decreases |tokens| - position, if Peek().kind == Some(LBRACE) then 1 else 5
      ensures Valid() && old(position) <= position && old(reg.history) <= reg.history
      ensures Peek().kind == None || (old(position) < position && tokens[position - 1].kind == Some(RBRACE))
      ensures EndsWith(trace, "Block")
    {
      ghost var h1 := reg.history;
      var _ := ExpectNoSkip(LBRACE, None);
      PrefixChain(old(reg.history), h1, reg.history);
      while Peek().kind != Some(RBRACE) && Peek().kind != None
        invariant Valid() && old(position) <= position && old(reg.history) <= reg.history
        invariant position == old(position) ==> old(Peek()).kind != Some(LBRACE)
        decreases |tokens| - position, if Peek().kind != Some(RBRACE) && Peek().kind != None then 1 else 0
      {
        var before := position;
        ghost var h2 := reg.history;
        BlockItem();
        PrefixChain(old(reg.history), h2, reg.history);
        if position == before && Peek().kind != Some(RBRACE) && Peek().kind != None {
          var _ := Consume();
        }
      }
      ghost var p := position;
      ghost var h3 := reg.history;
      var close := ExpectNoSkip(RBRACE, None);
      PrefixChain(old(reg.history), h3, reg.history);
      if close.Some? {
        assert position == p + 1 && tokens[p].kind == Some(RBRACE);
      } else {
        assert Peek().kind == None;
      }
      ghost var q := position;
      EmitNonTerminal("Block");
      assert position == q;
    }

    /** BlockItem -> Decl | Stmt, which prints no marker of its own. */
    method BlockItem()
      requires Valid()
      modifies this, reg
      decreases |tokens| - position, 4
      ensures Valid() && old(position) <= position && old(reg.history) <= reg.history
      ensures old(Peek()).kind in {Some(CONSTTK), Some(INTTK), Some(STATICTK)} ==> old(position) < position
    {
      var kind := Peek().kind;
      if kind == Some(CONSTTK) || kind == Some(INTTK) || kind == Some(STATICTK) {
        ghost var h1 := reg.history;
        Decl();
        PrefixChain(old(reg.history), h1, reg.history);
      } else {
        ghost var h2 := reg.history;
        Stmt();
        PrefixChain(old(reg.history), h2, reg.history);
      }
    }

    /**
     * Stmt, chosen by StmtDispatch on the current kind. At end of input the
     * statement consumes nothing, reports nothing and prints only its
     * marker.
     */
    method Stmt()
      requires Valid()
      modifies this, reg
      decreases |tokens| - position, 3
      ensures Valid() && old(position) <= position && old(reg.history) <= reg.history
      ensures EndsWith(trace, "Stmt")
      ensures old(Peek()).kind == None ==>
                position == old(position) && trace == old(trace) + [Marker("Stmt")] && reg.history == old(reg.history)
    {
      if Peek().kind == None {
        // the default arm's end-of-input branch: nothing to parse
        assert StmtDispatch(Peek().kind) == DefaultCase;
        EmitNonTerminal("Stmt");
        return;
      }
      match StmtDispatch(Peek().kind) {
        case IfCase =>
          IfStmt();
        case ForCase =>
          ForLoop();
        case BreakOrContinueCase =>
          BreakOrContinueStmt();
        case ReturnCase =>
          ReturnStmt();
        case PrintfCase =>
          PrintfStmt();
        case BlockCase =>
          Block();
        case EmptyCase =>
          var _ := Consume();
        case DefaultCase =>
          ghost var _ := AssignOrExpStmt();
      }
      EmitNonTerminal("Stmt");
    }

    /**
     * The default case of Stmt away from end of input: LVal '=' Exp ';' when
     * an identifier starts a statement whose '=' comes before its ';', and
     * Exp ';' otherwise.
     */
    method AssignOrExpStmt() returns (ghost assign: bool)
      requires Valid()
      modifies this, reg
      ensures Valid() && old(position) <= position && old(reg.history) <= reg.history
      ensures assign <==> old(Peek()).kind == Some(IDENFR) && AssignBeforeSemicolon(tokens, old(position))
      ensures State() == if assign then AssignStmtFrom(tokens, lexicalLines, old(State()))
                         else ExpStmtFrom(tokens, lexicalLines, old(State()))
    {
      assign := false;
      if Peek().kind == Some(IDENFR) {
        var isAssign := IsAssignStmt();
        assign := isAssign;
        if isAssign {
          LVal();
          var _ := ExpectNoSkip(ASSIGN, None);
          Exp();
        } else {
          Exp();
        }
      } else {
        Exp();
      }
      var _ := ExpectNoSkip(SEMICN, Some(MISSING_SEMICN));
      if assign {
        AssignStmtShape(tokens, lexicalLines, old(State()));
      } else {
        ExpStmtShape(tokens, lexicalLines, old(State()));
      }
    }

    /** The ('break' | 'continue') ';' case of Stmt, from its keyword. */
    method BreakOrContinueStmt()
      requires Valid() && Peek().kind in {Some(BREAKTK), Some(CONTINUETK)}
      modifies this, reg
      ensures Valid() && old(position) < position && old(reg.history) <= reg.history
    {
      var _ := Consume();
      var _ := ExpectNoSkip(SEMICN, Some(MISSING_SEMICN));
    }

    /** The 'return' [Exp] ';' case of Stmt, from its 'return'. */
    method ReturnStmt()
      requires Valid() && Peek().kind == Some(RETURNTK)
      modifies this, reg
      ensures Valid() && old(position) < position && old(reg.history) <= reg.history
    {
      var _ := Consume();
      if Peek().kind != Some(SEMICN) {
        Exp();
      }
      ghost var h1 := reg.history;
      var _ := ExpectNoSkip(SEMICN, Some(MISSING_SEMICN));
      PrefixChain(old(reg.history), h1, reg.history);
    }

    /** The 'if' '(' Cond ')' Stmt [ 'else' Stmt ] case of Stmt, from its 'if'. */
    method IfStmt()
      requires Valid() && Peek().kind == Some(IFTK)
      modifies this, reg
      decreases |tokens| - position, 2
      ensures Valid() && old(position) < position && old(reg.history) <= reg.history
    {
      var _ := Consume();
      ghost var h1 := reg.history;
      var _ := ExpectNoSkip(LPARENT, None);
      PrefixChain(old(reg.history), h1, reg.history);
      ghost var h2 := reg.history;
      Cond();
      PrefixChain(old(reg.history), h2, reg.history);
      ghost var h3 := reg.history;
      var _ := Expect(RPARENT, Some(MISSING_RPARENT), true);
      PrefixChain(old(reg.history), h3, reg.history);
      ghost var h4 := reg.history;
      Stmt();
      PrefixChain(old(reg.history), h4, reg.history);
      var hasElse := Match([ELSETK]);
      if hasElse {
        ghost var h5 := reg.history;
        Stmt();
        PrefixChain(old(reg.history), h5, reg.history);
      }
    }

    /** The 'for' '(' [ForStmt] ';' [Cond] ';' [ForStmt] ')' Stmt case of Stmt, from its 'for'. */
    method ForLoop()
      requires Valid() && Peek().kind == Some(FORTK)
      modifies this, reg
      decreases |tokens| - position, 2
      ensures Valid() && old(position) < position && old(reg.history) <= reg.history
    {
      ForHead();
      ghost var h1 := reg.history;
      Stmt();
      PrefixChain(old(reg.history), h1, reg.history);
    }

    /** The 'for' '(' [ForStmt] ';' [Cond] ';' [ForStmt] ')' that ForLoop starts with. */
    method ForHead()
      requires Valid() && Peek().kind == Some(FORTK)
      modifies this, reg
      ensures Valid() && old(position) < position && old(reg.history) <= reg.history
    {
      var _ := Consume();
      ghost var h1 := reg.history;
      var _ := ExpectNoSkip(LPARENT, None);
      PrefixChain(old(reg.history), h1, reg.history);
      ghost var h2 := reg.history;
      ForClause(SEMICN);
      PrefixChain(old(reg.history), h2, reg.history);
      ghost var h3 := reg.history;
      ForCondition();
      PrefixChain(old(reg.history), h3, reg.history);
      ghost var h4 := reg.history;
      ForClause(RPARENT);
      PrefixChain(old(reg.history), h4, reg.history);
    }

    /**
     * [ForStmt] and the token that closes it: ';' after the initialisation,
     * expected without skipping, or ')' after the update, expected with
     * MISSING_RPARENT and skipping.
     */
    method ForClause(close: TokenType)
      requires Valid() && close in {SEMICN, RPARENT}
      modifies this, reg
      ensures Valid() && old(position) <= position && old(reg.history) <= reg.history
    {
      if Peek().kind != Some(close) {
        ForStmt();
      }
      ghost var h1 := reg.history;
      if close == SEMICN {
        var _ := ExpectNoSkip(SEMICN, None);
      } else {
        var _ := Expect(RPARENT, Some(MISSING_RPARENT), true);
      }
      PrefixChain(old(reg.history), h1, reg.history);
    }

    /** [Cond] ';', the loop condition of a for header. */
    method ForCondition()
      requires Valid()
      modifies this, reg
      ensures Valid() && old(position) <= position && old(reg.history) <= reg.history
    {
      if Peek().kind != Some(SEMICN) {
        Cond();
      }
      ghost var h1 := reg.history;
      var _ := ExpectNoSkip(SEMICN, None);
      PrefixChain(old(reg.history), h1, reg.history);
    }

    /** The 'printf' '(' StringConst { ',' Exp } ')' ';' case of Stmt, from its 'printf'. */
    method PrintfStmt()
      requires Valid() && Peek().kind == Some(PRINTFTK)
      modifies this, reg
      ensures Valid() && old(position) < position && old(reg.history) <= reg.history
    {
      var _ := Consume();
      ghost var h1 := reg.history;
      var _ := ExpectNoSkip(LPARENT, None);
      PrefixChain(old(reg.history), h1, reg.history);
      ghost var h2 := reg.history;
      var _ := ExpectNoSkip(STRCON, None);
      PrefixChain(old(reg.history), h2, reg.history);
      var more := Match([COMMA]);
      while more
        invariant Valid() && old(position) < position && old(reg.history) <= reg.history
        decreases |tokens| - position, more
      {
        ghost var h3 := reg.history;
        Exp();
        PrefixChain(old(reg.history), h3, reg.history);
        more := Match([COMMA]);
      }
      ghost var h4 := reg.history;
      var _ := ExpectNoSkip(RPARENT, Some(MISSING_RPARENT));
      PrefixChain(old(reg.history), h4, reg.history);
      ghost var h5 := reg.history;
      var _ := ExpectNoSkip(SEMICN, Some(MISSING_SEMICN));
      PrefixChain(old(reg.history), h5, reg.history);
    }

    /** ForStmt -> LVal '=' Exp { ',' LVal '=' Exp } */
    method ForStmt()
      requires Valid()
      modifies this, reg
      ensures Valid() && old(position) <= position && old(reg.history) <= reg.history
      ensures EndsWith(trace, "ForStmt")
    {
      ghost var h1 := reg.history;
      LVal();
      PrefixChain(old(reg.history), h1, reg.history);
      ghost var h2 := reg.history;
      var _ := ExpectNoSkip(ASSIGN, None);
      PrefixChain(old(reg.history), h2, reg.history);
      ghost var h3 := reg.history;
      Exp();
      PrefixChain(old(reg.history), h3, reg.history);
      var more := Match([COMMA]);
      while more
        invariant Valid() && old(position) <= position && old(reg.history) <= reg.history
        decreases |tokens| - position, more
      {
        ghost var h4 := reg.history;
        LVal();
        PrefixChain(old(reg.history), h4, reg.history);
        ghost var h5 := reg.history;
        var _ := ExpectNoSkip(ASSIGN, None);
        PrefixChain(old(reg.history), h5, reg.history);
        ghost var h6 := reg.history;
        Exp();
        PrefixChain(old(reg.history), h6, reg.history);
        more := Match([COMMA]);
      }
      EmitNonTerminal("ForStmt");
    }

    // ----- the compilation unit -----

    /**
     * parse, that is CompUnit -> {Decl} {FuncDef} MainFuncDef: declarations
     * while the current token is 'const', or 'int' not followed two tokens
     * later by '('; then functions while it is 'void', or 'int' not followed
     * by 'main'; then the main function if it starts here.
     */
    method Parse()
      requires Valid()
      modifies this, reg
      ensures Valid() && old(position) <= position && old(reg.history) <= reg.history
      ensures EndsWith(trace, "CompUnit")
    {
      while Peek().kind == Some(CONSTTK) || (Peek().kind == Some(INTTK) && PeekAt(2).kind != Some(LPARENT))
        invariant Valid() && old(position) <= position && old(reg.history) <= reg.history
        decreases |tokens| - position
      {
        ghost var h1 := reg.history;
        Decl();
        PrefixChain(old(reg.history), h1, reg.history);
      }
      while Peek().kind == Some(VOIDTK) || (Peek().kind == Some(INTTK) && PeekAt(1).kind != Some(MAINTK))
        invariant Valid() && old(position) <= position && old(reg.history) <= reg.history
        decreases |tokens| - position
      {
        ghost var h2 := reg.history;
        FuncDef();
        PrefixChain(old(reg.history), h2, reg.history);
      }
      if Peek().kind == Some(INTTK) && PeekAt(1).kind == Some(MAINTK) {
        ghost var h3 := reg.history;
        MainFuncDef();
        PrefixChain(old(reg.history), h3, reg.history);
      }
      EmitNonTerminal("CompUnit");
    }
  }

  // ----- the end-of-input finding, replayed -----

  /**
   * The calls parseMainFuncDef, parseBlock and the 'if' case of parseStmt
   * make on `int main ( ) { if ( x )`, in order: the 'if' statement's own
   * statement is entered with the cursor at the end of the list, where the
   * switch as written has no case to take.
   */
  method UnfinishedIfReplay() returns (p: Parser)
    ensures p.tokens == UnfinishedIf() && p.Valid()
    ensures p.position == |p.tokens| && p.Peek().kind == None
    ensures SwitchAsWritten(p.Peek().kind).None? && StmtDispatch(p.Peek().kind) == DefaultCase
    ensures p.reg.history == []
  {
    var reg := new ErrorHandler();
    p := new Parser(UnfinishedIf(), reg);
    ReplayMainHead(p);
    assert StmtDispatch(p.Peek().kind) == IfCase;
    ReplayIfHead(p);
    ReplayCondition(p);
  }

  /** MainFuncDef -> 'int' 'main' '(' ')' Block, through the block's '{'. */
  method ReplayMainHead(p: Parser)
    requires p.Valid() && p.tokens == UnfinishedIf() && p.position == 0
    modifies p, p.reg
    ensures p.Valid() && p.position == 5 && p.reg.history == old(p.reg.history)
  {
    var _ := p.Match([INTTK]);
    var _ := p.Match([MAINTK]);
    ReplayMainParens(p);
  }

  /** The '(' ')' of MainFuncDef and the '{' of its block. */
  method ReplayMainParens(p: Parser)
    requires p.Valid() && p.tokens == UnfinishedIf() && p.position == 2
    modifies p, p.reg
    ensures p.Valid() && p.position == 5 && p.reg.history == old(p.reg.history)
  {
    var _ := p.ExpectNoSkip(LPARENT, None);
    var _ := p.ExpectNoSkip(RPARENT, Some(MISSING_RPARENT));
    var _ := p.ExpectNoSkip(LBRACE, None);
  }

  /** The 'if' case of Stmt, through its '('. */
  method ReplayIfHead(p: Parser)
    requires p.Valid() && p.tokens == UnfinishedIf() && p.position == 5
    modifies p, p.reg
    ensures p.Valid() && p.position == 7 && p.reg.history == old(p.reg.history)
  {
    var _ := p.Consume();
    var _ := p.ExpectNoSkip(LPARENT, None);
  }

  /** Cond and the ')' after it, up to the 'if' statement's own statement. */
  method ReplayCondition(p: Parser)
    requires p.Valid() && p.tokens == UnfinishedIf() && p.position == 7
    modifies p, p.reg
    ensures p.Valid() && p.position == 9 && p.reg.history == old(p.reg.history)
  {
    ghost var before := p.State();
    p.Cond();
    LoneIdentifier(p.tokens, p.lexicalLines, LOrLayer, before);
    var _ := p.Expect(RPARENT, Some(MISSING_RPARENT), true);
  }
}
