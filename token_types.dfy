/**
 * The 38 lexical categories of the SysY front end (lexer/TokenType.java) and
 * the constant names the derivation trace prints for them.
 */
module TokenTypes {
  import opened Wrappers

  datatype TokenType =
    // reserved words
    | CONSTTK | INTTK | STATICTK | BREAKTK | CONTINUETK | IFTK | ELSETK
    | FORTK | RETURNTK | VOIDTK | MAINTK | PRINTFTK
    // identifier and literals
    | IDENFR | INTCON | STRCON
    // operators
    | PLUS | MINU | MULT | DIV | MOD
    | LSS | LEQ | GRE | GEQ | EQL | NEQ
    | ASSIGN
    | AND | OR | NOT
    // delimiters
    | SEMICN | COMMA
    | LPARENT | RPARENT
    | LBRACK | RBRACK
    | LBRACE | RBRACE

  /** Every constant, in declaration order. */
  const AllKinds: seq<TokenType> := [
    CONSTTK, INTTK, STATICTK, BREAKTK, CONTINUETK, IFTK, ELSETK,
    FORTK, RETURNTK, VOIDTK, MAINTK, PRINTFTK,
    IDENFR, INTCON, STRCON,
    PLUS, MINU, MULT, DIV, MOD,
    LSS, LEQ, GRE, GEQ, EQL, NEQ,
    ASSIGN,
    AND, OR, NOT,
    SEMICN, COMMA,
    LPARENT, RPARENT,
    LBRACK, RBRACK,
    LBRACE, RBRACE
  ]

  /** The reserved-word constants, CONSTTK through PRINTFTK. */
  const KeywordKinds: seq<TokenType> := [
    CONSTTK, INTTK, STATICTK, BREAKTK, CONTINUETK, IFTK, ELSETK,
    FORTK, RETURNTK, VOIDTK, MAINTK, PRINTFTK
  ]

  predicate IsKeyword(k: TokenType) {
    k.CONSTTK? || k.INTTK? || k.STATICTK? || k.BREAKTK? || k.CONTINUETK? || k.IFTK?
    || k.ELSETK? || k.FORTK? || k.RETURNTK? || k.VOIDTK? || k.MAINTK? || k.PRINTFTK?
  }

  predicate IsIdentOrLiteral(k: TokenType) {
    k.IDENFR? || k.INTCON? || k.STRCON?
  }

  predicate IsOperator(k: TokenType) {
    k.PLUS? || k.MINU? || k.MULT? || k.DIV? || k.MOD? || k.LSS? || k.LEQ? || k.GRE?
    || k.GEQ? || k.EQL? || k.NEQ? || k.ASSIGN? || k.AND? || k.OR? || k.NOT?
  }

  predicate IsDelimiter(k: TokenType) {
    k.SEMICN? || k.COMMA? || k.LPARENT? || k.RPARENT? || k.LBRACK? || k.RBRACK?
    || k.LBRACE? || k.RBRACE?
  }

  /** The two-character operator that a following '=' turns '!', '=', '<' or '>' into. */
  function Extended(k: TokenType): Option<TokenType> {
    match k
    case NOT => Some(NEQ)
    case ASSIGN => Some(EQL)
    case LSS => Some(LEQ)
    case GRE => Some(GEQ)
    case _ => None
  }

  /** The closing delimiter that pairs with an opening one. */
  function Closer(k: TokenType): Option<TokenType> {
    match k
    case LPARENT => Some(RPARENT)
    case LBRACK => Some(RBRACK)
    case LBRACE => Some(RBRACE)
    case _ => None
  }

  /** The constant's name, as Java's name() gives it. */
  function Name(k: TokenType): string {
    match k
    case CONSTTK => "CONSTTK"
    case INTTK => "INTTK"
    case STATICTK => "STATICTK"
    case BREAKTK => "BREAKTK"
    case CONTINUETK => "CONTINUETK"
    case IFTK => "IFTK"
    case ELSETK => "ELSETK"
    case FORTK => "FORTK"
    case RETURNTK => "RETURNTK"
    case VOIDTK => "VOIDTK"
    case MAINTK => "MAINTK"
    case PRINTFTK => "PRINTFTK"
    case IDENFR => "IDENFR"
    case INTCON => "INTCON"
    case STRCON => "STRCON"
    case PLUS => "PLUS"
    case MINU => "MINU"
    case MULT => "MULT"
    case DIV => "DIV"
    case MOD => "MOD"
    case LSS => "LSS"
    case LEQ => "LEQ"
    case GRE => "GRE"
    case GEQ => "GEQ"
    case EQL => "EQL"
    case NEQ => "NEQ"
    case ASSIGN => "ASSIGN"
    case AND => "AND"
    case OR => "OR"
    case NOT => "NOT"
    case SEMICN => "SEMICN"
    case COMMA => "COMMA"
    case LPARENT => "LPARENT"
    case RPARENT => "RPARENT"
    case LBRACK => "LBRACK"
    case RBRACK => "RBRACK"
    case LBRACE => "LBRACE"
    case RBRACE => "RBRACE"
  }

  /**
   * Reads a constant back from its name (Java's valueOf, without the
   * exception). The name's first letter narrows the candidates.
   */
  function FromName(s: string): Option<TokenType> {
    if s == [] then None
    else match s[0]
      case 'A' => if s == "ASSIGN" then Some(ASSIGN) else if s == "AND" then Some(AND) else None
      case 'B' => if s == "BREAKTK" then Some(BREAKTK) else None
      case 'C' => if s == "CONSTTK" then Some(CONSTTK) else if s == "CONTINUETK" then Some(CONTINUETK) else if s == "COMMA" then Some(COMMA) else None
      case 'D' => if s == "DIV" then Some(DIV) else None
      case 'E' => if s == "ELSETK" then Some(ELSETK) else if s == "EQL" then Some(EQL) else None
      case 'F' => if s == "FORTK" then Some(FORTK) else None
      case 'G' => if s == "GRE" then Some(GRE) else if s == "GEQ" then Some(GEQ) else None
      case 'I' => if s == "INTTK" then Some(INTTK) else if s == "IFTK" then Some(IFTK) else if s == "IDENFR" then Some(IDENFR) else if s == "INTCON" then Some(INTCON) else None
      case 'L' => if s == "LSS" then Some(LSS) else if s == "LEQ" then Some(LEQ) else if s == "LPARENT" then Some(LPARENT) else if s == "LBRACK" then Some(LBRACK) else if s == "LBRACE" then Some(LBRACE) else None
      case 'M' => if s == "MAINTK" then Some(MAINTK) else if s == "MINU" then Some(MINU) else if s == "MULT" then Some(MULT) else if s == "MOD" then Some(MOD) else None
      case 'N' => if s == "NEQ" then Some(NEQ) else if s == "NOT" then Some(NOT) else None
      case 'O' => if s == "OR" then Some(OR) else None
      case 'P' => if s == "PRINTFTK" then Some(PRINTFTK) else if s == "PLUS" then Some(PLUS) else None
      case 'R' => if s == "RETURNTK" then Some(RETURNTK) else if s == "RPARENT" then Some(RPARENT) else if s == "RBRACK" then Some(RBRACK) else if s == "RBRACE" then Some(RBRACE) else None
      case 'S' => if s == "STATICTK" then Some(STATICTK) else if s == "STRCON" then Some(STRCON) else if s == "SEMICN" then Some(SEMICN) else None
      case 'V' => if s == "VOIDTK" then Some(VOIDTK) else None
      case _ => None
  }

  /** The constant's position in declaration order (Java's ordinal()). */
  function Ordinal(k: TokenType): (r: nat)
    ensures r < |AllKinds| && AllKinds[r] == k
  {
    match k
    case CONSTTK => 0
    case INTTK => 1
    case STATICTK => 2
    case BREAKTK => 3
    case CONTINUETK => 4
    case IFTK => 5
    case ELSETK => 6
    case FORTK => 7
    case RETURNTK => 8
    case VOIDTK => 9
    case MAINTK => 10
    case PRINTFTK => 11
    case IDENFR => 12
    case INTCON => 13
    case STRCON => 14
    case PLUS => 15
    case MINU => 16
    case MULT => 17
    case DIV => 18
    case MOD => 19
    case LSS => 20
    case LEQ => 21
    case GRE => 22
    case GEQ => 23
    case EQL => 24
    case NEQ => 25
    case ASSIGN => 26
    case AND => 27
    case OR => 28
    case NOT => 29
    case SEMICN => 30
    case COMMA => 31
    case LPARENT => 32
    case RPARENT => 33
    case LBRACK => 34
    case RBRACK => 35
    case LBRACE => 36
    case RBRACE => 37
  }

  /** The enum lists 38 constants and every value is among them. */
  lemma AllKindsComplete()
    ensures |AllKinds| == 38
    ensures forall k: TokenType :: k in AllKinds
  {
    forall k: TokenType ensures k in AllKinds {
      assert AllKinds[Ordinal(k)] == k;
    }
  }

  /** Exactly 12 reserved-word kinds, listed once each, and they are the keyword category. */
  lemma KeywordKindsExact()
    ensures |KeywordKinds| == 12
    ensures forall i, j :: 0 <= i < j < |KeywordKinds| ==> KeywordKinds[i] != KeywordKinds[j]
    ensures forall k :: IsKeyword(k) <==> k in KeywordKinds
  {
  }

  /**
   * The four categories partition the kinds: each kind is in exactly one,
   * so identifiers and literals are neither keywords nor operators.
   */
  lemma CategoriesPartition(k: TokenType)
    ensures IsKeyword(k) || IsIdentOrLiteral(k) || IsOperator(k) || IsDelimiter(k)
    ensures IsKeyword(k) ==> !IsIdentOrLiteral(k) && !IsOperator(k) && !IsDelimiter(k)
    ensures IsIdentOrLiteral(k) ==> !IsOperator(k) && !IsDelimiter(k)
    ensures IsOperator(k) ==> !IsDelimiter(k)
  {
  }

  /** A one-character operator and its two-character extension are different operator kinds. */
  lemma ExtensionsDistinct(k: TokenType)
    ensures Extended(k).Some? <==> k in [NOT, ASSIGN, LSS, GRE]
    ensures Extended(k).Some? ==> IsOperator(Extended(k).value) && Extended(k).value != k
  {
  }

  /** Delimiters come as three distinct open/close pairs plus ';' and ','. */
  lemma DelimiterPairs(k: TokenType)
    ensures Closer(k).Some? ==> IsDelimiter(k) && IsDelimiter(Closer(k).value) && Closer(k).value != k
    ensures Closer(k).Some? <==> k in [LPARENT, LBRACK, LBRACE]
    ensures IsDelimiter(k) && Closer(k).None? ==> k in [SEMICN, COMMA, RPARENT, RBRACK, RBRACE]
  {
  }

  /** A name identifies its constant: FromName inverts Name, so Name is injective. */
  lemma NameRoundTrip(k: TokenType)
    ensures FromName(Name(k)) == Some(k)
  {
    if k.CONSTTK? || k.INTTK? || k.STATICTK? || k.BREAKTK? || k.CONTINUETK? {
      NamesGroup1(k);
    } else if k.IFTK? || k.ELSETK? || k.FORTK? || k.RETURNTK? || k.VOIDTK? {
      NamesGroup2(k);
    } else if k.MAINTK? || k.PRINTFTK? || k.IDENFR? || k.INTCON? || k.STRCON? {
      NamesGroup3(k);
    } else if k.PLUS? || k.MINU? || k.MULT? || k.DIV? || k.MOD? {
      NamesGroup4(k);
    } else if k.LSS? || k.LEQ? || k.GRE? || k.GEQ? || k.EQL? {
      NamesGroup5(k);
    } else if k.NEQ? || k.ASSIGN? || k.AND? || k.OR? || k.NOT? {
      NamesGroup6(k);
    } else if k.SEMICN? || k.COMMA? || k.LPARENT? || k.RPARENT? {
      NamesGroup7(k);
    } else {
      NamesGroup8(k);
    }
  }

  /** Every name is a non-empty word of capitals without spaces. */
  lemma NameShape(k: TokenType)
    ensures |Name(k)| > 0 && ' ' !in Name(k) && 'A' <= Name(k)[0] <= 'Z'
  {
    if k.CONSTTK? || k.INTTK? || k.STATICTK? || k.BREAKTK? || k.CONTINUETK? {
      NamesGroup1(k);
    } else if k.IFTK? || k.ELSETK? || k.FORTK? || k.RETURNTK? || k.VOIDTK? {
      NamesGroup2(k);
    } else if k.MAINTK? || k.PRINTFTK? || k.IDENFR? || k.INTCON? || k.STRCON? {
      NamesGroup3(k);
    } else if k.PLUS? || k.MINU? || k.MULT? || k.DIV? || k.MOD? {
      NamesGroup4(k);
    } else if k.LSS? || k.LEQ? || k.GRE? || k.GEQ? || k.EQL? {
      NamesGroup5(k);
    } else if k.NEQ? || k.ASSIGN? || k.AND? || k.OR? || k.NOT? {
      NamesGroup6(k);
    } else if k.SEMICN? || k.COMMA? || k.LPARENT? || k.RPARENT? {
      NamesGroup7(k);
    } else {
      NamesGroup8(k);
    }
  }

  /**
   * Both facts, a few kinds at a time: the name is evaluated first, and
   * FromName then picks its branch by the first letter.
   */
  lemma NamesGroup1(k: TokenType)
    requires k.CONSTTK? || k.INTTK? || k.STATICTK? || k.BREAKTK? || k.CONTINUETK?
    ensures FromName(Name(k)) == Some(k)
    ensures |Name(k)| > 0 && ' ' !in Name(k) && 'A' <= Name(k)[0] <= 'Z'
  {
    match k {
      case CONSTTK => assert Name(CONSTTK) == "CONSTTK";
      case INTTK => assert Name(INTTK) == "INTTK";
      case STATICTK => assert Name(STATICTK) == "STATICTK";
      case BREAKTK => assert Name(BREAKTK) == "BREAKTK";
      case CONTINUETK => assert Name(CONTINUETK) == "CONTINUETK";
    }
  }

  lemma NamesGroup2(k: TokenType)
    requires k.IFTK? || k.ELSETK? || k.FORTK? || k.RETURNTK? || k.VOIDTK?
    ensures FromName(Name(k)) == Some(k)
    ensures |Name(k)| > 0 && ' ' !in Name(k) && 'A' <= Name(k)[0] <= 'Z'
  {
    match k {
      case IFTK => assert Name(IFTK) == "IFTK";
      case ELSETK => assert Name(ELSETK) == "ELSETK";
      case FORTK => assert Name(FORTK) == "FORTK";
      case RETURNTK => assert Name(RETURNTK) == "RETURNTK";
      case VOIDTK => assert Name(VOIDTK) == "VOIDTK";
    }
  }

  lemma NamesGroup3(k: TokenType)
    requires k.MAINTK? || k.PRINTFTK? || k.IDENFR? || k.INTCON? || k.STRCON?
    ensures FromName(Name(k)) == Some(k)
    ensures |Name(k)| > 0 && ' ' !in Name(k) && 'A' <= Name(k)[0] <= 'Z'
  {
    match k {
      case MAINTK => assert Name(MAINTK) == "MAINTK";
      case PRINTFTK => assert Name(PRINTFTK) == "PRINTFTK";
      case IDENFR => assert Name(IDENFR) == "IDENFR";
      case INTCON => assert Name(INTCON) == "INTCON";
      case STRCON => assert Name(STRCON) == "STRCON";
    }
  }

  lemma NamesGroup4(k: TokenType)
    requires k.PLUS? || k.MINU? || k.MULT? || k.DIV? || k.MOD?
    ensures FromName(Name(k)) == Some(k)
    ensures |Name(k)| > 0 && ' ' !in Name(k) && 'A' <= Name(k)[0] <= 'Z'
  {
    match k {
      case PLUS => assert Name(PLUS) == "PLUS";
      case MINU => assert Name(MINU) == "MINU";
      case MULT => assert Name(MULT) == "MULT";
      case DIV => assert Name(DIV) == "DIV";
      case MOD => assert Name(MOD) == "MOD";
    }
  }

  lemma NamesGroup5(k: TokenType)
    requires k.LSS? || k.LEQ? || k.GRE? || k.GEQ? || k.EQL?
    ensures FromName(Name(k)) == Some(k)
    ensures |Name(k)| > 0 && ' ' !in Name(k) && 'A' <= Name(k)[0] <= 'Z'
  {
    match k {
      case LSS => assert Name(LSS) == "LSS";
      case LEQ => assert Name(LEQ) == "LEQ";
      case GRE => assert Name(GRE) == "GRE";
      case GEQ => assert Name(GEQ) == "GEQ";
      case EQL => assert Name(EQL) == "EQL";
    }
  }

  lemma NamesGroup6(k: TokenType)
    requires k.NEQ? || k.ASSIGN? || k.AND? || k.OR? || k.NOT?
    ensures FromName(Name(k)) == Some(k)
    ensures |Name(k)| > 0 && ' ' !in Name(k) && 'A' <= Name(k)[0] <= 'Z'
  {
    match k {
      case NEQ => assert Name(NEQ) == "NEQ";
      case ASSIGN => assert Name(ASSIGN) == "ASSIGN";
      case AND => assert Name(AND) == "AND";
      case OR => assert Name(OR) == "OR";
      case NOT => assert Name(NOT) == "NOT";
    }
  }

  lemma NamesGroup7(k: TokenType)
    requires k.SEMICN? || k.COMMA? || k.LPARENT? || k.RPARENT?
    ensures FromName(Name(k)) == Some(k)
    ensures |Name(k)| > 0 && ' ' !in Name(k) && 'A' <= Name(k)[0] <= 'Z'
  {
    match k {
      case SEMICN => assert Name(SEMICN) == "SEMICN";
      case COMMA => assert Name(COMMA) == "COMMA";
      case LPARENT => assert Name(LPARENT) == "LPARENT";
      case RPARENT => assert Name(RPARENT) == "RPARENT";
    }
  }

  lemma NamesGroup8(k: TokenType)
    requires k.LBRACK? || k.RBRACK? || k.LBRACE? || k.RBRACE?
    ensures FromName(Name(k)) == Some(k)
    ensures |Name(k)| > 0 && ' ' !in Name(k) && 'A' <= Name(k)[0] <= 'Z'
  {
    match k {
      case LBRACK => assert Name(LBRACK) == "LBRACK";
      case RBRACK => assert Name(RBRACK) == "RBRACK";
      case LBRACE => assert Name(LBRACE) == "LBRACE";
      case RBRACE => assert Name(RBRACE) == "RBRACE";
    }
  }

  lemma NameInjective(a: TokenType, b: TokenType)
    ensures Name(a) == Name(b) ==> a == b
  {
    NameRoundTrip(a);
    NameRoundTrip(b);
  }
}
