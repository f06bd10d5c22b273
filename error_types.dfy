/** The error kinds of error/ErrorType.java with their one-character report codes. */
module ErrorTypes {
  import opened Wrappers

  datatype ErrorType =
    // lexical
    | ILLEGAL_SYMBOL
    // syntactic
    | MISSING_SEMICN | MISSING_RPARENT | MISSING_RBRACK
    // semantic: enumerated, never produced by the front end
    | NAME_REDIFINED | NAME_UNDEFINED | PARAM_NUM_MISMATCH | PARAM_TYPE_MISMATCH
    | VOID_FUNC_RETURN_VALUE | NON_VOID_FUNC_NO_RETURN | MODIFY_CONST
    | PRINTF_ARG_NUM_MISMATCH | BREAK_CONTINUE_OUT_OF_LOOP
  {
    predicate IsLexical() { ILLEGAL_SYMBOL? }

    predicate IsSyntactic() { MISSING_SEMICN? || MISSING_RPARENT? || MISSING_RBRACK? }

    predicate IsSemantic() { !IsLexical() && !IsSyntactic() }

    /** The code each constant is constructed with (getCode). */
    function Code(): (c: char)
      ensures IsLexical() <==> c == 'a'
      ensures IsSyntactic() <==> c in "ijk"
      ensures IsSemantic() <==> c in "bcdefghlm"
    {
      match this
      case ILLEGAL_SYMBOL => 'a'
      case MISSING_SEMICN => 'i'
      case MISSING_RPARENT => 'j'
      case MISSING_RBRACK => 'k'
      case NAME_REDIFINED => 'b'
      case NAME_UNDEFINED => 'c'
      case PARAM_NUM_MISMATCH => 'd'
      case PARAM_TYPE_MISMATCH => 'e'
      case VOID_FUNC_RETURN_VALUE => 'f'
      case NON_VOID_FUNC_NO_RETURN => 'g'
      case MODIFY_CONST => 'h'
      case PRINTF_ARG_NUM_MISMATCH => 'l'
      case BREAK_CONTINUE_OUT_OF_LOOP => 'm'
    }
  }

  /** The kind a report code stands for. */
  function FromCode(c: char): Option<ErrorType> {
    match c
    case 'a' => Some(ILLEGAL_SYMBOL)
    case 'i' => Some(MISSING_SEMICN)
    case 'j' => Some(MISSING_RPARENT)
    case 'k' => Some(MISSING_RBRACK)
    case 'b' => Some(NAME_REDIFINED)
    case 'c' => Some(NAME_UNDEFINED)
    case 'd' => Some(PARAM_NUM_MISMATCH)
    case 'e' => Some(PARAM_TYPE_MISMATCH)
    case 'f' => Some(VOID_FUNC_RETURN_VALUE)
    case 'g' => Some(NON_VOID_FUNC_NO_RETURN)
    case 'h' => Some(MODIFY_CONST)
    case 'l' => Some(PRINTF_ARG_NUM_MISMATCH)
    case 'm' => Some(BREAK_CONTINUE_OUT_OF_LOOP)
    case _ => None
  }

  /** A code identifies its kind, so the 13 codes are pairwise distinct. */
  lemma CodeRoundTrip(k: ErrorType)
    ensures FromCode(k.Code()) == Some(k)
  {
  }

  lemma CodeInjective(a: ErrorType, b: ErrorType)
    ensures a.Code() == b.Code() ==> a == b
  {
    CodeRoundTrip(a);
    CodeRoundTrip(b);
  }
}
