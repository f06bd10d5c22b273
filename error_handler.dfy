/**
 * The error registry of error/ErrorHandler.java. The Java class is a
 * process-wide singleton; here one ErrorHandler object is created by the
 * caller and handed to the lexer and the parser.
 */
module ErrorRegistry {
  import opened ErrorTypes
  import opened Errors

  // ----- specification of the sort in getErrors -----

  /** Ascending by line. */
  predicate SortedByLine(s: seq<Error>) {
    forall i, j :: 0 <= i < j < |s| ==> s[i].line <= s[j].line
  }

  /** The records of s on line n, in their order in s. */
  function OnLine(s: seq<Error>, n: int): seq<Error> {
    if s == [] then [] else (if s[0].line == n then [s[0]] else []) + OnLine(s[1..], n)
  }

  /** Puts e after every record of the sorted s whose line is not greater than e's. */
  function InsertByLine(e: Error, s: seq<Error>): (r: seq<Error>)
    ensures |r| == |s| + 1
  {
    if s == [] then [e]
    else if e.line < s[0].line then [e] + s
    else [s[0]] + InsertByLine(e, s[1..])
  }

  /** The list as a stable sort by line leaves it (List.sort with comparingInt(getLineNumber)). */
  function SortByLine(s: seq<Error>): (r: seq<Error>)
    ensures |r| == |s|
  {
    if s == [] then [] else InsertByLine(s[|s| - 1], SortByLine(s[..|s| - 1]))
  }

  /** The lines on which a record of kind ILLEGAL_SYMBOL occurs in h. */
  function LexicalLines(h: seq<Error>): set<int> {
    if h == [] then {}
    else LexicalLines(h[..|h| - 1]) + (if h[|h| - 1].kind == ILLEGAL_SYMBOL then {h[|h| - 1].line} else {})
  }

  lemma {:induction false} OnLineAppend(a: seq<Error>, b: seq<Error>, n: int)
    ensures OnLine(a + b, n) == OnLine(a, n) + OnLine(b, n)
  {
    if a != [] {
      assert (a + b)[1..] == a[1..] + b;
      OnLineAppend(a[1..], b, n);
    } else {
      assert a + b == b;
    }
  }

  lemma {:induction false} OnLineAbove(s: seq<Error>, n: int)
    requires SortedByLine(s)
    requires s != [] && n < s[0].line
    ensures OnLine(s, n) == []
  {
    if |s| > 1 {
      OnLineAbove(s[1..], n);
    }
  }

  lemma {:induction false} InsertLowerBound(e: Error, s: seq<Error>, m: int)
    requires e.line >= m
    requires forall i :: 0 <= i < |s| ==> s[i].line >= m
    ensures forall i :: 0 <= i < |InsertByLine(e, s)| ==> InsertByLine(e, s)[i].line >= m
  {
    if s != [] && e.line >= s[0].line {
      InsertLowerBound(e, s[1..], m);
    }
  }

  lemma {:induction false} InsertKeepsSorted(e: Error, s: seq<Error>)
    requires SortedByLine(s)
    ensures SortedByLine(InsertByLine(e, s))
  {
    if s != [] && e.line >= s[0].line {
      var rest := InsertByLine(e, s[1..]);
      InsertKeepsSorted(e, s[1..]);
      InsertLowerBound(e, s[1..], s[0].line);
      assert InsertByLine(e, s) == [s[0]] + rest;
      forall i, j | 0 <= i < j < |rest| + 1
        ensures ([s[0]] + rest)[i].line <= ([s[0]] + rest)[j].line
      {
        if i > 0 {
          assert ([s[0]] + rest)[i] == rest[i - 1];
        }
        assert ([s[0]] + rest)[j] == rest[j - 1];
      }
    }
  }

  lemma {:induction false} InsertPermutes(e: Error, s: seq<Error>)
    ensures multiset(InsertByLine(e, s)) == multiset(s) + multiset{e}
  {
    if s != [] && e.line >= s[0].line {
      InsertPermutes(e, s[1..]);
      assert InsertByLine(e, s) == [s[0]] + InsertByLine(e, s[1..]);
      assert s == [s[0]] + s[1..];
    }
  }

  lemma {:induction false} InsertOnLine(e: Error, s: seq<Error>, n: int)
    requires SortedByLine(s)
    ensures OnLine(InsertByLine(e, s), n) == OnLine(s, n) + (if e.line == n then [e] else [])
  {
    if s == [] {
    } else if e.line < s[0].line {
      assert InsertByLine(e, s) == [e] + s;
      OnLineAppend([e], s, n);
      if e.line == n {
        OnLineAbove(s, n);
      }
    } else {
      InsertOnLine(e, s[1..], n);
      assert InsertByLine(e, s) == [s[0]] + InsertByLine(e, s[1..]);
      OnLineAppend([s[0]], InsertByLine(e, s[1..]), n);
      OnLineAppend([s[0]], s[1..], n);
      assert s == [s[0]] + s[1..];
    }
  }

  /**
   * The sort is a stable sort by line: ascending by line, a permutation of
   * its input, and the records sharing a line keep their insertion order.
   */
  lemma {:induction false} SortByLineIsStableSort(s: seq<Error>)
    ensures SortedByLine(SortByLine(s))
    ensures multiset(SortByLine(s)) == multiset(s)
    ensures forall n :: OnLine(SortByLine(s), n) == OnLine(s, n)
  {
    if s != [] {
      var init, last := s[..|s| - 1], s[|s| - 1];
      assert s == init + [last];
      SortByLineIsStableSort(init);
      InsertKeepsSorted(last, SortByLine(init));
      InsertPermutes(last, SortByLine(init));
      forall n ensures OnLine(SortByLine(s), n) == OnLine(s, n) {
        InsertOnLine(last, SortByLine(init), n);
        OnLineAppend(init, [last], n);
      }
    }
  }

  /** A line is lexical exactly when some ILLEGAL_SYMBOL record was recorded on it. */
  lemma {:induction false} LexicalLinesMeaning(h: seq<Error>, n: int)
    ensures n in LexicalLines(h) <==> exists i :: 0 <= i < |h| && h[i] == Error(n, ILLEGAL_SYMBOL)
  {
    if h != [] {
      var init := h[..|h| - 1];
      LexicalLinesMeaning(init, n);
      if exists i :: 0 <= i < |init| && init[i] == Error(n, ILLEGAL_SYMBOL) {
        var i :| 0 <= i < |init| && init[i] == Error(n, ILLEGAL_SYMBOL);
        assert h[i] == init[i];
      }
      if exists i :: 0 <= i < |h| && h[i] == Error(n, ILLEGAL_SYMBOL) {
        var i :| 0 <= i < |h| && h[i] == Error(n, ILLEGAL_SYMBOL);
        if i < |init| {
          assert init[i] == h[i];
        }
      }
    }
  }

  // ----- the registry -----

  class ErrorHandler {
    /** The records, in insertion order until getErrors sorts them. */
    var errors: seq<Error>
    /** Lines that carry an ILLEGAL_SYMBOL record. */
    var lexicalErrorLines: set<int>

    /** Every record ever added, including those clearErrors dropped. */
    ghost var history: seq<Error>
    /** How much of history clearErrors has dropped. */
    ghost var cleared: nat

    ghost predicate Valid()
      reads this
    {
      && cleared <= |history|
      && multiset(errors) == multiset(history[cleared..])
      && lexicalErrorLines == LexicalLines(history)
    }

    constructor ()
      ensures Valid()
      ensures errors == [] && lexicalErrorLines == {} && history == []
    {
      errors := [];
      lexicalErrorLines := {};
      history := [];
      cleared := 0;
    }

    /** addError(Error): append the record; a lexical one also marks its line. */
    method AddError(e: Error)
      requires Valid()
      modifies this
      ensures Valid()
      ensures errors == old(errors) + [e]
      ensures history == old(history) + [e] && cleared == old(cleared)
      ensures lexicalErrorLines == old(lexicalErrorLines) + (if e.kind == ILLEGAL_SYMBOL then {e.line} else {})
    {
      errors := errors + [e];
      if e.kind == ILLEGAL_SYMBOL {
        lexicalErrorLines := lexicalErrorLines + {e.line};
      }
      history := history + [e];
      assert history[..|history| - 1] == old(history);
      assert history[cleared..] == old(history)[cleared..] + [e];
    }

    /** addError(int, ErrorType): the same as adding Error(line, kind). */
    method AddErrorAt(line: int, kind: ErrorType)
      requires Valid()
      modifies this
      ensures Valid()
      ensures errors == old(errors) + [Error(line, kind)]
      ensures history == old(history) + [Error(line, kind)] && cleared == old(cleared)
      ensures lexicalErrorLines == old(lexicalErrorLines) + (if kind == ILLEGAL_SYMBOL then {line} else {})
    {
      AddError(Error(line, kind));
    }

    /** hasLexicalErrorOnLine: was an ILLEGAL_SYMBOL record ever added on this line? */
    function HasLexicalErrorOnLine(n: int): (r: bool)
      requires Valid()
      reads this
      ensures r <==> exists i :: 0 <= i < |history| && history[i] == Error(n, ILLEGAL_SYMBOL)
    {
      LexicalLinesMeaning(history, n);
      n in lexicalErrorLines
    }

    /** getErrors: stably sort the stored list by line, then hand it out. */
    method GetErrors() returns (r: seq<Error>)
      requires Valid()
      modifies this
      ensures Valid()
      ensures errors == SortByLine(old(errors)) && r == errors
      ensures SortedByLine(r) && multiset(r) == multiset(old(errors))
      ensures forall n :: OnLine(r, n) == OnLine(old(errors), n)
      ensures lexicalErrorLines == old(lexicalErrorLines)
      ensures history == old(history) && cleared == old(cleared)
    {
      SortByLineIsStableSort(errors);
      errors := SortByLine(errors);
      r := errors;
    }

    /** hasErrors: true iff a record was added since the last clearErrors. */
    function HasErrors(): (r: bool)
      requires Valid()
      reads this
      ensures r <==> cleared < |history|
    {
      assert |errors| == |multiset(errors)| == |history[cleared..]|;
      |errors| != 0
    }

    /** clearErrors: drops the records but keeps the lexical-line set. */
    method ClearErrors()
      requires Valid()
      modifies this
      ensures Valid()
      ensures errors == [] && cleared == |history|
      ensures lexicalErrorLines == old(lexicalErrorLines) && history == old(history)
    {
      errors := [];
      cleared := |history|;
    }
  }
}
