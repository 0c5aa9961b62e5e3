/**
 * The sample programs of the repository's lexer and parser tests
 * (tests/test_lexer.cpp, tests/test_parser.cpp), and what the model says
 * about them.
 */
module Samples {
  import opened Wrappers
  import opened LexicalMatchers
  import opened Tokens
  import opened LexSpec
  import opened Tags
  import opened Syntax
  import opened ParseSpec
  import opened ParseProperties

  /** A character the lexer can never turn into an `unknown` token: no quote, `#` or dot. */
  predicate Benign(ch: char) {
    ch in {'(', ')', '[', ']'} || MatchSpacing(ch) || MatchAlphabetic(ch) || MatchOpSymbol(ch) || MatchDigit(ch)
  }

  predicate AllBenign(src: string) {
    forall i :: 0 <= i < |src| ==> Benign(src[i])
  }

  lemma {:induction false} NoDotCounted(src: string, lo: int, hi: int)
    requires 0 <= lo <= hi <= |src| && AllBenign(src)
    ensures CountIn(src, lo, hi, '.') == 0
    decreases hi - lo
  {
    if lo < hi {
      NoDotCounted(src, lo, hi - 1);
      assert Benign(src[hi - 1]);
    }
  }

  /** A token of a benign text is never `unknown`: brackets, spacing, words and dot-free numbers are all it can hold. */
  lemma BenignTokenIsKnown(src: string, c: Cursor)
    requires 0 <= c.pos < |src| && AllBenign(src)
    ensures Next(src, c).token.tag != Unknown
  {
    var ch := src[c.pos];
    assert Benign(ch);
    if MatchDigit(ch) {
      NumberClassification(src, c);
      var t := Next(src, c).token;
      NoDotCounted(src, t.begin, t.begin + t.length);
    }
  }

  /** No call of `next()` on a benign text yields `unknown` before `eof`. */
  lemma {:induction false} BenignTextLexesCleanly(src: string, c: Cursor)
    requires CursorIn(src, c) && AllBenign(src)
    ensures forall i :: 0 <= i < |LexAll(src, c)| ==> LexAll(src, c)[i].tag != Unknown
    decreases |src| - c.pos
  {
    var l := Next(src, c);
    if l.token.tag != Eof {
      BenignTokenIsKnown(src, c);
      BenignTextLexesCleanly(src, l.cursor);
      assert LexAll(src, c) == [l.token] + LexAll(src, l.cursor);
    }
  }

  lemma {:induction false} BenignConcat(a: string, b: string)
    requires AllBenign(a) && AllBenign(b)
    ensures AllBenign(a + b)
  {
    forall i | 0 <= i < |a + b| ensures Benign((a + b)[i]) {
      if i < |a| {
        assert (a + b)[i] == a[i];
      } else {
        assert (a + b)[i] == b[i - |a|];
      }
    }
  }

  /** The program of the lexer test, line by line. */
  const LexerSampleLines: seq<string> := [
    "(define x 42)\n",
    "(define y 24)\n",
    "(define avg-pair\n",
    "\t(lambda (a b)\n",
    "\t\t(/ (+ a b) 2)))\n",
    "(define answer (avg-pair x y))\n",
    "(display answer)\n"
  ]

  const LexerSample: string :=
    LexerSampleLines[0] + LexerSampleLines[1] + LexerSampleLines[2] + LexerSampleLines[3]
    + LexerSampleLines[4] + LexerSampleLines[5] + LexerSampleLines[6]

  /** The lines of the lexer test's program are benign: the two number definitions ... */
  lemma LexerSampleHeadIsBenign()
    ensures forall k :: 0 <= k < 2 ==> AllBenign(LexerSampleLines[k])
  {
    var ls := LexerSampleLines;
    assert AllBenign(ls[0]);
    assert AllBenign(ls[1]);
  }

  /** ... the first two lines of the lambda definition ... */
  lemma LexerSampleMiddleIsBenign()
    ensures forall k :: 2 <= k < 4 ==> AllBenign(LexerSampleLines[k])
  {
    var ls := LexerSampleLines;
    assert AllBenign(ls[2]);
    assert AllBenign(ls[3]);
  }

  /** ... and the three that follow. */
  lemma LexerSampleTailIsBenign()
    ensures forall k :: 4 <= k < 7 ==> AllBenign(LexerSampleLines[k])
  {
    var ls := LexerSampleLines;
    assert AllBenign(ls[4]);
    assert AllBenign(ls[5]) && AllBenign(ls[6]);
  }

  /** The lexer test passes: its loop meets `eof` without ever seeing `unknown`. */
  lemma LexerSampleHasNoUnknown()
    ensures forall i :: 0 <= i < |LexAll(LexerSample, Start)| ==> LexAll(LexerSample, Start)[i].tag != Unknown
  {
    var ls := LexerSampleLines;
    LexerSampleHeadIsBenign();
    LexerSampleMiddleIsBenign();
    LexerSampleTailIsBenign();
    assert AllBenign(ls[0]) && AllBenign(ls[1]) && AllBenign(ls[2]) && AllBenign(ls[3]);
    assert AllBenign(ls[4]) && AllBenign(ls[5]) && AllBenign(ls[6]);
    BenignConcat(ls[0], ls[1]);
    BenignConcat(ls[0] + ls[1], ls[2]);
    BenignConcat(ls[0] + ls[1] + ls[2], ls[3]);
    BenignConcat(ls[0] + ls[1] + ls[2] + ls[3], ls[4]);
    BenignConcat(ls[0] + ls[1] + ls[2] + ls[3] + ls[4], ls[5]);
    BenignConcat(ls[0] + ls[1] + ls[2] + ls[3] + ls[4] + ls[5], ls[6]);
    BenignTextLexesCleanly(LexerSample, Start);
  }

  /** The token after a `(` at the cursor: the bracket itself, one column wide. */
  lemma OpenParenToken(src: string, c: Cursor)
    requires 0 <= c.pos < |src| && src[c.pos] == '('
    ensures Advance(src, c) == Lexed(Token(LeftParen, c.pos, 1, c.line, c.column), Cursor(c.pos + 1, c.line, c.column + 1))
  {
  }

  /** The text `define ` (with its space) at index `p`. */
  predicate DefineAt(src: string, p: int) {
    && 0 <= p && p + 7 <= |src|
    && src[p] == 'd' && src[p + 1] == 'e' && src[p + 2] == 'f' && src[p + 3] == 'i'
    && src[p + 4] == 'n' && src[p + 5] == 'e' && src[p + 6] == ' '
  }

  /** `define` followed by a space at the cursor is lexed as the special name of six characters. */
  lemma DefineToken(src: string, c: Cursor)
    requires DefineAt(src, c.pos)
    ensures var l := Advance(src, c);
      l.token.tag == SpecialName && l.token.begin == c.pos && l.token.length == 6 && l.cursor.pos == c.pos + 6
      && CreateTokenSv(l.token, src) == "define"
  {
    RunLengthExact(src, c.pos, 6, WordRun);
    assert src[c.pos..c.pos + 6] == "define";
    KeywordsAreTheSpecialForms();
  }

  /** No scan but the spacing scan yields a spacing token, so `advance` stops at once on anything else. */
  lemma AdvanceAtNonSpacing(src: string, c: Cursor)
    requires 0 <= c.pos < |src| && !MatchSpacing(src[c.pos])
    ensures Advance(src, c) == Next(src, c)
  {
  }

  /** `advance` over a single spacing character: it goes on from the next character. */
  lemma AdvanceOverOneSpacing(src: string, c: Cursor)
    requires 0 <= c.pos && c.pos + 1 < |src| && MatchSpacing(src[c.pos]) && !MatchSpacing(src[c.pos + 1])
    ensures var c1 := Next(src, c).cursor; c1.pos == c.pos + 1 && Advance(src, c) == Next(src, c1)
  {
    RunLengthExact(src, c.pos, 1, SpacingRun);
    AdvanceAtNonSpacing(src, Next(src, c).cursor);
  }

  /** One spacing character and a `(`: `advance` skips the spacing and yields the bracket. */
  lemma SpacingThenOpenParen(src: string, c: Cursor)
    requires 0 <= c.pos && c.pos + 2 <= |src| && MatchSpacing(src[c.pos]) && src[c.pos + 1] == '('
    ensures var l := Advance(src, c); l.token.tag == LeftParen && l.token.begin == c.pos + 1 && l.cursor.pos == c.pos + 2
  {
    AdvanceOverOneSpacing(src, c);
  }

  /** A `)` at the cursor. */
  lemma CloseParenToken(src: string, c: Cursor)
    requires 0 <= c.pos < |src| && src[c.pos] == ')'
    ensures var l := Advance(src, c); l.token.tag == RightParen && l.token.begin == c.pos && l.cursor.pos == c.pos + 1
  {
  }

  /** A one-letter name at the cursor: an identifier of length one. */
  lemma LetterToken(src: string, d: Cursor)
    requires 0 <= d.pos && d.pos + 2 <= |src|
    requires MatchAlphabetic(src[d.pos]) && !InRun(WordRun, src[d.pos + 1])
    ensures var l := Next(src, d);
      l.token.tag == IdentifierName && l.token.begin == d.pos && l.token.length == 1 && l.cursor.pos == d.pos + 1
  {
    NextDispatch(src, d);
    RunLengthExact(src, d.pos, 1, WordRun);
    var name := src[d.pos..d.pos + 1];
    assert name !in Keywords by {
      KeywordsAreTheSpecialForms();
      assert |name| == 1;
    }
  }

  /** A space and a one-letter name: an identifier of length one. */
  lemma SpaceThenLetter(src: string, c: Cursor)
    requires 0 <= c.pos && c.pos + 3 <= |src| && src[c.pos] == ' '
    requires MatchAlphabetic(src[c.pos + 1]) && !InRun(WordRun, src[c.pos + 2])
    ensures var l := Advance(src, c);
      l.token.tag == IdentifierName && l.token.begin == c.pos + 1 && l.token.length == 1 && l.cursor.pos == c.pos + 2
  {
    AdvanceOverOneSpacing(src, c);
    var c1 := Next(src, c).cursor;
    LetterToken(src, c1);
    assert Advance(src, c) == Next(src, c1);
  }

  /** A two-digit number at the cursor: an exact number literal. */
  lemma TwoDigitToken(src: string, d: Cursor)
    requires 0 <= d.pos && d.pos + 3 <= |src|
    requires MatchDigit(src[d.pos]) && MatchDigit(src[d.pos + 1]) && !InRun(NumberRun, src[d.pos + 2])
    ensures var l := Next(src, d);
      l.token.tag == LiteralNumberExact && l.token.begin == d.pos && l.token.length == 2 && l.cursor.pos == d.pos + 2
  {
    NextDispatch(src, d);
    RunLengthExact(src, d.pos, 2, NumberRun);
    assert CountIn(src, d.pos, d.pos + 2, '.') == 0 by {
      assert CountIn(src, d.pos, d.pos, '.') == 0;
    }
  }

  /** A space and a two-digit number: an exact number literal. */
  lemma SpaceThenTwoDigits(src: string, c: Cursor)
    requires 0 <= c.pos && c.pos + 4 <= |src| && src[c.pos] == ' '
    requires MatchDigit(src[c.pos + 1]) && MatchDigit(src[c.pos + 2]) && !InRun(NumberRun, src[c.pos + 3])
    ensures var l := Advance(src, c);
      l.token.tag == LiteralNumberExact && l.token.begin == c.pos + 1 && l.token.length == 2 && l.cursor.pos == c.pos + 3
  {
    AdvanceOverOneSpacing(src, c);
    var c1 := Next(src, c).cursor;
    TwoDigitToken(src, c1);
    assert Advance(src, c) == Next(src, c1);
  }

  /** A number datum directly followed by `)`: as an initializer it is the one-item list of that datum. */
  lemma NumberInitializer(src: string, st: PState)
    requires ValidState(src, st) && st.current.tag == LiteralNumberExact
    requires Consume(src, st).current.tag == RightParen
    requires CreateTokenSv(st.current, src) !in {"lambda", "do", "cond"}
    ensures ParseNestable(src, st) == Parsed(Some(Listy([Some(Datum(st.current, NumberExactType))])), Consume(src, st))
  {
    var s1 := Consume(src, st);
    assert ParseDatum(src, st) == Parsed(Some(Datum(st.current, NumberExactType)), s1);
    assert ComputeItems(src, st, []) == ComputeItems(src, s1, [Some(Datum(st.current, NumberExactType))]);
  }

  /** A top-level form that opens with `define` is a variable definition closed by `)`. */
  lemma DefineForm(src: string, st: PState)
    requires ValidState(src, st) && st.current.tag == LeftParen
    requires CreateTokenSv(Consume(src, st).current, src) == "define"
    ensures var v := ParseVariable(src, Consume(src, st));
      ParseTop(src, st) == Parsed(v.expr, CheckedConsume(src, v.st, RightParen).st)
  {
  }

  /** The pieces of a variable definition: `define`, the name, and the initializer. */
  lemma VariableParts(src: string, st: PState)
    requires ValidState(src, st) && st.current.tag != Eof
    requires Consume(src, st).current.tag == IdentifierName
    ensures var s1 := Consume(src, st); var init := ParseNestable(src, Consume(src, s1));
      ParseVariable(src, st) == Parsed(Some(VariableDefine(CreateTokenSv(s1.current, src), init.expr)), init.st)
  {
  }

  /** The text `define x 42)` and a line feed at index `p`, for any letter and any two digits. */
  predicate NumberDefinitionAt(src: string, p: int) {
    && p + 13 <= |src| && DefineAt(src, p)
    && MatchAlphabetic(src[p + 7]) && src[p + 8] == ' ' && MatchDigit(src[p + 9]) && MatchDigit(src[p + 10])
    && src[p + 11] == ')' && src[p + 12] == '\n'
  }

  /** Text placed before a stretch shifts what the stretch holds by its length. */
  lemma {:induction false} Prefixed(x: string, y: string, p: int)
    requires 0 <= p
    ensures NumberDefinitionAt(y, p) ==> NumberDefinitionAt(x + y, |x| + p)
    ensures DefineAt(y, p) ==> DefineAt(x + y, |x| + p)
    ensures forall k :: 0 <= k < |y| ==> (x + y)[|x| + k] == y[k]
  {
  }

  /** Text placed after a stretch leaves what the stretch holds where it was. */
  lemma {:induction false} Suffixed(y: string, z: string, p: int)
    ensures NumberDefinitionAt(y, p) ==> NumberDefinitionAt(y + z, p)
    ensures DefineAt(y, p) ==> DefineAt(y + z, p)
    ensures forall k :: 0 <= k < |y| ==> (y + z)[k] == y[k]
  {
  }

  /** The text of a two-character token that starts with a digit names no special form. */
  lemma TwoDigitLexeme(src: string, t: Token)
    requires 0 <= t.begin && t.begin + 2 <= |src| && t.length == 2 && MatchDigit(src[t.begin])
    ensures CreateTokenSv(t, src) !in {"lambda", "do", "cond"}
  {
    var text := CreateTokenSv(t, src);
    assert |text| == 2 && text[0] == src[t.begin] && text[0] != 'd';
  }

  /** The tokens of `x 42)` after the keyword: the name, the number and the `)`. */
  lemma NumberDefinitionOperands(src: string, s1: PState, p: int)
    requires ValidState(src, s1) && !s1.errored && NumberDefinitionAt(src, p) && s1.cursor.pos == p + 6
    ensures var s2 := Consume(src, s1); var s3 := Consume(src, s2); var s4 := Consume(src, s3);
      && s2.current.tag == IdentifierName && s2.current.begin == p + 7 && s2.current.length == 1
      && s3.current.tag == LiteralNumberExact && s3.current.begin == p + 9 && s3.current.length == 2
      && CreateTokenSv(s3.current, src) !in {"lambda", "do", "cond"}
      && s4.current.tag == RightParen && s4.cursor.pos == p + 12 && !s4.errored
  {
    var s2 := Consume(src, s1);
    SpaceThenLetter(src, s1.cursor);
    assert s2.cursor.pos == p + 8 && !s2.errored;
    var s3 := Consume(src, s2);
    SpaceThenTwoDigits(src, s2.cursor);
    assert s3.cursor.pos == p + 11 && !s3.errored;
    TwoDigitLexeme(src, s3.current);
    CloseParenToken(src, s3.cursor);
  }

  /** The tokens of `define x 42)`: the keyword, the name, the number and the `)`, none of them an error. */
  lemma NumberDefinitionTokens(src: string, st: PState)
    requires ValidState(src, st) && st.current.tag == LeftParen && !st.errored
    requires NumberDefinitionAt(src, st.cursor.pos)
    ensures var s1 := Consume(src, st); var s2 := Consume(src, s1);
      var s3 := Consume(src, s2); var s4 := Consume(src, s3);
      && CreateTokenSv(s1.current, src) == "define"
      && s2.current.tag == IdentifierName && s2.current.begin == st.cursor.pos + 7 && s2.current.length == 1
      && s3.current.tag == LiteralNumberExact && s3.current.begin == st.cursor.pos + 9 && s3.current.length == 2
      && CreateTokenSv(s3.current, src) !in {"lambda", "do", "cond"}
      && s4.current.tag == RightParen && s4.cursor.pos == st.cursor.pos + 12 && !s4.errored
  {
    var s1 := Consume(src, st);
    DefineToken(src, st.cursor);
    assert s1.cursor.pos == st.cursor.pos + 6 && !s1.errored;
    NumberDefinitionOperands(src, s1, st.cursor.pos);
  }

  /** The tree of a definition of `name` by one exact number: `VariableDefine(name, Listy([Datum(number_exact)]))`. */
  function NumberDefinition(name: string, number: Token): Expr {
    VariableDefine(name, Some(Listy([Some(Datum(number, NumberExactType))])))
  }

  /**
   * The variable definition `define x 42` up to its `)`: it binds the
   * one-letter name to the one-datum list of the two-digit number, without
   * error, and leaves the parser at the `)`.
   */
  lemma NumberDefinitionBody(src: string, st: PState)
    requires ValidState(src, st) && st.current.tag == LeftParen && !st.errored
    requires NumberDefinitionAt(src, st.cursor.pos)
    ensures var p := st.cursor.pos; var s1 := Consume(src, st); var v := ParseVariable(src, s1);
      var number := Consume(src, Consume(src, s1)).current;
      && CreateTokenSv(s1.current, src) == "define"
      && number.tag == LiteralNumberExact && number.begin == p + 9 && number.length == 2
      && v.expr == Some(NumberDefinition(src[p + 7..p + 8], number))
      && !v.st.errored && v.st.current.tag == RightParen && v.st.cursor.pos == p + 12
  {
    NumberDefinitionTokens(src, st);
    var s1 := Consume(src, st);
    var s2 := Consume(src, s1);
    var s3 := Consume(src, s2);
    NumberInitializer(src, s3);
    VariableParts(src, s1);
    SliceOfInnerToken(s2.current, src);
  }

  /**
   * A definition of a one-letter name by a two-digit number, `(define x 42)`,
   * followed by a line feed and the next `(`: the form parses without error
   * and the parser stops at that next `(`.
   */
  lemma NumberDefinitionParses(src: string, st: PState)
    requires ValidState(src, st) && st.current.tag == LeftParen && !st.errored
    requires NumberDefinitionAt(src, st.cursor.pos) && st.cursor.pos + 14 <= |src| && src[st.cursor.pos + 13] == '('
    ensures var p := st.cursor.pos; var r := ParseTop(src, st);
      var number := Consume(src, Consume(src, Consume(src, st))).current;
      && number.tag == LiteralNumberExact && number.begin == p + 9 && number.length == 2
      && r.expr == Some(NumberDefinition(src[p + 7..p + 8], number))
      && !r.st.errored && r.st.current.tag == LeftParen && r.st.cursor.pos == p + 14
  {
    NumberDefinitionBody(src, st);
    DefineForm(src, st);
    var v := ParseVariable(src, Consume(src, st));
    SpacingThenOpenParen(src, v.st.cursor);
  }

  /** A `(define (` form anywhere leaves the parser errored. */
  lemma ListNamedDefineErrs(src: string, st: PState)
    requires ValidState(src, st) && st.current.tag == LeftParen
    requires DefineAt(src, st.cursor.pos) && st.cursor.pos + 8 <= |src| && src[st.cursor.pos + 7] == '('
    ensures ParseTop(src, st).st.errored
  {
    var s1 := Consume(src, st);
    DefineToken(src, st.cursor);
    SpacingThenOpenParen(src, s1.cursor);
    DefineWithoutNameErrs(src, st);
  }

  /** A top-level form that opens with `define` and then something other than an identifier leaves the parser errored. */
  lemma DefineWithoutNameErrs(src: string, st: PState)
    requires ValidState(src, st) && st.current.tag == LeftParen
    requires CreateTokenSv(Consume(src, st).current, src) == "define"
    requires Consume(src, Consume(src, st)).current.tag != IdentifierName
    ensures ParseTop(src, st).st.errored
  {
    var s1 := Consume(src, st);
    VariableBindsName(src, s1);
  }

  /** One iteration of parse_program's loop. */
  lemma ProgramStep(src: string, st: PState, tops: seq<Option<Expr>>)
    requires ValidState(src, st) && st.current.tag != Eof
    ensures var top := ParseTop(src, st); ProgramFrom(src, st, tops) == ProgramFrom(src, top.st, tops + [top.expr])
  {
  }

  /** Once a top-level form leaves the parser errored, the program reports failure. */
  lemma ErroredTopFails(src: string, st: PState, tops: seq<Option<Expr>>)
    requires ValidState(src, st) && st.current.tag != Eof && ParseTop(src, st).st.errored
    ensures !ProgramFrom(src, st, tops).ok
  {
    ProgramStep(src, st, tops);
  }

  /**
   * A definition whose name is a parenthesised list, as in `(define (f a) ...)`,
   * is a parse failure: after `define` the parser demands an identifier, finds
   * `(`, and the `errored` flag it then sets is never cleared.
   */
  lemma ListNamedDefineFails(src: string)
    requires |src| >= 9 && src[0] == '(' && DefineAt(src, 1) && src[8] == '('
    ensures !ParseProgram(src).ok
  {
    var st0 := InitialState(src);
    OpenParenToken(src, Start);
    ListNamedDefineErrs(src, st0);
    ErroredTopFails(src, st0, []);
  }

  /** The program of the parser test, in the pieces its first three forms begin. */
  const FirstDefinition: string := "(define x 42)\n"
  const SecondDefinition: string := "(define y 24)\n"
  const ThirdDefinition: string := "(define (my-average a b)\n"
  const Remainder: string := "(+ (/ a 2)\n(/ b 2)))\n(define answer (my-average x y))\n(display answer)\n"
  const ParserSample: string := FirstDefinition + SecondDefinition + ThirdDefinition + Remainder

  /** What each of the first three lines of the parser test's program holds. */
  lemma ParserSampleLines()
    ensures |FirstDefinition| == 14 && FirstDefinition[0] == '(' && NumberDefinitionAt(FirstDefinition, 1)
    ensures |SecondDefinition| == 14 && SecondDefinition[0] == '(' && NumberDefinitionAt(SecondDefinition, 1)
    ensures ThirdDefinition[0] == '(' && DefineAt(ThirdDefinition, 1) && ThirdDefinition[8] == '('
  {
  }

  /** The first two forms of the parser test's program define a letter by two digits; the third begins `(define (`. */
  lemma ParserSampleLayout()
    ensures |ParserSample| >= 37 && ParserSample[0] == '(' && ParserSample[14] == '(' && ParserSample[28] == '('
    ensures NumberDefinitionAt(ParserSample, 1) && NumberDefinitionAt(ParserSample, 15)
    ensures DefineAt(ParserSample, 29) && ParserSample[36] == '('
  {
    var a, b, c, d := FirstDefinition, SecondDefinition, ThirdDefinition, Remainder;
    ParserSampleLines();
    Suffixed(a, b, 1);
    Prefixed(a, b, 1);
    Suffixed(a + b, c, 1);
    Suffixed(a + b, c, 15);
    Prefixed(a + b, c, 1);
    Suffixed(a + b + c, d, 1);
    Suffixed(a + b + c, d, 15);
    Suffixed(a + b + c, d, 29);
  }

  /**
   * A program that opens with two definitions of a letter by two digits and
   * then a `(define (` form reports failure.
   */
  lemma {:induction false} TwoDefinitionsThenListNamedDefineFail(src: string)
    requires |src| >= 37 && src[0] == '(' && src[14] == '(' && src[28] == '('
    requires NumberDefinitionAt(src, 1) && NumberDefinitionAt(src, 15)
    requires DefineAt(src, 29) && src[36] == '('
    ensures !ParseProgram(src).ok
  {
    var st0 := InitialState(src);
    OpenParenToken(src, Start);
    NumberDefinitionParses(src, st0);
    var t1 := ParseTop(src, st0);
    NumberDefinitionParses(src, t1.st);
    var t2 := ParseTop(src, t1.st);
    ListNamedDefineErrs(src, t2.st);
    ErroredTopFails(src, t2.st, [t1.expr, t2.expr]);
    ProgramStep(src, t1.st, [t1.expr]);
    ProgramStep(src, st0, []);
  }

  /**
   * The parser test's own program reports failure: its first two definitions
   * parse, but the third defines `(my-average a b)`, a list where `define`
   * takes a name.
   */
  lemma ParserSampleFails()
    ensures !ParseProgram(ParserSample).ok
  {
    ParserSampleLayout();
    TwoDefinitionsThenListNamedDefineFail(ParserSample);
  }

  /**
   * A parenthesised one-letter name inside a valued expression, `(a)`, is the
   * one-item list of that name, and the item loop goes on after its `)`.
   */
  lemma NameGroup(src: string, st: PState, items: seq<Option<Expr>>)
    requires ValidState(src, st) && st.current.tag == LeftParen && st.cursor.pos + 2 <= |src|
    requires MatchAlphabetic(src[st.cursor.pos]) && src[st.cursor.pos + 1] == ')'
    ensures var s1 := Consume(src, st); var s2 := Consume(src, s1);
      && s1.current.tag == IdentifierName && s2.current.tag == RightParen && s2.cursor.pos == st.cursor.pos + 2
      && ComputeItems(src, st, items) == ComputeItems(src, Consume(src, s2), items + [Some(Listy([Some(Datum(s1.current, UnknownType))]))])
  {
    var s1 := Consume(src, st);
    AdvanceAtNonSpacing(src, st.cursor);
    LetterToken(src, st.cursor);
    var s2 := Consume(src, s1);
    CloseParenToken(src, s1.cursor);
    var name := Some(Datum(s1.current, UnknownType));
    assert ParseDatum(src, s1) == Parsed(name, s2);
    assert ComputeItems(src, s1, []) == ExprList([name], true, s2);
    assert ParseCompute(src, s1) == Parsed(Some(Listy([name])), s2);
  }

  /**
   * Recovery does not keep an error to its own form. In `(]) (a) (b)` the
   * stray `]` is recovered from by skipping to the first `)`, which is the one
   * that closes the malformed form, and consuming it. The valued expression then
   * takes the two well-formed forms that follow as its own items, meets `eof`
   * and comes out null: the program is a single null form and a failure.
   */
  const SwallowingSample: string := "(]) (a) (b)"

  /** The text `(]) (a) (b)`, with any two letters. */
  predicate SwallowingAt(src: string) {
    && |src| == 11 && src[0] == '(' && src[1] == ']' && src[2] == ')' && src[3] == ' ' && src[4] == '('
    && MatchAlphabetic(src[5]) && src[6] == ')' && src[7] == ' ' && src[8] == '(' && MatchAlphabetic(src[9]) && src[10] == ')'
  }

  /**
   * A token that is no datum and directly followed by `)`, inside a valued
   * expression: it becomes a null item, and recovery consumes that `)`.
   */
  lemma StrayBeforeClose(src: string, st: PState, items: seq<Option<Expr>>)
    requires ValidState(src, st) && st.current.tag !in {Eof, RightParen, LeftParen} && DatumType(st.current.tag).None?
    requires Consume(src, st).current.tag == RightParen
    ensures ComputeItems(src, st, items) == ComputeItems(src, Consume(src, Consume(src, st)), items + [None])
  {
    assert SkipToClose(src, st) == Consume(src, st);
  }

  lemma SwallowingSampleLayout()
    ensures SwallowingAt(SwallowingSample)
  {
  }

  /** The first tokens: `(`, then `]`, then the `)` right after it, then the `(` of the next form. */
  lemma SwallowingOpening(src: string, st0: PState)
    requires SwallowingAt(src) && st0 == InitialState(src)
    ensures var s1 := Consume(src, st0); var s2 := Consume(src, s1); var s3 := Consume(src, s2);
      && st0.current.tag == LeftParen
      && s1.current.tag == RightBracket && |CreateTokenSv(s1.current, src)| == 1
      && s2.current.tag == RightParen
      && s3.current.tag == LeftParen && s3.cursor.pos == 5 && !s3.errored
  {
    OpenParenToken(src, Start);
    var s1 := Consume(src, st0);
    AdvanceAtNonSpacing(src, st0.cursor);
    SingleCharacterTokens(src, st0.cursor);
    var s2 := Consume(src, s1);
    CloseParenToken(src, s1.cursor);
    SpacingThenOpenParen(src, s2.cursor);
  }

  /** The rest: `(a)` and `(b)` become items of the first form's list, and then `eof` comes. */
  lemma SwallowingItems(src: string, s3: PState, items: seq<Option<Expr>>)
    requires SwallowingAt(src) && ValidState(src, s3) && s3.current.tag == LeftParen && s3.cursor.pos == 5
    ensures var r := ComputeItems(src, s3, items);
      && !r.closed && r.st.current.tag == Eof && r.st.errored == s3.errored && |r.items| == |items| + 2
  {
    NameGroup(src, s3, items);
    var s5 := Consume(src, Consume(src, s3));
    var s6 := Consume(src, s5);
    SpacingThenOpenParen(src, s5.cursor);
    var a := Some(Listy([Some(Datum(Consume(src, s3).current, UnknownType))]));
    NameGroup(src, s6, items + [a]);
    var s8 := Consume(src, Consume(src, s6));
    assert Consume(src, s8).current.tag == Eof;
  }

  /** A top-level form whose first word is no keyword and whose valued expression meets `eof`: a null form, errored, at `eof`. */
  lemma CutOffTop(src: string, st: PState)
    requires ValidState(src, st) && st.current.tag == LeftParen
    requires |CreateTokenSv(Consume(src, st).current, src)| == 1
    requires ParseCompute(src, Consume(src, st)).expr.None?
    ensures var top := ParseTop(src, st); top.expr.None? && top.st.errored && top.st.current.tag == Eof
  {
  }

  /** A program that is one such cut-off top-level form and nothing after it. */
  lemma CutOffProgram(src: string)
    requires InitialState(src).current.tag == LeftParen
    requires |CreateTokenSv(Consume(src, InitialState(src)).current, src)| == 1
    requires ParseCompute(src, Consume(src, InitialState(src))).expr.None?
    ensures ParseProgram(src) == Ast([None], false)
  {
    CutOffTop(src, InitialState(src));
    ProgramStep(src, InitialState(src), []);
  }

  /** A valued expression that opens with a stray `]` before `)`, and whose items after that stop at `eof`: it comes out null. */
  lemma CutOffAfterStray(src: string, s1: PState)
    requires ValidState(src, s1) && s1.current.tag == RightBracket && Consume(src, s1).current.tag == RightParen
    requires !ComputeItems(src, Consume(src, Consume(src, s1)), [None]).closed
    ensures ParseCompute(src, s1).expr.None?
  {
    var none: seq<Option<Expr>> := [];
    assert none + [None] == [None];
    StrayBeforeClose(src, s1, none);
  }

  /** The first form's valued expression takes the null item for `]` and the two groups, and meets `eof`. */
  lemma SwallowingCompute(src: string, st0: PState)
    requires SwallowingAt(src) && st0 == InitialState(src)
    ensures ParseCompute(src, Consume(src, st0)).expr.None?
  {
    SwallowingOpening(src, st0);
    var s1 := Consume(src, st0);
    SwallowingItems(src, Consume(src, Consume(src, s1)), [None]);
    CutOffAfterStray(src, s1);
  }

  lemma SwallowingText(src: string)
    requires SwallowingAt(src)
    ensures ParseProgram(src) == Ast([None], false)
  {
    SwallowingOpening(src, InitialState(src));
    SwallowingCompute(src, InitialState(src));
    CutOffProgram(src);
  }

  /** `(]) (a) (b)` is one null form and a failure: the recovery swallowed the two well-formed forms after it. */
  lemma RecoverySwallowsLaterForms()
    ensures ParseProgram(SwallowingSample) == Ast([None], false)
  {
    SwallowingSampleLayout();
    SwallowingText(SwallowingSample);
  }

  /**
   * A definition whose initializer is missing, `(define x )`, is accepted: the
   * initializer is the valued expression that stops at once before `)`, the
   * empty list.
   */
  const MissingInitializerSample: string := "(define x )"

  /** The text `(define x )`, with any one-letter name. */
  predicate MissingInitializerAt(src: string) {
    |src| == 11 && src[0] == '(' && DefineAt(src, 1) && MatchAlphabetic(src[8]) && src[9] == ' ' && src[10] == ')'
  }

  lemma MissingInitializerLayout()
    ensures MissingInitializerAt(MissingInitializerSample) && MissingInitializerSample[8..9] == "x"
  {
  }

  /** The first tokens of such a text: `(`, `define` and the one-letter name. */
  lemma MissingInitializerName(src: string, st0: PState)
    requires MissingInitializerAt(src) && st0 == InitialState(src)
    ensures var s1 := Consume(src, st0); var s2 := Consume(src, s1);
      && st0.current.tag == LeftParen && CreateTokenSv(s1.current, src) == "define"
      && s2.current.tag == IdentifierName && CreateTokenSv(s2.current, src) == src[8..9] && s2.cursor.pos == 9
  {
    OpenParenToken(src, Start);
    DefineToken(src, st0.cursor);
    var s1 := Consume(src, st0);
    SpaceThenLetter(src, s1.cursor);
    SliceOfInnerToken(Consume(src, s1).current, src);
  }

  /** The token after the name: a `)` that ends the text. */
  lemma MissingInitializerClose(src: string, s2: PState)
    requires MissingInitializerAt(src) && ValidState(src, s2) && s2.cursor.pos == 9
    ensures var s3 := Consume(src, s2);
      s3.current.tag == RightParen && s3.cursor.pos == |src| && |CreateTokenSv(s3.current, src)| <= 1
  {
    AdvanceOverOneSpacing(src, s2.cursor);
    var c1 := Next(src, s2.cursor).cursor;
    CloseParenToken(src, c1);
    AdvanceAtNonSpacing(src, c1);
  }

  /** A name directly followed by `)` after `define`: the initializer is the empty list, and the parser stays at the `)`. */
  lemma EmptyInitializerVariable(src: string, s1: PState)
    requires ValidState(src, s1) && s1.current.tag != Eof
    requires Consume(src, s1).current.tag == IdentifierName
    requires Consume(src, Consume(src, s1)).current.tag == RightParen
    requires |CreateTokenSv(Consume(src, Consume(src, s1)).current, src)| <= 1
    ensures var s2 := Consume(src, s1); var s3 := Consume(src, s2);
      ParseVariable(src, s1) == Parsed(Some(VariableDefine(CreateTokenSv(s2.current, src), Some(Listy([])))), s3)
  {
    var s3 := Consume(src, Consume(src, s1));
    VariableParts(src, s1);
    ComputeAtBoundary(src, s3);
    assert ParseNestable(src, s3) == Parsed(Some(Listy([])), s3);
  }

  /** A `define` form whose name is directly followed by `)`: it parses, with the empty list as initializer. */
  lemma EmptyInitializerTop(src: string, st: PState)
    requires ValidState(src, st) && st.current.tag == LeftParen
    requires CreateTokenSv(Consume(src, st).current, src) == "define"
    requires Consume(src, Consume(src, st)).current.tag == IdentifierName
    requires Consume(src, Consume(src, Consume(src, st))).current.tag == RightParen
    requires |CreateTokenSv(Consume(src, Consume(src, Consume(src, st))).current, src)| <= 1
    ensures var s2 := Consume(src, Consume(src, st)); var s3 := Consume(src, s2);
      ParseTop(src, st) == Parsed(Some(VariableDefine(CreateTokenSv(s2.current, src), Some(Listy([])))), Consume(src, s3))
  {
    DefineForm(src, st);
    EmptyInitializerVariable(src, Consume(src, st));
  }

  /** Any text of that layout is one definition of its letter by the empty list, and no error. */
  lemma MissingInitializerText(src: string)
    requires MissingInitializerAt(src)
    ensures ParseProgram(src) == Ast([Some(VariableDefine(src[8..9], Some(Listy([]))))], true)
  {
    var st0 := InitialState(src);
    MissingInitializerName(src, st0);
    MissingInitializerClose(src, Consume(src, Consume(src, st0)));
    EmptyInitializerTop(src, st0);
    ProgramStep(src, st0, []);
  }

  /** `(define x )` parses, and without an error: `x` is defined by the empty list. */
  lemma MissingInitializerAccepted()
    ensures ParseProgram(MissingInitializerSample) == Ast([Some(VariableDefine("x", Some(Listy([]))))], true)
  {
    MissingInitializerLayout();
    MissingInitializerText(MissingInitializerSample);
  }
}
