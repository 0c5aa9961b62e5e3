/**
 * The parser as the source writes it (parser.hpp, parser.cpp): an object
 * that owns a lexer, holds the previous and the current token and the
 * `errored` flag, and whose mutually recursive routines advance that state
 * in place. Every routine is proved to build exactly the expression, and to
 * leave exactly the state, that its counterpart in `ParseSpec` describes.
 */
module Parsing {
  import opened Wrappers
  import opened Tokens
  import opened LexSpec
  import opened Lexing
  import opened Tags
  import opened Syntax
  import opened ParseSpec

  /** Which token `match` looks at. */
  datatype PeekOpt = Previous | Current

  /** The error groups parser.cpp reports with (the header lacks `missing_token`). */
  datatype ParseErrorGroup = MissingToken | InvalidToken | UnexpectedToken

  /** The diagnostic `report_parse_error` writes: position, lexeme and, outside `invalid_token`, a note. */
  datatype Diagnostic =
    | InvalidTokenReport(line: int, column: int, lexeme: string)
    | UnexpectedTokenReport(line: int, column: int, lexeme: string, note: string)

  class Parser {
    const lexer: Lexer
    var previous: Token
    var current: Token
    const source: string
    var errored: bool

    ghost predicate Valid()
      reads this, lexer
    {
      lexer.Valid() && lexer.src == source && ValidState(source, State())
    }

    /** The parser's state, as the specification sees it. */
    function State(): PState
      reads this, lexer
    {
      PState(lexer.Location(), previous, current, errored)
    }

    /** Both tokens start out `unknown`; one consume loads the first real token. */
    constructor (src: string)
      ensures Valid() && source == src && State() == InitialState(src) && fresh(lexer)
    {
      lexer := new Lexer(src);
      previous := Blank;
      current := Blank;
      source := src;
      errored := false;
      new;
      Consume();
    }

    function Peek(opt: PeekOpt): TokenTag
      reads this
    {
      if opt == Current then current.tag else previous.tag
    }

    /** `match<opt>(tag, rest...)`: the fold `(tag == t0) or ... or (tag == tn)` over at least one tag. */
    function Match(opt: PeekOpt, tags: seq<TokenTag>): (b: bool)
      requires |tags| >= 1
      reads this
      ensures b <==> Peek(opt) in tags
    {
      Peek(opt) == tags[0] || (|tags| > 1 && Match(opt, tags[1..]))
    }

    /** `atEOF()`: once the current token is `eof`, the lexer has no text left. */
    predicate AtEof()
      reads this, lexer
      ensures AtEof() && Valid() ==> lexer.Location().pos == |source|
    {
      current.tag == Eof
    }

    /**
     * report_parse_error: the message it would write. `invalid_token` takes
     * the first branch and every other group the second. Writing it is left
     * out; the parser's state is untouched either way.
     */
    function ReportParseError(group: ParseErrorGroup, culprit: Token, message: string): (d: Diagnostic)
      requires SliceableIn(culprit, source)
      ensures d.InvalidTokenReport? <==> group == InvalidToken
      ensures d.line == culprit.line && d.column == culprit.column && d.lexeme == CreateTokenSv(culprit, source)
      ensures d.UnexpectedTokenReport? ==> d.note == message
    {
      var lexeme := CreateTokenSv(culprit, source);
      if group == InvalidToken then InvalidTokenReport(culprit.line, culprit.column, lexeme)
      else UnexpectedTokenReport(culprit.line, culprit.column, lexeme, message)
    }

    method Advance() returns (t: Token)
      requires lexer.Valid() && lexer.src == source
      modifies lexer
      ensures lexer.Valid() && Lexed(t, lexer.Location()) == ParseSpec.Advance(source, old(lexer.Location()))
    {
      while true
        invariant lexer.Valid() && lexer.src == source
        invariant ParseSpec.Advance(source, lexer.Location()) == ParseSpec.Advance(source, old(lexer.Location()))
        decreases |source| - lexer.pos
      {
        t := lexer.Next();
        if t.tag == Spacing {
          continue;
        }
        break;
      }
    }

    method Consume()
      requires Valid()
      modifies this, lexer
      ensures Valid() && State() == ParseSpec.Consume(source, old(State()))
    {
      previous := current;
      current := Advance();
    }

    method RecoverParse()
      requires Valid()
      modifies this, lexer
      ensures Valid() && State() == Recover(source, old(State()))
    {
      while !AtEof() && !Match(Current, [RightParen])
        invariant Valid()
        invariant SkipToClose(source, State()) == SkipToClose(source, old(State()))
        decreases ParseSpec.Measure(source, State())
      {
        Consume();
      }
      Consume();
    }

    /** The checked `consume<current>(tag)`. */
    method ConsumeCurrent(tag: TokenTag) returns (ok: bool)
      requires Valid()
      modifies this, lexer
      ensures Valid() && Checked(ok, State()) == CheckedConsume(source, old(State()), tag)
    {
      if Match(Current, [tag]) {
        Consume();
        return true;
      }
      RecoverParse();
      errored := true;
      return false;
    }

    method ParseProgram() returns (ast: Ast)
      requires Valid()
      modifies this, lexer
      ensures Valid() && ast == ProgramFrom(source, old(State()), [])
    {
      var tops: seq<Option<Expr>> := [];
      while !AtEof()
        invariant Valid()
        invariant ProgramFrom(source, State(), tops) == ProgramFrom(source, old(State()), [])
        decreases ParseSpec.Measure(source, State())
      {
        var top := ParseTop();
        tops := tops + [top];
      }
      ast := Ast(tops, !errored);
    }

    method ParseTop() returns (r: Option<Expr>)
      requires Valid()
      modifies this, lexer
      ensures Valid() && Parsed(r, State()) == ParseSpec.ParseTop(source, old(State()))
      decreases ParseSpec.Measure(source, State()), 1
    {
      var ok := ConsumeCurrent(LeftParen);
      if !ok {
        return None;
      }
      var lexeme := CreateTokenSv(current, source);
      if lexeme == "define" || lexeme == "let!" {
        r := ParseVariable();
      } else if lexeme == "lambda" {
        r := ParseLambda();
      } else {
        r := ParseCompute();
      }
      ok := ConsumeCurrent(RightParen);
    }

    method ParseVariable() returns (r: Option<Expr>)
      requires Valid() && current.tag != Eof
      modifies this, lexer
      ensures Valid() && Parsed(r, State()) == ParseSpec.ParseVariable(source, old(State()))
      decreases ParseSpec.Measure(source, State()), 5
    {
      Consume();
      var ok := ConsumeCurrent(IdentifierName);
      var name := CreateTokenInfoStr(previous, source);
      var init := ParseNestable();
      r := Some(VariableDefine(name, init));
    }

    method ParseLambda() returns (r: Option<Expr>)
      requires Valid() && current.tag != Eof
      modifies this, lexer
      ensures Valid() && Parsed(r, State()) == ParseSpec.ParseLambda(source, old(State()))
      decreases ParseSpec.Measure(source, State()), 3
    {
      Consume();
      var ok := ConsumeCurrent(LeftParen);
      var params: seq<string> := [];
      var closedParen := false;
      ghost var s0 := State();
      while !AtEof()
        invariant Valid() && !closedParen
        invariant LambdaParams(source, State(), params) == LambdaParams(source, s0, [])
        decreases ParseSpec.Measure(source, State())
      {
        if Match(Current, [RightParen]) {
          Consume();
          closedParen := true;
          break;
        }
        ok := ConsumeCurrent(IdentifierName);
        params := params + [CreateTokenInfoStr(previous, source)];
      }
      if !closedParen {
        return None;
      }
      var body := ParseNestable();
      r := Some(LambdaDefine(params, body));
    }

    method ParseNestable() returns (r: Option<Expr>)
      requires Valid()
      modifies this, lexer
      ensures Valid() && Parsed(r, State()) == ParseSpec.ParseNestable(source, old(State()))
      decreases ParseSpec.Measure(source, State()), 4
    {
      var enclosed := false;
      if Match(Current, [LeftParen]) {
        Consume();
        enclosed := true;
      }
      var lexeme := CreateTokenSv(current, source);
      if lexeme == "lambda" {
        r := ParseLambda();
      } else if lexeme == "do" {
        r := ParseDo();
      } else if lexeme == "cond" {
        r := ParseCond();
      } else {
        r := ParseCompute();
      }
      if enclosed {
        var ok := ConsumeCurrent(RightParen);
      }
    }

    method ParseDo() returns (r: Option<Expr>)
      requires Valid() && current.tag != Eof
      modifies this, lexer
      ensures Valid() && Parsed(r, State()) == ParseSpec.ParseDo(source, old(State()))
      decreases ParseSpec.Measure(source, State()), 3
    {
      Consume();
      var steps: seq<Option<Expr>> := [];
      var closedParen := false;
      ghost var s0 := State();
      while !AtEof()
        invariant Valid() && !closedParen
        invariant DoSteps(source, State(), steps) == DoSteps(source, s0, [])
        invariant ParseSpec.Measure(source, State()) <= ParseSpec.Measure(source, s0)
        decreases ParseSpec.Measure(source, State())
      {
        if Match(Current, [RightParen]) {
          closedParen := true;
          break;
        }
        var step := ParseTop();
        steps := steps + [step];
      }
      if !closedParen {
        return None;
      }
      var node, count := NewListy(steps);
      r := Some(node);
    }

    /** parse_cond with the loop guard corrected to `not atEOF()`. */
    method ParseCond() returns (r: Option<Expr>)
      requires Valid() && current.tag != Eof
      modifies this, lexer
      ensures Valid() && Parsed(r, State()) == ParseSpec.ParseCond(source, old(State()))
      decreases ParseSpec.Measure(source, State()), 3
    {
      Consume();
      var cases: seq<Case> := [];
      var closedParen := false;
      ghost var s0 := State();
      while !AtEof()
        invariant Valid() && !closedParen
        invariant CondCases(source, State(), cases) == CondCases(source, s0, [])
        invariant ParseSpec.Measure(source, State()) <= ParseSpec.Measure(source, s0)
        decreases ParseSpec.Measure(source, State())
      {
        if Match(Current, [RightParen]) {
          closedParen := true;
          break;
        }
        ghost var before := State();
        var ok := ConsumeCurrent(LeftParen);
        var test := ParseCompute();
        var result := ParseCompute();
        ok := ConsumeCurrent(RightParen);
        assert CaseParsed(Case(test, result), State()) == CondCase(source, before);
        cases := cases + [Case(test, result)];
      }
      if !closedParen {
        return None;
      }
      var node, count := NewCond(cases);
      r := Some(node);
    }

    method ParseCompute() returns (r: Option<Expr>)
      requires Valid()
      modifies this, lexer
      ensures Valid() && Parsed(r, State()) == ParseSpec.ParseCompute(source, old(State()))
      decreases ParseSpec.Measure(source, State()), 3
    {
      var items: seq<Option<Expr>> := [];
      var closedParen := false;
      ghost var s0 := State();
      while !AtEof()
        invariant Valid() && !closedParen
        invariant ComputeItems(source, State(), items) == ComputeItems(source, s0, [])
        invariant ParseSpec.Measure(source, State()) <= ParseSpec.Measure(source, s0)
        decreases ParseSpec.Measure(source, State())
      {
        if Match(Current, [RightParen]) {
          closedParen := true;
          break;
        }
        if Match(Current, [LeftParen]) {
          Consume();
          var inner := ParseCompute();
          var ok := ConsumeCurrent(RightParen);
          items := items + [inner];
        } else {
          var d := ParseDatum();
          items := items + [d];
        }
      }
      if !closedParen {
        return None;
      }
      var node, count := NewListy(items);
      r := Some(node);
    }

    method ParseDatum() returns (r: Option<Expr>)
      requires Valid()
      modifies this, lexer
      ensures Valid() && Parsed(r, State()) == ParseSpec.ParseDatum(source, old(State()))
    {
      var temp := current;
      var tag := temp.tag;
      if tag == IdentifierName {
        assert DatumType(tag) == Some(UnknownType);
        Consume();
        return Some(Datum(temp, UnknownType));
      } else if tag == LiteralBooleanFalse || tag == LiteralBooleanTrue {
        assert DatumType(tag) == Some(BooleanType);
        Consume();
        return Some(Datum(temp, BooleanType));
      } else if tag == LiteralNumberExact {
        assert DatumType(tag) == Some(NumberExactType);
        Consume();
        return Some(Datum(temp, NumberExactType));
      } else if tag == LiteralNumberReal {
        assert DatumType(tag) == Some(NumberRealType);
        Consume();
        return Some(Datum(temp, NumberRealType));
      } else if tag == LiteralString {
        assert DatumType(tag) == Some(StringType);
        Consume();
        return Some(Datum(temp, StringType));
      }
      assert DatumType(tag).None?;
      RecoverParse();
      return None;
    }
  }

  /** Construct a parser over `src` and run parse_program. */
  method Parse(src: string) returns (ast: Ast)
    ensures ast == ParseSpec.ParseProgram(src)
  {
    var parser := new Parser(src);
    ast := parser.ParseProgram();
  }
}
