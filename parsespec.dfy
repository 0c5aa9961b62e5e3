/**
 * A pure specification of the recursive-descent parser (parser.cpp). The
 * parser's state is the lexer's cursor, the previous and current tokens and
 * the `errored` flag; every parse routine maps a state to the expression it
 * builds (`None` for a null `ExprPtr`) and the state it leaves behind. The
 * loops of the source become accumulator recursions with the same exits.
 *
 * Termination: `Measure` is the text left to the lexer plus one while the
 * current token is not `eof`. Consuming a token that is not `eof` lowers it,
 * and every loop iteration and every recursive call is preceded by such a
 * consume or by a recovery; the second component of each `decreases` clause
 * orders the routines that call each other without consuming first.
 */
module ParseSpec {
  import opened Wrappers
  import opened Tokens
  import opened LexSpec
  import opened Tags
  import opened Syntax

  datatype PState = PState(cursor: Cursor, previous: Token, current: Token, errored: bool)

  /** The expression a routine built (`None` for null) and the state after it. */
  datatype Parsed = Parsed(expr: Option<Expr>, st: PState)

  /**
   * What every reachable state satisfies: the cursor lies in the text, both
   * tokens can be sliced, spacing never becomes the current token, and an
   * `eof` current token is the one the lexer yields at the end of the text.
   */
  predicate ValidState(src: string, st: PState) {
    && CursorIn(src, st.cursor)
    && SliceableIn(st.previous, src) && SliceableIn(st.current, src)
    && st.current.tag != Spacing
    && (st.current.tag == Eof ==> st.cursor.pos == |src| && st.current == EofToken(st.cursor))
  }

  function Measure(src: string, st: PState): nat
    requires CursorIn(src, st.cursor)
  {
    (|src| - st.cursor.pos) + (if st.current.tag != Eof then 1 else 0)
  }

  /** `r` is a state a routine may leave from `st`: valid, no further from the end, and still errored if `st` was. */
  predicate Settles(src: string, st: PState, r: PState)
    requires ValidState(src, st)
  {
    ValidState(src, r) && Measure(src, r) <= Measure(src, st) && (st.errored ==> r.errored)
  }

  /** ... and strictly nearer to the end. */
  predicate Advances(src: string, st: PState, r: PState)
    requires ValidState(src, st)
  {
    Settles(src, st, r) && Measure(src, r) < Measure(src, st)
  }

  /** advance: pull tokens from the lexer until one is not spacing. */
  function Advance(src: string, c: Cursor): (r: Lexed)
    requires CursorIn(src, c)
    ensures CursorIn(src, r.cursor) && SliceableIn(r.token, src)
    ensures r.token.tag != Spacing
    ensures c.pos <= r.cursor.pos
    ensures r.token.tag != Eof ==> c.pos < r.cursor.pos
    ensures r.token.tag == Eof ==> r.cursor.pos == |src| && r.token == EofToken(r.cursor)
    ensures c.pos == |src| ==> r == Lexed(EofToken(c), c)
    decreases |src| - c.pos
  {
    var l := Next(src, c);
    if l.token.tag == Spacing then Advance(src, l.cursor) else l
  }

  /** consume: the current token becomes the previous one, and the next non-spacing token the current one. */
  function Consume(src: string, st: PState): (r: PState)
    requires ValidState(src, st)
    ensures Settles(src, st, r) && r.errored == st.errored
    ensures r.previous == st.current && r.current == Advance(src, st.cursor).token
    ensures st.current.tag != Eof ==> Measure(src, r) < Measure(src, st)
    ensures st.current.tag == Eof ==> r == st.(previous := st.current)
  {
    var l := Advance(src, st.cursor);
    PState(l.cursor, st.current, l.token, st.errored)
  }

  /** The loop of recover_parse: consume until the current token is `)` or `eof`. */
  function SkipToClose(src: string, st: PState): (r: PState)
    requires ValidState(src, st)
    ensures Settles(src, st, r) && r.errored == st.errored
    ensures r.current.tag == Eof || r.current.tag == RightParen
    ensures r == st || Measure(src, r) < Measure(src, st)
    decreases Measure(src, st)
  {
    if st.current.tag == Eof || st.current.tag == RightParen then st
    else SkipToClose(src, Consume(src, st))
  }

  /** recover_parse: skip to the next `)` and consume it; at `eof` the final consume moves nothing. */
  function Recover(src: string, st: PState): (r: PState)
    requires ValidState(src, st)
    ensures Settles(src, st, r) && r.errored == st.errored
    ensures r.previous.tag == RightParen || (r.previous.tag == Eof && r.current.tag == Eof)
    ensures st.current.tag != Eof ==> Measure(src, r) < Measure(src, st)
  {
    Consume(src, SkipToClose(src, st))
  }

  datatype Checked = Checked(ok: bool, st: PState)

  /**
   * The checked `consume<current>(tag)`, which no file of the repository
   * defines: when the current token has the tag it is consumed; otherwise the
   * parser recovers, becomes errored, and reports failure.
   */
  function CheckedConsume(src: string, st: PState, tag: TokenTag): (r: Checked)
    requires ValidState(src, st)
    ensures Settles(src, st, r.st)
    ensures r.ok <==> st.current.tag == tag
    ensures r.st.errored == (st.errored || !r.ok)
    ensures r.ok ==> r.st == Consume(src, st)
    ensures st.current.tag != Eof ==> Measure(src, r.st) < Measure(src, st)
  {
    if st.current.tag == tag then Checked(true, Consume(src, st))
    else Checked(false, Recover(src, st).(errored := true))
  }

  /** Top-level and `do`-step forms: `(` then a definition, a lambda, or a valued expression, then `)`. */
  function ParseTop(src: string, st: PState): (r: Parsed)
    requires ValidState(src, st)
    ensures Settles(src, st, r.st)
    ensures st.current.tag != Eof ==> Measure(src, r.st) < Measure(src, st)
    ensures st.current.tag != LeftParen ==> r.expr.None? && r.st.errored
    ensures r.expr.None? ==> r.st.errored
    decreases Measure(src, st), 1
  {
    if st.current.tag != LeftParen then
      Parsed(None, CheckedConsume(src, st, LeftParen).st)
    else
      var s1 := Consume(src, st);
      var lexeme := CreateTokenSv(s1.current, src);
      var p :=
        if lexeme == "define" || lexeme == "let!" then ParseVariable(src, s1)
        else if lexeme == "lambda" then ParseLambda(src, s1)
        else ParseCompute(src, s1);
      Parsed(p.expr, CheckedConsume(src, p.st, RightParen).st)
  }

  /** `define`/`let!`, a name, and a nestable initializer. */
  function ParseVariable(src: string, st: PState): (r: Parsed)
    requires ValidState(src, st) && st.current.tag != Eof
    ensures Advances(src, st, r.st)
    ensures r.expr.Some? && r.expr.value.VariableDefine?
    decreases Measure(src, st), 6
  {
    var s1 := Consume(src, st);
    var name := CheckedConsume(src, s1, IdentifierName);
    var init := ParseNestable(src, name.st);
    Parsed(Some(VariableDefine(CreateTokenInfoStr(name.st.previous, src), init.expr)), init.st)
  }

  datatype ParamList = ParamList(names: seq<string>, closed: bool, st: PState)

  /** The parameter loop of parse_lambda: one name per step, until `)` (consumed) or `eof`. */
  function LambdaParams(src: string, st: PState, names: seq<string>): (r: ParamList)
    requires ValidState(src, st)
    ensures Settles(src, st, r.st)
    ensures r.closed ==> r.st.previous.tag == RightParen
    ensures !r.closed ==> r.st.current.tag == Eof
    decreases Measure(src, st)
  {
    if st.current.tag == Eof then ParamList(names, false, st)
    else if st.current.tag == RightParen then ParamList(names, true, Consume(src, st))
    else
      var name := CheckedConsume(src, st, IdentifierName);
      LambdaParams(src, name.st, names + [CreateTokenInfoStr(name.st.previous, src)])
  }

  /** `lambda`, a parenthesised parameter list, and a nestable body; null if the parameters never close. */
  function ParseLambda(src: string, st: PState): (r: Parsed)
    requires ValidState(src, st) && st.current.tag != Eof
    ensures Advances(src, st, r.st)
    ensures r.expr.Some? ==> r.expr.value.LambdaDefine?
    ensures r.expr.None? ==> r.st.current.tag == Eof
    decreases Measure(src, st), 3
  {
    var s1 := Consume(src, st);
    var open := CheckedConsume(src, s1, LeftParen);
    var ps := LambdaParams(src, open.st, []);
    if !ps.closed then Parsed(None, ps.st)
    else
      var body := ParseNestable(src, ps.st);
      Parsed(Some(LambdaDefine(ps.names, body.expr)), body.st)
  }

  /**
   * The kind of form each dispatch word of parse_nestable leads to: a lambda
   * after `lambda`, a list after `do`, a `cond` after `cond`, and a list (a
   * valued expression) after anything else; null is always possible.
   */
  predicate FormOfWord(word: string, e: Option<Expr>) {
    e.None? ||
    if word == "lambda" then e.value.LambdaDefine?
    else if word == "do" then e.value.Listy?
    else if word == "cond" then e.value.Cond?
    else e.value.Listy?
  }

  /** The dispatch of parse_nestable on the current lexeme, once an optional `(` has been consumed. */
  function NestedForm(src: string, st: PState): (r: Parsed)
    requires ValidState(src, st)
    ensures Settles(src, st, r.st)
    ensures FormOfWord(CreateTokenSv(st.current, src), r.expr)
    decreases Measure(src, st), 4
  {
    var lexeme := CreateTokenSv(st.current, src);
    if lexeme == "lambda" then ParseLambda(src, st)
    else if lexeme == "do" then ParseDo(src, st)
    else if lexeme == "cond" then ParseCond(src, st)
    else ParseCompute(src, st)
  }

  /** An optionally parenthesised lambda, `do`, `cond` or valued expression; `)` is checked only after a `(`. */
  function ParseNestable(src: string, st: PState): (r: Parsed)
    requires ValidState(src, st)
    ensures Settles(src, st, r.st)
    decreases Measure(src, st), 5
  {
    var enclosed := st.current.tag == LeftParen;
    var s1 := if enclosed then Consume(src, st) else st;
    var p := NestedForm(src, s1);
    if enclosed then Parsed(p.expr, CheckedConsume(src, p.st, RightParen).st) else p
  }

  datatype ExprList = ExprList(items: seq<Option<Expr>>, closed: bool, st: PState)

  /** The step loop of parse_do: top-level forms until `)` (left for the caller) or `eof`. */
  function DoSteps(src: string, st: PState, steps: seq<Option<Expr>>): (r: ExprList)
    requires ValidState(src, st)
    ensures Settles(src, st, r.st)
    ensures r.closed <==> r.st.current.tag == RightParen
    ensures !r.closed ==> r.st.current.tag == Eof
    decreases Measure(src, st), 2
  {
    if st.current.tag == Eof then ExprList(steps, false, st)
    else if st.current.tag == RightParen then ExprList(steps, true, st)
    else
      var step := ParseTop(src, st);
      DoSteps(src, step.st, steps + [step.expr])
  }

  /** `do` and its steps, as a list; null if `eof` comes before `)`. */
  function ParseDo(src: string, st: PState): (r: Parsed)
    requires ValidState(src, st) && st.current.tag != Eof
    ensures Advances(src, st, r.st)
    ensures r.expr.Some? <==> r.st.current.tag == RightParen
    ensures r.expr.Some? ==> r.expr.value.Listy?
    decreases Measure(src, st), 3
  {
    var s1 := Consume(src, st);
    var steps := DoSteps(src, s1, []);
    if !steps.closed then Parsed(None, steps.st) else Parsed(Some(Listy(steps.items)), steps.st)
  }

  datatype CaseParsed = CaseParsed(item: Case, st: PState)

  /**
   * One case of `cond`: `(`, a valued expression as the test, another as the
   * result, `)`. At `eof` no token is consumed and the two valued expressions
   * return at once, which the second `decreases` component accounts for.
   */
  function CondCase(src: string, st: PState): (r: CaseParsed)
    requires ValidState(src, st)
    ensures Settles(src, st, r.st)
    ensures st.current.tag != Eof ==> Measure(src, r.st) < Measure(src, st)
    decreases Measure(src, st), if st.current.tag == Eof then 4 else 1
  {
    var open := CheckedConsume(src, st, LeftParen);
    var test := ParseCompute(src, open.st);
    var result := ParseCompute(src, test.st);
    var close := CheckedConsume(src, result.st, RightParen);
    CaseParsed(Case(test.expr, result.expr), close.st)
  }

  datatype CaseList = CaseList(cases: seq<Case>, closed: bool, st: PState)

  /** The case loop of parse_cond, with the guard `not atEOF()`: cases until `)` (left for the caller) or `eof`. */
  function CondCases(src: string, st: PState, cases: seq<Case>): (r: CaseList)
    requires ValidState(src, st)
    ensures Settles(src, st, r.st)
    ensures r.closed <==> r.st.current.tag == RightParen
    ensures !r.closed ==> r.st.current.tag == Eof
    decreases Measure(src, st), 2
  {
    if st.current.tag == Eof then CaseList(cases, false, st)
    else if st.current.tag == RightParen then CaseList(cases, true, st)
    else
      var c := CondCase(src, st);
      CondCases(src, c.st, cases + [c.item])
  }

  /** `cond` and its cases, with the loop guard corrected; null if `eof` comes before `)`. */
  function ParseCond(src: string, st: PState): (r: Parsed)
    requires ValidState(src, st) && st.current.tag != Eof
    ensures Advances(src, st, r.st)
    ensures r.expr.Some? <==> r.st.current.tag == RightParen
    ensures r.expr.Some? ==> r.expr.value.Cond?
    decreases Measure(src, st), 3
  {
    var s1 := Consume(src, st);
    var cases := CondCases(src, s1, []);
    if !cases.closed then Parsed(None, cases.st) else Parsed(Some(Cond(cases.cases)), cases.st)
  }

  /**
   * parse_cond as written, whose loop runs only while the current token IS
   * `eof`: `None` stands for a call that never returns. Unless the text ends
   * right after `cond`, the loop is skipped and the result is null.
   */
  function ParseCondAsWritten(src: string, st: PState): (r: Option<Parsed>)
    requires ValidState(src, st) && st.current.tag != Eof
    ensures r.Some? <==> Consume(src, st).current.tag != Eof
    ensures r.Some? ==> r.value == Parsed(None, Consume(src, st))
  {
    var s1 := Consume(src, st);
    if s1.current.tag != Eof then Some(Parsed(None, s1)) else None
  }

  /** The item loop of parse_compute: nested `( … )` groups and data, until `)` (left for the caller) or `eof`. */
  function ComputeItems(src: string, st: PState, items: seq<Option<Expr>>): (r: ExprList)
    requires ValidState(src, st)
    ensures Settles(src, st, r.st)
    ensures r.closed <==> r.st.current.tag == RightParen
    ensures !r.closed ==> r.st.current.tag == Eof
    decreases Measure(src, st), 2
  {
    if st.current.tag == Eof then ExprList(items, false, st)
    else if st.current.tag == RightParen then ExprList(items, true, st)
    else if st.current.tag == LeftParen then
      var inner := ParseCompute(src, Consume(src, st));
      var close := CheckedConsume(src, inner.st, RightParen);
      ComputeItems(src, close.st, items + [inner.expr])
    else
      var d := ParseDatum(src, st);
      ComputeItems(src, d.st, items + [d.expr])
  }

  /** A valued expression: a list that stops before `)`; null at `eof`. */
  function ParseCompute(src: string, st: PState): (r: Parsed)
    requires ValidState(src, st)
    ensures Settles(src, st, r.st)
    ensures r.expr.Some? <==> r.st.current.tag == RightParen
    ensures r.expr.None? <==> r.st.current.tag == Eof
    ensures r.expr.Some? ==> r.expr.value.Listy?
    decreases Measure(src, st), 3
  {
    var items := ComputeItems(src, st, []);
    if !items.closed then Parsed(None, items.st) else Parsed(Some(Listy(items.items)), items.st)
  }

  /** The basic type a datum of this token kind carries, if the kind may be a datum. */
  function DatumType(tag: TokenTag): (r: Option<BasicTypeTag>)
    ensures r.Some? ==> r.value != NullType && r.value != ListyType && r.value != CallableType
  {
    match tag
    case IdentifierName => Some(UnknownType)
    case LiteralBooleanFalse => Some(BooleanType)
    case LiteralBooleanTrue => Some(BooleanType)
    case LiteralNumberExact => Some(NumberExactType)
    case LiteralNumberReal => Some(NumberRealType)
    case LiteralString => Some(StringType)
    case _ => None
  }

  /**
   * A datum: the current token, consumed, tagged with its basic type. Any
   * other token is reported and recovered from; the report does not set
   * `errored`.
   */
  function ParseDatum(src: string, st: PState): (r: Parsed)
    requires ValidState(src, st)
    ensures Settles(src, st, r.st) && r.st.errored == st.errored
    ensures st.current.tag != Eof ==> Measure(src, r.st) < Measure(src, st)
  {
    match DatumType(st.current.tag)
    case Some(t) => Parsed(Some(Datum(st.current, t)), Consume(src, st))
    case None => Parsed(None, Recover(src, st))
  }

  /** The result of parse_program: the top-level forms and whether no error was recorded. */
  datatype Ast = Ast(items: seq<Option<Expr>>, ok: bool)

  /** The loop of parse_program: top-level forms until `eof`. */
  function ProgramFrom(src: string, st: PState, tops: seq<Option<Expr>>): (r: Ast)
    requires ValidState(src, st)
    ensures r.ok ==> !st.errored
    ensures r.ok && (forall i :: 0 <= i < |tops| ==> tops[i].Some?) ==> forall i :: 0 <= i < |r.items| ==> r.items[i].Some?
    decreases Measure(src, st)
  {
    if st.current.tag == Eof then Ast(tops, !st.errored)
    else
      var top := ParseTop(src, st);
      ProgramFrom(src, top.st, tops + [top.expr])
  }

  /** The token value-initialised in the constructor before the first consume: `unknown` at offset 0. */
  const Blank: Token := Token(Unknown, 0, 0, 0, 0)

  /** The state after construction: one consume from the blank tokens at the start of the text. */
  function InitialState(src: string): (st: PState)
    ensures ValidState(src, st) && !st.errored
    ensures st.previous == Blank && st.current == Advance(src, Start).token
  {
    Consume(src, PState(Start, Blank, Blank, false))
  }

  /**
   * parse_program from a new parser. A parse that reports success has no
   * null top-level form: every way a top form can come out null (no `(`, or a
   * lambda or valued expression cut off by `eof`) makes one of its checked
   * consumes fail, and `errored` is never reset.
   */
  function ParseProgram(src: string): (r: Ast)
    ensures r.ok ==> forall i :: 0 <= i < |r.items| ==> r.items[i].Some?
  {
    ProgramFrom(src, InitialState(src), [])
  }
}
