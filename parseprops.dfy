/** Properties of the parser specification that relate several routines or several calls. */
module ParseProperties {
  import opened Wrappers
  import opened Tokens
  import opened LexSpec
  import opened Tags
  import opened Syntax
  import opened ParseSpec

  /** The first token of `ts` that is not spacing, if any. */
  function FirstNonSpacing(ts: seq<Token>): Option<Token> {
    if ts == [] then None
    else if ts[0].tag != Spacing then Some(ts[0])
    else FirstNonSpacing(ts[1..])
  }

  /**
   * `advance` yields the first token of the lexer's stream that is not
   * spacing, or `eof` at the end of the text when only spacing is left.
   */
  lemma {:induction false} AdvanceIsFirstNonSpacing(src: string, c: Cursor)
    requires CursorIn(src, c)
    ensures Advance(src, c).token == match FirstNonSpacing(LexAll(src, c))
      case Some(t) => t
      case None => Token(Eof, |src|, 1, -1, -1)
    decreases |src| - c.pos
  {
    var l := Next(src, c);
    if l.token.tag != Eof && l.token.tag == Spacing {
      AdvanceIsFirstNonSpacing(src, l.cursor);
      assert LexAll(src, c) == [l.token] + LexAll(src, l.cursor);
      assert LexAll(src, c)[1..] == LexAll(src, l.cursor);
    }
  }

  /** `k` consumes in a row from `st`. */
  function ConsumeN(src: string, st: PState, k: nat): (r: PState)
    requires ValidState(src, st)
    ensures ValidState(src, r)
    decreases k
  {
    if k == 0 then st else ConsumeN(src, Consume(src, st), k - 1)
  }

  /** The number of tokens the recovery loop consumes before it stops. */
  function SkipCount(src: string, st: PState): nat
    requires ValidState(src, st)
    decreases Measure(src, st)
  {
    if st.current.tag == Eof || st.current.tag == RightParen then 0 else 1 + SkipCount(src, Consume(src, st))
  }

  /**
   * The recovery loop stops at the FIRST `)` or `eof`: it is a number of
   * consumes, and every token it consumed on the way was neither.
   */
  lemma {:induction false} SkipToCloseStopsAtFirst(src: string, st: PState)
    requires ValidState(src, st)
    ensures var k := SkipCount(src, st);
      && SkipToClose(src, st) == ConsumeN(src, st, k)
      && (forall j :: 0 <= j < k ==> ConsumeN(src, st, j).current.tag != RightParen && ConsumeN(src, st, j).current.tag != Eof)
    decreases Measure(src, st)
  {
    if st.current.tag != Eof && st.current.tag != RightParen {
      var s1 := Consume(src, st);
      SkipToCloseStopsAtFirst(src, s1);
      var k := SkipCount(src, st);
      forall j | 0 <= j < k
        ensures ConsumeN(src, st, j).current.tag != RightParen && ConsumeN(src, st, j).current.tag != Eof
      {
        if j > 0 {
          assert ConsumeN(src, st, j) == ConsumeN(src, s1, j - 1);
        }
      }
    }
  }

  /** The number of iterations of parse_lambda's parameter loop from `st`. */
  function ParamSteps(src: string, st: PState): nat
    requires ValidState(src, st)
    decreases Measure(src, st)
  {
    if st.current.tag == Eof || st.current.tag == RightParen then 0
    else 1 + ParamSteps(src, CheckedConsume(src, st, IdentifierName).st)
  }

  /**
   * The parameter loop records exactly one name per iteration: the text of the
   * token its checked consume has just made the previous one.
   */
  lemma {:induction false} OneNamePerParamStep(src: string, st: PState, names: seq<string>)
    requires ValidState(src, st)
    ensures |LambdaParams(src, st, names).names| == |names| + ParamSteps(src, st)
    ensures st.current.tag != Eof && st.current.tag != RightParen ==>
      var name := CheckedConsume(src, st, IdentifierName);
      LambdaParams(src, st, names) == LambdaParams(src, name.st, names + [CreateTokenInfoStr(name.st.previous, src)])
    decreases Measure(src, st)
  {
    if st.current.tag != Eof && st.current.tag != RightParen {
      var name := CheckedConsume(src, st, IdentifierName);
      OneNamePerParamStep(src, name.st, names + [CreateTokenInfoStr(name.st.previous, src)]);
    }
  }

  /** The number of `parse_top` calls that parse_program makes from `st`. */
  function TopCalls(src: string, st: PState): nat
    requires ValidState(src, st)
    decreases Measure(src, st)
  {
    if st.current.tag == Eof then 0 else 1 + TopCalls(src, ParseTop(src, st).st)
  }

  /** parse_program yields one item per `parse_top` call. */
  lemma {:induction false} OneItemPerTopCall(src: string, st: PState, tops: seq<Option<Expr>>)
    requires ValidState(src, st)
    ensures |ProgramFrom(src, st, tops).items| == |tops| + TopCalls(src, st)
    decreases Measure(src, st)
  {
    if st.current.tag != Eof {
      OneItemPerTopCall(src, ParseTop(src, st).st, tops + [ParseTop(src, st).expr]);
    }
  }

  /** The loops that collect items never drop or reorder what they collected before. */
  lemma {:induction false} ProgramFromKeepsTops(src: string, st: PState, tops: seq<Option<Expr>>)
    requires ValidState(src, st)
    ensures var r := ProgramFrom(src, st, tops); |tops| <= |r.items| && r.items[..|tops|] == tops
    decreases Measure(src, st)
  {
    if st.current.tag != Eof {
      var top := ParseTop(src, st);
      ProgramFromKeepsTops(src, top.st, tops + [top.expr]);
      var items := ProgramFrom(src, top.st, tops + [top.expr]).items;
      assert items[..|tops|] == items[..|tops| + 1][..|tops|];
    }
  }

  lemma {:induction false} LambdaParamsKeepsNames(src: string, st: PState, names: seq<string>)
    requires ValidState(src, st)
    ensures var r := LambdaParams(src, st, names); |names| <= |r.names| && r.names[..|names|] == names
    decreases Measure(src, st)
  {
    if st.current.tag != Eof && st.current.tag != RightParen {
      var name := CheckedConsume(src, st, IdentifierName);
      var more := names + [CreateTokenInfoStr(name.st.previous, src)];
      LambdaParamsKeepsNames(src, name.st, more);
      var r := LambdaParams(src, name.st, more);
      assert r.names[..|names|] == r.names[..|more|][..|names|];
    }
  }

  lemma {:induction false} DoStepsKeepsSteps(src: string, st: PState, steps: seq<Option<Expr>>)
    requires ValidState(src, st)
    ensures var r := DoSteps(src, st, steps); |steps| <= |r.items| && r.items[..|steps|] == steps
    decreases Measure(src, st)
  {
    if st.current.tag != Eof && st.current.tag != RightParen {
      var step := ParseTop(src, st);
      DoStepsKeepsSteps(src, step.st, steps + [step.expr]);
      assert DoSteps(src, st, steps) == DoSteps(src, step.st, steps + [step.expr]);
      var items := DoSteps(src, step.st, steps + [step.expr]).items;
      assert items[..|steps|] == items[..|steps| + 1][..|steps|];
    }
  }

  /**
   * parse_nestable consumes an optional `(`, dispatches on the lexeme that
   * follows, and checks `)` only when it consumed the `(`. Without it, the
   * result and the state are the sub-parse's and no token follows; with it,
   * the sub-parse's result is kept, the parser ends errored exactly when the
   * sub-parse did or stopped short of `)`, and a `)` there is consumed.
   */
  lemma NestableEncloses(src: string, st: PState)
    requires ValidState(src, st)
    ensures var r := ParseNestable(src, st);
      var enclosed := st.current.tag == LeftParen;
      var s1 := if enclosed then Consume(src, st) else st;
      var p := NestedForm(src, s1);
      && FormOfWord(CreateTokenSv(s1.current, src), r.expr)
      && (!enclosed ==> r == p)
      && (enclosed ==> r.expr == p.expr)
      && (enclosed ==> (r.st.errored <==> p.st.errored || p.st.current.tag != RightParen))
      && (enclosed && p.st.current.tag == RightParen ==> r.st == Consume(src, p.st))
  {
  }

  /** The kinds of token a datum may hold, and the basic type each gets. */
  lemma DatumTypeByKind(tag: TokenTag)
    ensures DatumType(tag).Some? <==> tag in {IdentifierName, LiteralBooleanFalse, LiteralBooleanTrue, LiteralNumberExact, LiteralNumberReal, LiteralString}
    ensures tag == IdentifierName <==> DatumType(tag) == Some(UnknownType)
    ensures tag in {LiteralBooleanFalse, LiteralBooleanTrue} <==> DatumType(tag) == Some(BooleanType)
    ensures tag == LiteralNumberExact <==> DatumType(tag) == Some(NumberExactType)
    ensures tag == LiteralNumberReal <==> DatumType(tag) == Some(NumberRealType)
    ensures tag == LiteralString <==> DatumType(tag) == Some(StringType)
  {
  }

  /**
   * parse_datum consumes exactly the one datum token and wraps it unchanged;
   * on any other token it recovers to the next `)` and yields null.
   */
  lemma DatumConsumesOneToken(src: string, st: PState)
    requires ValidState(src, st)
    ensures var r := ParseDatum(src, st);
      && (r.expr.Some? <==> DatumType(st.current.tag).Some?)
      && (r.expr.Some? ==> r.expr.value.token == st.current && r.st.previous == st.current
                            && r.st.cursor == Advance(src, st.cursor).cursor)
      && (r.expr.None? ==> r.st == Recover(src, st))
  {
  }

  /**
   * When the name after `define` is an identifier, the definition binds that
   * identifier's text; otherwise the parser is errored afterwards.
   */
  lemma VariableBindsName(src: string, st: PState)
    requires ValidState(src, st) && st.current.tag != Eof
    ensures var s1 := Consume(src, st); var r := ParseVariable(src, st);
      && (s1.current.tag == IdentifierName ==> r.expr.value.name == CreateTokenSv(s1.current, src))
      && (s1.current.tag != IdentifierName ==> r.st.errored)
  {
  }

  /** A valued expression that starts at `)` is the empty list, and one that starts at `eof` is null; neither moves. */
  lemma ComputeAtBoundary(src: string, st: PState)
    requires ValidState(src, st) && (st.current.tag == RightParen || st.current.tag == Eof)
    ensures ParseCompute(src, st) == Parsed(if st.current.tag == RightParen then Some(Listy([])) else None, st)
  {
  }

  /** The result a case gets: it starts where the test stopped, at `)` or at `eof`. */
  predicate ResultIsEmpty(c: Case) {
    c.result == if c.test.Some? then Some(Listy([])) else None
  }

  lemma CondCaseResultIsEmpty(src: string, st: PState)
    requires ValidState(src, st)
    ensures ResultIsEmpty(CondCase(src, st).item)
  {
    var open := CheckedConsume(src, st, LeftParen);
    var test := ParseCompute(src, open.st);
    ComputeAtBoundary(src, test.st);
  }

  predicate ResultsAreEmpty(cases: seq<Case>) {
    forall i :: 0 <= i < |cases| ==> ResultIsEmpty(cases[i])
  }

  lemma {:induction false} CondCasesResultsAreEmpty(src: string, st: PState, cases: seq<Case>)
    requires ValidState(src, st) && ResultsAreEmpty(cases)
    ensures ResultsAreEmpty(CondCases(src, st, cases).cases)
    decreases Measure(src, st)
  {
    if st.current.tag != Eof && st.current.tag != RightParen {
      var c := CondCase(src, st);
      CondCaseResultIsEmpty(src, st);
      assert ResultsAreEmpty(cases + [c.item]) by {
        forall i | 0 <= i < |cases + [c.item]| ensures ResultIsEmpty((cases + [c.item])[i]) {
          if i < |cases| {
            assert (cases + [c.item])[i] == cases[i];
          }
        }
      }
      CondCasesResultsAreEmpty(src, c.st, cases + [c.item]);
      assert CondCases(src, st, cases) == CondCases(src, c.st, cases + [c.item]);
    }
  }

  /**
   * With the loop guard corrected, every case of a `cond` has an empty list
   * (or null) as its result: the test's valued expression runs up to the
   * case's `)`, so the result's valued expression starts there.
   */
  lemma CondResultsAreEmpty(src: string, st: PState)
    requires ValidState(src, st) && st.current.tag != Eof
    ensures var r := ParseCond(src, st); r.expr.Some? ==> ResultsAreEmpty(r.expr.value.cases)
  {
    var s1 := Consume(src, st);
    CondCasesResultsAreEmpty(src, s1, []);
    var l := CondCases(src, s1, []);
    assert ParseCond(src, st) == if !l.closed then Parsed(None, l.st) else Parsed(Some(Cond(l.cases)), l.st);
  }

  /**
   * `(cond)`: as written the loop is skipped and the form is null; with the
   * corrected guard it is a `cond` without cases. Both stop at the `)`.
   */
  lemma CondAsWrittenDiffers(src: string, st: PState)
    requires ValidState(src, st) && st.current.tag != Eof
    requires Consume(src, st).current.tag == RightParen
    ensures ParseCondAsWritten(src, st) == Some(Parsed(None, Consume(src, st)))
    ensures ParseCond(src, st) == Parsed(Some(Cond([])), Consume(src, st))
  {
  }

  /**
   * When the text ends right after `cond`, the as-written loop runs at `eof`:
   * one pass of its body leaves the cursor where it was and the current token
   * `eof`, so its guard holds again and the call never returns. The corrected
   * loop yields null there.
   */
  lemma CondAsWrittenSpinsAtEof(src: string, st: PState)
    requires ValidState(src, st) && st.current.tag != Eof
    requires Consume(src, st).current.tag == Eof
    ensures ParseCondAsWritten(src, st).None?
    ensures var s1 := Consume(src, st); var s2 := CondCase(src, s1).st;
      s2.current.tag == Eof && s2.cursor == s1.cursor && CondCase(src, s2).st.cursor == s1.cursor
    ensures ParseCond(src, st).expr.None?
  {
    var s1 := Consume(src, st);
    var open := CheckedConsume(src, s1, LeftParen);
    assert open.st.cursor == s1.cursor && open.st.current.tag == Eof;
    var test := ParseCompute(src, open.st);
    ComputeAtBoundary(src, open.st);
    var result := ParseCompute(src, test.st);
    ComputeAtBoundary(src, test.st);
    var close := CheckedConsume(src, result.st, RightParen);
    assert close.st.cursor == s1.cursor && close.st.current.tag == Eof;
    var s2 := CondCase(src, s1).st;
    assert s2 == close.st;
    var open2 := CheckedConsume(src, s2, LeftParen);
    assert open2.st.cursor == s1.cursor && open2.st.current.tag == Eof;
    ComputeAtBoundary(src, open2.st);
    var close2 := CheckedConsume(src, ParseCompute(src, ParseCompute(src, open2.st).st).st, RightParen);
    assert close2.st.cursor == s1.cursor;
  }
}
