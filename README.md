# Derk-Scheme front end, modelled in Dafny

This project models the front end of Derk-Scheme, a small Scheme-like
interpreter written in C++. Four parts are modelled:

- **The lexer.** It is a pull-based cursor over the source text. One call of
  `next()` yields one token and dispatches on the first character. A token is a
  span (begin, length) into the text, and its characters are recovered by
  `substr`.
- **The recursive-descent parser.** It keeps one token of lookahead and the
  last consumed token. It filters out spacing tokens, recovers from errors by
  skipping to the next `)` and consuming it, and leaves a null placeholder for
  every form it could not complete. Recovery does not keep an error to its own
  form. The `)` it consumes can be the one that closes the malformed form, and
  the well-formed forms that follow are then parsed as items of the malformed
  one (`Samples.RecoverySwallowsLaterForms`). A variable definition without an
  initializer, `(define x )`, is accepted with the empty list as its
  initializer (`Samples.MissingInitializerAccepted`).
- **The syntax tree's queries.** These are `size`, `basic_type`, `listy_tag`
  and the visitor dispatch.
- **The runtime values and the scope chain.** Each value kind has a type tag,
  a truthiness and a constancy. Lookup walks the chain of parent scopes, and
  update writes only the local scope.

The project has two layers.

- **Pure specifications.** `LexSpec` and `ParseSpec` are datatypes and
  functions. The lexer is a function from a cursor to a token and the next
  cursor. Each parse routine is a function from a parser state to the
  expression it builds and the state it leaves.
- **Imperative models.** `Lexing.Lexer` and `Parsing.Parser` are classes whose
  fields and while-loops follow lexer.cpp and parser.cpp. Every method is
  proved to return what its specification function returns, and to leave the
  object in the state that function describes.

The properties from the source are proved as lemmas about the specification
functions: maximal runs, keyword classification, the shape of each parse
result, error propagation and the lookup chain.

Files, one module each:

| file | module | what it holds |
|---|---|---|
| wrappers.dfy | `Wrappers` | `Option` (a nullable pointer) and `Result` (a thrown failure) |
| lexical.dfy | `LexicalMatchers` | the character classes |
| tokens.dfy | `Tokens` | token kinds, tokens, slicing |
| tags.dfy | `Tags` | basic type tags and list tags |
| lexspec.dfy | `LexSpec` | the lexer as functions, and its properties |
| lexer.dfy | `Lexing` | the `Lexer` class |
| ast.dfy | `Syntax` | the syntax tree and its queries |
| parsespec.dfy | `ParseSpec` | the parser as functions |
| parseprops.dfy | `ParseProperties` | properties relating several parse routines or calls |
| parser.dfy | `Parsing` | the `Parser` class |
| values.dfy | `Values` | runtime values, and the classes with setters |
| environment.dfy | `Environments` | the scope chain |
| samples.dfy | `Samples` | the programs of the two test drivers |

Two results concern the sample programs of the repository's tests.

- **The lexer test.** Its program lexes to `eof` without an `unknown` token
  (`Samples.LexerSampleHasNoUnknown`).
- **The parser test.** Its program does not parse successfully
  (`Samples.ParserSampleFails`). The first two definitions parse cleanly.
  The third is `(define (my-average a b) …)`, which uses the
  function-definition shorthand. `parse_variable` demands an identifier after
  `define`, so it reaches the failing checked consume, and nothing clears
  `m_errored` afterwards.

One further observation concerns `let!`. The lexer never yields a word token
with the text `let!`, because `!` is not a word character
(`LexSpec.NoTokenReadsLetBang`). `parse_top`, however, compares only the
current token's text and not its kind. So the string literal `"let!"`, whose
token begins after the opening quote, is the one token that takes the
variable-definition branch.

## Model

| member | source | states |
|---|---|---|
| LexicalMatchers.MatchersAreTheirClasses | includes/frontend/lexer.hpp:19-37 | match_spacing accepts exactly space, tab, LF and CR; match_op_symbol exactly `+ - * / %`; match_value_mark exactly `#` and `"`; match_digit exactly 0-9; match_alphabetic exactly A-Z, a-z and `_` |
| LexicalMatchers.ClassesDisjoint | includes/frontend/lexer.hpp:19-37 | the spacing, alphabetic, digit and operator classes are pairwise disjoint, and none of them holds a value mark or a bracket, so the dispatch of `next` on the first character is unambiguous |
| Tokens.SliceLength | src/frontend/token.cpp:5-7 | `substr` takes exactly the length when the token fits in the text, and otherwise (a length past the end, or a negative `int` that becomes a huge `size_t`) everything that remains after begin |
| Tokens.CreateTokenSv | src/frontend/token.cpp:5-7 | the view has the clamped length, and its i-th character is the source character at begin + i; slicing requires begin <= the text's size, as `substr` would otherwise throw |
| Tokens.StringifySv | src/frontend/token.cpp:9-11 | formatting a view with "{}" yields the same characters |
| Tokens.CreateTokenInfoStr | src/frontend/token.cpp:13-15 | the owned string has the same characters as the token's view |
| Tokens.EofSlicesToEmpty | src/frontend/lexer.cpp:40-46 | the `eof` token at the end of the text (length 1) slices to the empty string |
| Tokens.SliceOfInnerToken | src/frontend/token.cpp:5-7 | a token that lies wholly inside the text slices to exactly [begin, begin + length) |
| LexSpec.WalkLocation | src/frontend/lexer.cpp:29-36 | walking the cursor over a stretch adds one line per line feed in it; over a stretch without line feeds the line stays and the column grows by the stretch's length |
| LexSpec.RunLength | src/frontend/lexer.cpp:101-112 | the run a scan loop consumes never runs past the end of the text |
| LexSpec.RunLengthIsMaximal | src/frontend/lexer.cpp:101-112 | every character of the run is of the class, and the character after it is not (or the text ends) |
| LexSpec.RunLengthExact | src/frontend/lexer.cpp:101-112 | any length with that maximality property is the run length |
| LexSpec.KeywordsAreTheSpecialForms | src/frontend/lexer.cpp:6-23 | the constructor's loop over the entry table collects exactly {if, cond, case, define, let!, do, lambda} |
| LexSpec.ScanBooleanAsWritten | src/frontend/lexer.cpp:162-199 | as written, the boolean scan always moves the position two past the `#`, even when the `#` is the last character |
| LexSpec.ScanStringAsWritten | src/frontend/lexer.cpp:247-278 | as written, the string scan's tag is `unknown` whatever the text |
| LexSpec.Next | src/frontend/lexer.cpp:38-77 | `next` yields `eof` exactly at the end of the text, and then leaves the cursor where it was; any other token moves the position forward; the cursor never leaves the text and every token can be sliced |
| LexSpec.EofIsSticky | src/frontend/lexer.cpp:25-47 | at the end `next` yields `eof` (begin = position, length 1, line = column = -1) without moving, so every later call yields the same |
| LexSpec.SingleCharacterTokens | src/frontend/lexer.cpp:49-93 | `(`, `)`, `[`, `]` give one-character tokens of their own kind, and an unrecognised character a one-character `unknown`, at the cursor and one character long |
| LexSpec.NextDispatch | src/frontend/lexer.cpp:49-74 | the brackets, the quote and `#` are checked first; then spacing, then alphabetic or operator characters (a word), then digits (a number) |
| LexSpec.RunStartedBy | src/frontend/lexer.cpp:68-74 | the run class that the dispatch picks contains the first character |
| LexSpec.RunTokensAreMaximal | src/frontend/lexer.cpp:95-245 | spacing, word and number tokens begin at the cursor, hold at least one character, span the maximal run of their class, and move the position by exactly their length |
| LexSpec.WordClassification | src/frontend/lexer.cpp:141-159 | a word is `special_name` exactly when its text is in the keyword set, and `identifier_name` exactly when it is not |
| LexSpec.NoTokenReadsLetBang | src/frontend/lexer.cpp:129-143 | `!` is not a word character, so no `special_name` token has the text `let!` |
| LexSpec.NumberClassification | src/frontend/lexer.cpp:201-245 | a number with no dot is exact, with one dot real, and with two or more `unknown` (each an if-and-only-if) |
| LexSpec.BooleanScan | src/frontend/lexer.cpp:162-199 | the boolean token begins after the `#` and reports length 2; it is true exactly for `t`, false exactly for `f` and `unknown` otherwise; the position moves by two, or stops at the end when the `#` was last |
| LexSpec.StringScan | src/frontend/lexer.cpp:247-278 | the string token begins after the opening quote and holds no quote; it is `literal_string` exactly when a closing quote follows, which the cursor skips; otherwise it runs to the end and is `unknown` |
| LexSpec.ClosedStringIsUnknownAsWritten | src/frontend/lexer.cpp:255-272 | on the closed string `"a"` the as-written scan reports `unknown`, while the scan with `closed` set reports `literal_string` |
| LexSpec.TrailingHashOverrunsAsWritten | src/frontend/lexer.cpp:162-190 | on the text `#` the as-written scan moves the position to 2, past the end, so the next `eof` token cannot be sliced; the corrected scan stops at 1 |
| Lexing.Lexer.constructor | src/frontend/lexer.cpp:16-23 | a new lexer is at position 0, line 1, column 1, and its special-form set, built by the loop over the entry table, is the keyword set |
| Lexing.Lexer.UpdateSourceLocation | src/frontend/lexer.cpp:29-36 | a line feed adds one line and resets the column to 1; any other character adds one column |
| Lexing.Lexer.Next | src/frontend/lexer.cpp:38-77 | returns the token `LexSpec.Next` gives and leaves the lexer at the cursor that function gives |
| Lexing.Lexer.LexSingle | src/frontend/lexer.cpp:79-93 | the one-character token: its column is taken before the step and its line after it |
| Lexing.Lexer.LexSpacing | src/frontend/lexer.cpp:95-121 | the loop consumes exactly the maximal spacing run; the result equals `ScanSpacing` |
| Lexing.Lexer.LexWord | src/frontend/lexer.cpp:123-160 | the loop consumes exactly the maximal word run, and the lexeme's membership in the special forms picks the tag; the result equals `ScanWord` |
| Lexing.Lexer.LexBoolean | src/frontend/lexer.cpp:162-199 | the corrected boolean scan; the result equals `ScanBoolean` |
| Lexing.Lexer.LexNumber | src/frontend/lexer.cpp:201-245 | the loop consumes the maximal run of digits and dots and counts the dots; the result equals `ScanNumber` |
| Lexing.Lexer.LexString | src/frontend/lexer.cpp:247-278 | the string scan with `closed` set when the closing quote is consumed; the result equals `ScanString` |
| Syntax.CountElements | src/syntax/exprs.cpp:38-43 | the iterator loop of the `Listy` and `Cond` constructors counts exactly the container's elements |
| Syntax.NewListy | src/syntax/exprs.cpp:38-59 | a `Listy` holds its items, and its stored count, which `size()` reports, is the number of items |
| Syntax.NewCond | src/syntax/exprs.cpp:149-170 | a `Cond` holds its cases, and its stored count, which `size()` reports, is the number of cases |
| Syntax.Size | src/syntax/exprs.cpp:22-170 | `size()` is 1 for a datum, a definition and a lambda, the number of items of a list and the number of cases of a `cond`; only a list or a `cond` can have size 0 |
| Syntax.Definiens | src/syntax/exprs.cpp:91-93 | following initializers from a definition ends at an expression that is not a definition |
| Syntax.BasicType | src/syntax/exprs.cpp:14-162 | a definition's `basic_type` is that of what it finally binds (it dereferences a non-null initializer); a datum reports its stored tag, a list `listy`, a lambda `callable`, a `cond` `unknown` |
| Syntax.AcceptVisitor | src/syntax/exprs.cpp:30-178 | each node calls exactly the visit method of its own variant (each an if-and-only-if) |
| Syntax.ListyTag | src/syntax/exprs.cpp:18-166 | `listy_tag()` identifies the node kind: `expr_datum`, `expr_multiple`, `def_variable`, `def_lambda` and `block_do` each exactly for its own kind |
| Syntax.ListyTagDeterminesVisitor | src/syntax/exprs.cpp:18-166 | two nodes have the same `listy_tag` exactly when they call the same visit method, and `block_do` is reported exactly by a `cond` |
| ParseSpec.Advance | src/frontend/parser.cpp:37-52 | `advance` never returns `spacing`; it returns `eof` only at the end of the text; any other token moves the cursor forward |
| ParseSpec.Consume | src/frontend/parser.cpp:62-65 | the old current token becomes the previous one, and the next non-spacing token the current one; `errored` is unchanged; consuming `eof` moves nothing |
| ParseSpec.SkipToClose | src/frontend/parser.cpp:55-57 | the recovery loop stops at a `)` or `eof`, moves only forward and leaves `errored` unchanged |
| ParseProperties.SkipToCloseStopsAtFirst | src/frontend/parser.cpp:55-57 | the recovery loop is `SkipCount` consumes in a row, and none of the tokens it consumed was a `)` or `eof`, so it stops at the first of them |
| ParseSpec.Recover | src/frontend/parser.cpp:54-60 | after recovery the previous token is the `)` skipped to, or the parser sits at `eof` |
| ParseSpec.CheckedConsume | src/frontend/parser.cpp:68 | the checked consume succeeds exactly when the current token has the tag, and then is a plain consume; otherwise the parser recovers and becomes errored |
| ParseSpec.ParseTop | src/frontend/parser.cpp:67-87 | a form that does not open with `(` is null and leaves the parser errored; any null result leaves it errored; every call at a token other than `eof` makes progress |
| ParseSpec.ParseVariable | src/frontend/parser.cpp:89-97 | a definition is always built, even when its name is missing, and the parser has moved forward |
| ParseSpec.LambdaParams | src/frontend/parser.cpp:107-116 | the parameter loop either consumed its `)` or stopped at `eof` |
| ParseSpec.ParseLambda | src/frontend/parser.cpp:100-126 | a non-null result is a lambda; a null result means `eof` came before the parameters closed |
| ParseSpec.NestedForm | src/frontend/parser.cpp:136-147 | the dispatch on the current lexeme gives a lambda (or null) after `lambda`, a list (or null) after `do`, a `cond` (or null) after `cond`, and a valued expression's list (or null) after anything else |
| ParseSpec.ParseNestable | src/frontend/parser.cpp:128-154 | the routine leaves a valid state no further from the end, and keeps `errored` once set (the dispatch and the `)` rule are `NestedForm` and `NestableEncloses`) |
| ParseSpec.DoSteps | src/frontend/parser.cpp:162-169 | the step loop stops at a `)`, which it leaves for the caller, or at `eof` |
| ParseSpec.ParseDo | src/frontend/parser.cpp:156-177 | the result is a non-null list exactly when the parser stops at `)`; otherwise it is null |
| ParseSpec.CondCase | src/frontend/parser.cpp:192-199 | one case consumes at least one token unless the parser is at `eof` |
| ParseSpec.CondCases | src/frontend/parser.cpp:186-200 | the case loop, with the corrected guard, stops at a `)` (left for the caller) or at `eof` |
| ParseSpec.ParseCond | src/frontend/parser.cpp:180-208 | with the corrected guard, the result is a non-null `cond` exactly when the parser stops at `)` |
| ParseSpec.ParseCondAsWritten | src/frontend/parser.cpp:180-208 | as written, `parse_cond` returns null right after `cond` whenever the next token is not `eof`, and does not return at all when it is |
| ParseSpec.ComputeItems | src/frontend/parser.cpp:214-227 | the item loop stops at a `)`, which it leaves for the caller, or at `eof` |
| ParseSpec.ParseCompute | src/frontend/parser.cpp:210-235 | a valued expression is a non-null list exactly when it stops at `)` (left unconsumed), and null exactly at `eof` |
| ParseSpec.ParseDatum | src/frontend/parser.cpp:237-265 | a datum leaves `errored` as it was (the report does not set it), and moves forward unless at `eof` |
| ParseSpec.DatumType | src/frontend/parser.cpp:241-262 | no datum carries the `null`, `listy` or `callable` type |
| ParseSpec.ProgramFrom | src/frontend/parser.cpp:12-23 | a program reported ok was parsed from a state that was not errored, and from any state, a loop that reports ok adds no null top-level form |
| ParseSpec.InitialState | src/frontend/parser.cpp:5-10 | after construction the parser is not errored, the previous token is the blank `unknown` one, and the current token is the first non-spacing token of the text |
| ParseSpec.ParseProgram | src/frontend/parser.cpp:5-23 | a parse that reports ok has no null top-level form: every way a form comes out null makes a checked consume fail, and `errored` is never reset |
| ParseProperties.AdvanceIsFirstNonSpacing | src/frontend/parser.cpp:37-52 | `advance` yields the first non-spacing token of the lexer's stream, or `eof` when only spacing is left |
| ParseProperties.OneItemPerTopCall | src/frontend/parser.cpp:12-23 | `parse_program` produces one item per `parse_top` call |
| ParseProperties.ProgramFromKeepsTops | src/frontend/parser.cpp:15-17 | the program loop keeps, in order, every item collected before |
| ParseProperties.LambdaParamsKeepsNames | src/frontend/parser.cpp:107-116 | the parameter loop keeps, in order, every name collected before |
| ParseProperties.OneNamePerParamStep | src/frontend/parser.cpp:107-116 | the parameter loop records exactly one name per iteration (`ParamSteps` iterations in all), the text of the token its checked consume of an identifier has just passed |
| ParseProperties.DoStepsKeepsSteps | src/frontend/parser.cpp:162-169 | the `do` loop keeps, in order, every step collected before |
| ParseProperties.NestableEncloses | src/frontend/parser.cpp:128-154 | parse_nestable consumes an optional `(` and dispatches on the lexeme after it, with the form kind `NestedForm` gives; without the `(` the result and the state are those of the sub-parse; with it the sub-parse's result is kept, the parser ends errored exactly when the sub-parse did or stopped short of `)`, and a `)` there is consumed |
| ParseProperties.DatumTypeByKind | src/frontend/parser.cpp:241-262 | a datum's kind maps identifier to `unknown`, true/false to `boolean`, exact to `number_exact`, real to `number_real`, string to `string` (each an if-and-only-if), and no other kind is a datum |
| ParseProperties.DatumConsumesOneToken | src/frontend/parser.cpp:237-265 | parse_datum is non-null exactly for a datum kind; it then wraps the current token unchanged and consumes exactly that token; otherwise it recovers |
| ParseProperties.VariableBindsName | src/frontend/parser.cpp:89-97 | when an identifier follows `define`, the definition binds that identifier's text; otherwise the parser is errored |
| ParseProperties.ComputeAtBoundary | src/frontend/parser.cpp:210-235 | a valued expression that starts at `)` is the empty list and one at `eof` is null; neither moves |
| ParseProperties.CondCaseResultIsEmpty | src/frontend/parser.cpp:192-199 | a case's result is the empty list (null at `eof`), because the test stops exactly where the result starts |
| ParseProperties.CondCasesResultsAreEmpty | src/frontend/parser.cpp:186-200 | every case the loop collects has an empty result |
| ParseProperties.CondResultsAreEmpty | src/frontend/parser.cpp:180-208 | with the corrected guard, every case of a non-null `cond` has an empty list as its result |
| ParseProperties.CondAsWrittenDiffers | src/frontend/parser.cpp:186-205 | on `(cond)` the as-written routine returns null, while the corrected one returns a `cond` with no cases; both stop at the `)` |
| ParseProperties.CondAsWrittenSpinsAtEof | src/frontend/parser.cpp:186-200 | when the text ends right after `cond`, one pass of the as-written loop ends at `eof` where it began, so the loop never exits; the corrected routine returns null |
| Parsing.Parser.constructor | src/frontend/parser.cpp:5-10 | a new parser is in the initial state: blank tokens, one consume, and not errored |
| Parsing.Parser.Match | includes/frontend/parser.hpp:48-59 | `match<opt>(tags…)` holds exactly when the current (or previous) tag is one of the tags; it reads the parser and changes nothing |
| Parsing.Parser.AtEof | src/frontend/parser.cpp:33-35 | `atEOF()` holds only when the lexer has no text left |
| Parsing.Parser.ReportParseError | includes/frontend/parser.hpp:35-42 | `invalid_token` takes the first branch and every other group the "Unexpected token … Note" branch; the report carries the culprit's line, column and text, and changes no parser state |
| Parsing.Parser.Advance | src/frontend/parser.cpp:37-52 | the loop returns what `ParseSpec.Advance` gives and leaves the lexer where that function says |
| Parsing.Parser.Consume | src/frontend/parser.cpp:62-65 | the new state is `ParseSpec.Consume` of the old state |
| Parsing.Parser.RecoverParse | src/frontend/parser.cpp:54-60 | the new state is `Recover` of the old state |
| Parsing.Parser.ConsumeCurrent | src/frontend/parser.cpp:68 | the result and the new state are those of `CheckedConsume` |
| Parsing.Parser.ParseProgram | src/frontend/parser.cpp:12-23 | the loop's items and its ok flag are those of `ProgramFrom` |
| Parsing.Parser.ParseTop | src/frontend/parser.cpp:67-87 | the result and the new state are those of `ParseSpec.ParseTop` |
| Parsing.Parser.ParseVariable | src/frontend/parser.cpp:89-97 | the result and the new state are those of `ParseSpec.ParseVariable` |
| Parsing.Parser.ParseLambda | src/frontend/parser.cpp:100-126 | the parameter loop and the body give the result and the state of `ParseSpec.ParseLambda` |
| Parsing.Parser.ParseNestable | src/frontend/parser.cpp:128-154 | the result and the new state are those of `ParseSpec.ParseNestable` |
| Parsing.Parser.ParseDo | src/frontend/parser.cpp:156-177 | the step loop gives the result and the state of `ParseSpec.ParseDo` |
| Parsing.Parser.ParseCond | src/frontend/parser.cpp:180-208 | with the corrected guard, the case loop gives the result and the state of `ParseSpec.ParseCond` |
| Parsing.Parser.ParseCompute | src/frontend/parser.cpp:210-235 | the item loop gives the result and the state of `ParseSpec.ParseCompute` |
| Parsing.Parser.ParseDatum | src/frontend/parser.cpp:237-265 | the result and the new state are those of `ParseSpec.ParseDatum` |
| Parsing.Parse | src/frontend/parser.cpp:5-23 | constructing a parser and running parse_program yields `ParseProgram` of the text |
| Values.KindConstant | src/evaluator/values.cpp:18-129 | a kind is constant exactly when its type is null, boolean or callable |
| Values.KindType | src/evaluator/values.cpp:10-121 | each kind's `type()` names exactly that kind (null, boolean, number_exact, number_real, string, callable), and no kind reports `unknown` or `listy` |
| Values.KindTruthy | src/evaluator/values.cpp:14-125 | each kind's `as_truthy()` is false exactly for null, false, the exact 0, the real 0.0 and the empty string |
| Values.ConstantTruthiness | src/evaluator/values.cpp:14-33 | a constant value is truthy unless it is null or false |
| Values.NonConstantFalsiness | src/evaluator/values.cpp:51-101 | a value that is not constant is falsy exactly when it is the exact 0, the real 0.0 or the empty string |
| Values.VariantIndex | src/evaluator/values.cpp:137 | the variant index is the position whose case in `Value::type`'s switch gives the held kind's type |
| Values.TypeAtIndex | src/evaluator/values.cpp:136-157 | the switch falls through to `unknown` exactly for an index past the six alternatives |
| Values.ValueType | src/evaluator/values.cpp:136-157 | `Value::type` agrees with the held kind's own `type()`, so its `unknown` fall-through is unreachable |
| Values.OperatorBoolAsWritten | src/evaluator/values.cpp:159-183 | as written, `operator bool` is false for every value |
| Values.OperatorBool | src/evaluator/values.cpp:159-183 | without the overwrite, a value converts to false exactly when it holds null, false, the exact 0, the real 0.0 or the empty string |
| Values.IsConstantAsWritten | src/evaluator/values.cpp:185-209 | as written, `Value::is_constant` is true for every value |
| Values.IsConstant | src/evaluator/values.cpp:185-209 | without the overwrite, a value is constant exactly when it holds null, a boolean or a lambda |
| Values.AsWrittenConversionsDiffer | src/evaluator/values.cpp:159-209 | true, 1 and "a" are truthy kinds and 0, 1.5 and "" are not constant, so the as-written results are wrong for them |
| Values.ExactNumber.constructor | src/evaluator/values.cpp:36-37 | the payload is the argument |
| Values.ExactNumber.SetValue | src/evaluator/values.cpp:39-45 | after `value(i)`, `value()` returns i |
| Values.ExactNumber.AsValue | src/evaluator/values.cpp:47-49 | the variant alternative holds the payload and has type `number_exact` |
| Values.RealNumber.constructor | src/evaluator/values.cpp:60-61 | the payload is the argument |
| Values.RealNumber.SetValue | src/evaluator/values.cpp:63-69 | after `value(f)`, `value()` returns f |
| Values.RealNumber.AsValue | src/evaluator/values.cpp:71-73 | the variant alternative holds the payload and has type `number_real` |
| Values.String.constructor | src/evaluator/values.cpp:84-85 | the payload is the argument |
| Values.String.SetValue | src/evaluator/values.cpp:87-93 | after `value(s)`, `value()` returns s |
| Values.String.AsValue | src/evaluator/values.cpp:95-97 | the variant alternative holds the payload and has type `string` |
| Values.SetterRoundTrip | src/evaluator/values.cpp:36-93 | for each settable kind, setting a payload and reading it back gives what was set, and a `Value` copied before the set keeps the old payload |
| Environments.NearestBindingIsFirst | src/evaluator/environment.cpp:13-21 | a name is found exactly when some scope binds it, and the value is then that of the first such scope; otherwise the failure names the key |
| Environments.Environment.constructor | src/evaluator/environment.cpp:6-7 | a new scope has no bindings, and its parent is the one given, set once |
| Environments.Environment.Scopes | src/evaluator/environment.cpp:16-17 | the chain's first map is this scope's own |
| Environments.Environment.GlobalIsOneScope | src/evaluator/environment.cpp:9-11 | `is_global()` holds exactly when the chain is this one scope, that is when the parent is null |
| Environments.Environment.LookupValue | src/evaluator/environment.cpp:13-21 | a local binding is returned as is; a failure is the unbound-name error for the key |
| Environments.Environment.LookupIsNearestBinding | src/evaluator/environment.cpp:13-21 | lookup yields the nearest binding along the chain of scopes |
| Environments.Environment.LookupFailsWhenUnbound | src/evaluator/environment.cpp:18-20 | lookup fails exactly when no scope of the chain binds the name |
| Environments.Environment.UpdateValue | includes/evaluator/environment.hpp:16-19 | the local map binds the key to the value, inserted or overwritten; every other local key is unchanged; the enclosing scopes are not written; lookup of the key then gives the value, and lookup of any other key is unchanged |
| Samples.BenignTokenIsKnown | src/frontend/lexer.cpp:38-77 | on a text of brackets, spacing, letters, operators and digits only, `next` never yields `unknown` |
| Samples.BenignTextLexesCleanly | tests/test_lexer.cpp:28-40 | on such a text the test's loop meets `eof` without seeing `unknown` |
| Samples.LexerSampleHeadIsBenign | tests/test_lexer.cpp:20-21 | the two number definitions of the lexer test use only those characters |
| Samples.LexerSampleMiddleIsBenign | tests/test_lexer.cpp:22-23 | so do the first two lines of the lambda definition |
| Samples.LexerSampleTailIsBenign | tests/test_lexer.cpp:24-26 | and so do the last three lines |
| Samples.LexerSampleHasNoUnknown | tests/test_lexer.cpp:20-45 | the lexer test passes: its program lexes to `eof` without an `unknown` token |
| Samples.OpenParenToken | src/frontend/lexer.cpp:52-53 | a `(` at the cursor gives a one-column `left_paren` |
| Samples.DefineToken | src/frontend/lexer.cpp:123-151 | `define` followed by a space is a `special_name` of length 6 with text `define` |
| Samples.AdvanceAtNonSpacing | src/frontend/parser.cpp:37-52 | `advance` stops at once on a token that is not spacing |
| Samples.AdvanceOverOneSpacing | src/frontend/parser.cpp:37-52 | over one spacing character `advance` goes on from the next character |
| Samples.SpacingThenOpenParen | src/frontend/parser.cpp:37-52 | a spacing character and a `(` give the `left_paren` |
| Samples.CloseParenToken | src/frontend/lexer.cpp:54-55 | a `)` at the cursor gives a `right_paren` |
| Samples.LetterToken | src/frontend/lexer.cpp:123-159 | a one-letter name is an `identifier_name` of length 1 |
| Samples.SpaceThenLetter | src/frontend/parser.cpp:37-52 | a space and a one-letter name give that identifier |
| Samples.TwoDigitToken | src/frontend/lexer.cpp:201-245 | two digits are a `literal_number_exact` of length 2 |
| Samples.SpaceThenTwoDigits | src/frontend/parser.cpp:37-52 | a space and two digits give that number |
| Samples.NumberInitializer | src/frontend/parser.cpp:128-154 | a number datum followed by `)`, as an initializer, is the one-item list of that datum |
| Samples.DefineForm | src/frontend/parser.cpp:67-87 | a top-level form that opens with `define` is a variable definition closed by a checked `)` |
| Samples.VariableParts | src/frontend/parser.cpp:89-97 | a definition binds the text of the identifier after the keyword to what its initializer parses to |
| Samples.TwoDigitLexeme | src/frontend/parser.cpp:136-146 | the text of a two-character token that starts with a digit names none of `lambda`, `do` and `cond` |
| Samples.NumberDefinitionOperands | tests/test_parser.cpp:20 | after the keyword, `x 42)` lexes to the one-character name at offset 7, the two-digit number at offset 9 and a `)`, none of them an error |
| Samples.NumberDefinitionTokens | tests/test_parser.cpp:20 | `define x 42)` lexes to the keyword, the name, the number and a `)`, at those offsets |
| Samples.NumberDefinitionBody | tests/test_parser.cpp:20 | `define x 42` builds exactly `VariableDefine("x", Listy([Datum(42, number_exact)]))` without error and stops at the `)` |
| Samples.NumberDefinitionParses | tests/test_parser.cpp:20-21 | `(define x 42)` followed by a line feed and the next `(` parses to exactly that tree without error and stops at that `(` |
| Samples.ListNamedDefineErrs | src/frontend/parser.cpp:89-97 | a `(define (` form leaves the parser errored |
| Samples.DefineWithoutNameErrs | src/frontend/parser.cpp:89-97 | a definition whose name is not an identifier leaves the parser errored |
| Samples.ProgramStep | src/frontend/parser.cpp:15-17 | one iteration of parse_program's loop appends one `parse_top` result |
| Samples.ErroredTopFails | src/frontend/parser.cpp:12-23 | once a top-level form leaves the parser errored, the program reports failure |
| Samples.ListNamedDefineFails | src/frontend/parser.cpp:89-97 | a program that opens with `(define (` reports failure |
| Samples.ParserSampleLines | tests/test_parser.cpp:20-22 | the first three lines of the parser test's program: two number definitions and a `(define (` form |
| Samples.ParserSampleLayout | tests/test_parser.cpp:20-26 | the forms begin at offsets 0, 14 and 28 of the whole program |
| Samples.TwoDefinitionsThenListNamedDefineFail | tests/test_parser.cpp:20-22 | two number definitions followed by a `(define (` form report failure |
| Samples.ParserSampleFails | tests/test_parser.cpp:20-48 | the parser test's program reports failure, so the test returns 1 |
| Samples.NameGroup | src/frontend/parser.cpp:220-223 | a parenthesised one-letter name inside a valued expression is the one-item list of that name, and the item loop goes on after its `)` |
| Samples.StrayBeforeClose | src/frontend/parser.cpp:54-60 | a token that is no datum, directly before `)`, becomes a null item, and its recovery consumes that `)` |
| Samples.CutOffAfterStray | src/frontend/parser.cpp:229-232 | a valued expression that opens with a stray `]` before `)` and whose later items stop at `eof` is null |
| Samples.CutOffTop | src/frontend/parser.cpp:67-87 | a top-level form whose first word is no keyword and whose valued expression is null is a null form, errored, at `eof` |
| Samples.CutOffProgram | src/frontend/parser.cpp:12-23 | a program that is one such cut-off form is the single null item and a failure |
| Samples.SwallowingSampleLayout | src/frontend/parser.cpp:54-60 | the text `(]) (a) (b)` has the layout the swallowing lemmas need |
| Samples.SwallowingOpening | src/frontend/parser.cpp:54-60 | in `(]) (a) (b)` the tokens are `(`, `]`, `)` and then the `(` of `(a)` |
| Samples.SwallowingItems | src/frontend/parser.cpp:214-227 | `(a)` and `(b)` become two more items of the first form's list, and the loop meets `eof` |
| Samples.SwallowingCompute | src/frontend/parser.cpp:210-235 | the first form's valued expression swallows both groups and is null |
| Samples.SwallowingText | src/frontend/parser.cpp:12-23 | any text of that layout parses as one null form and a failure |
| Samples.RecoverySwallowsLaterForms | src/frontend/parser.cpp:54-60 | `(]) (a) (b)` is exactly one null form and a failure: the recovery from `]` consumes the `)` of its own form, and the two well-formed forms after it are swallowed |
| Samples.MissingInitializerLayout | src/frontend/parser.cpp:89-97 | the text `(define x )` has the layout the missing-initializer lemmas need, with `x` at offset 8 |
| Samples.MissingInitializerName | src/frontend/parser.cpp:89-93 | such a text lexes as `(`, `define` and the one-letter name, whose text is recorded |
| Samples.MissingInitializerClose | src/frontend/parser.cpp:94 | after the name comes a `)` that ends the text |
| Samples.EmptyInitializerVariable | src/frontend/parser.cpp:89-97 | a name directly followed by `)` after `define` is defined by the empty list, and the parser stays at the `)` |
| Samples.EmptyInitializerTop | src/frontend/parser.cpp:67-87 | such a `define` form parses, with the empty list as initializer |
| Samples.MissingInitializerText | src/frontend/parser.cpp:12-23 | any text of that layout is one definition of its letter by the empty list, and no error |
| Samples.MissingInitializerAccepted | src/frontend/parser.cpp:89-97 | `(define x )` is accepted: one form, `x` defined by the empty list, and no error |

## Left out

- The driver (src/derkscheme_main.cpp) and file reading (src/utils/file_io.cpp) are not part of this model. They only handle arguments, files and printing.
- The `to_string` methods of the syntax tree only format text, and they are left out.
- Parsing.Parser.ReportParseError: the diagnostic is computed but never written, since printing is I/O. The parse methods do not call it, because it changes no state. `errored` is set only by the checked consume.
- ParseSpec.CheckedConsume: the checked `consume<current>(tag)` is used throughout parser.cpp but defined in no file of the repository. It is modelled as follows: on a match, consume and succeed; otherwise call `recover_parse`, set `m_errored`, and fail. Nothing else in the parser ever sets `m_errored`.
- ParseSpec.Advance: as in the code, `advance` skips only spacing tokens, and an `unknown` token neither is skipped nor marks the parser errored.
- ParseSpec.ParseDatum: as in the code, an invalid datum is reported and recovered from without setting `errored`.
- LexSpec.CharAt: two reads in lexer.cpp are unchecked, the one after a trailing `#` (lines 171-173) and the one after a trailing `"` (line 249). The model reads `'\0'` there, which is neither `t`, `f`, a quote nor a line feed.
- Lexing.Lexer.LexBoolean and Lexing.Lexer.LexString model the corrected scans (see Findings). The as-written scans exist only as the functions `ScanBooleanAsWritten` and `ScanStringAsWritten`.
- Parsing.Parser.ParseCond models the corrected loop guard. The as-written routine, which may never return, is the function `ParseCondAsWritten`, with `None` standing for the call that never returns.
- LexSpec.Next, Lexing.Lexer.Next: the C++ lexer classifies bytes, but the model's `string` is a sequence of Unicode characters. On ASCII text the two agree. A non-ASCII character such as `é` is one `unknown` token of one column in the model, but two one-byte `unknown` tokens in the C++, and inside a string literal the begins, lengths and columns count characters rather than bytes.
- Positions, lengths, lines and columns are C++ `int`, but the model uses unbounded integers. Texts longer than 2^31 - 1 characters, where they would overflow, are not modelled.
- `ExprList` is a `std::forward_list`, which has no `emplace_back`, yet parser.cpp calls it (lines 168, 222, 225). The model appends to a sequence in order, which is what the calls evidently mean.
- Stale headers: token.hpp, tags.hpp, parser.hpp and exprs.hpp disagree with the .cpp files. The token kinds, the `null` and `block_do` tags, the `missing_token` error group, and the `LambdaDefine`/`Cond` constructors are taken from the .cpp usage.
- `parse_program` is declared to return an `ExprPtr` in parser.hpp but returns an AST in parser.cpp. The .cpp is followed.
- The `Listy()` default constructor (exprs.cpp:35-36) leaves its count uninitialised and is never called, so it is left out.
- The `Boolean` constructor and accessors are declared but never defined (values.hpp:24-27). A boolean value is modelled by its payload only.
- The accessors of the tree nodes and of `Lambda` become datatype fields, which return the constructor arguments unchanged by construction.
- The `RealNumber` payload is a `float`, modelled as `real`. Only its comparison with 0.0 is used, and no float arithmetic takes place.
- The `ExactNumber` payload is modelled as a 32-bit `int32` newtype. No arithmetic on it is modelled.
- Environments.Environment.LookupValue: the C++ returns a reference into the scope's map, but the model returns the value. Writes through that reference are not modelled.
- Environments.Environment.LookupValue: the C++ accepts any chain of parent pointers. The model requires a finite, acyclic chain (`Valid`), because lookup on a cyclic chain would never return.
- Environments.Environment.UpdateValue takes a `Value`. The C++ template converts any value kind to a `Value` first.
- The value kinds without setters (`Null`, `Boolean`, `Lambda`) are variants of the `Value` datatype only. `ExactNumber`, `RealNumber` and `String` are also classes, for their in-place setters.
- The evaluator, the concepts in constraints.hpp and the visitor interface's implementations are not part of this model.

## Findings

| source | as written | input that shows it | evidently intended | confidence | as-written member | corrected member |
|---|---|---|---|---|---|---|
| src/frontend/lexer.cpp:255-272 | `closed` starts false and is never set, so every string token is `unknown` | the text `"a"` | a string scan that consumed its closing quote yields `literal_string` | not executed | LexSpec.ScanStringAsWritten, LexSpec.ClosedStringIsUnknownAsWritten | LexSpec.ScanString, LexSpec.StringScan, Lexing.Lexer.LexString |
| src/frontend/lexer.cpp:162-190 | a `#` that ends the text moves the position one past the end; the `eof` token that follows begins past the end, and slicing it throws inside `noexcept` code | the text `#` | the position stays at the end of the text | not executed | LexSpec.ScanBooleanAsWritten, LexSpec.TrailingHashOverrunsAsWritten | LexSpec.ScanBoolean, LexSpec.BooleanScan, Lexing.Lexer.LexBoolean |
| src/frontend/parser.cpp:186 | the case loop runs `while (atEOF())`: it is skipped, and the form is null, whenever a token follows `cond`; when the text ends after `cond` it never exits | `(cond)`, and `(cond` at the end of the text | `while (not atEOF())`, as in the other loops | not executed | ParseSpec.ParseCondAsWritten, ParseProperties.CondAsWrittenDiffers, ParseProperties.CondAsWrittenSpinsAtEof | ParseSpec.ParseCond, ParseProperties.CondResultsAreEmpty, Parsing.Parser.ParseCond |
| src/evaluator/values.cpp:179 | `result = false` after the visit overwrites the kind's truthiness, so every value converts to false | a `Value` holding `Boolean(true)` | the held kind's `as_truthy()` | not executed | Values.OperatorBoolAsWritten, Values.AsWrittenConversionsDiffer | Values.OperatorBool |
| src/evaluator/values.cpp:205 | `result = true` after the visit overwrites the kind's constancy, so every value is constant | a `Value` holding `ExactNumber(0)` | the held kind's `is_constant()` | not executed | Values.IsConstantAsWritten, Values.AsWrittenConversionsDiffer | Values.IsConstant |
