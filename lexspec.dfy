/**
 * A pure specification of the lexer: one cursor step per character, the
 * maximal-run scans, and `Next`, the token that one call of `next()` yields
 * together with the cursor it leaves behind (lexer.cpp).
 */
module LexSpec {
  import opened LexicalMatchers
  import opened Tokens

  /** The lexer's mutable state: `m_pos`, `m_line`, `m_column`. */
  datatype Cursor = Cursor(pos: int, line: int, column: int)

  /** A token together with the cursor after it. */
  datatype Lexed = Lexed(token: Token, cursor: Cursor)

  /** The start of every source: position 0, line 1, column 1. */
  const Start: Cursor := Cursor(0, 1, 1)

  predicate CursorIn(src: string, c: Cursor) {
    0 <= c.pos <= |src|
  }

  /**
   * The character at index `i`. Two reads in lexer.cpp (the character after a
   * `#`, the character after an opening quote) are unchecked and may fall one
   * past the end; there the model reads '\0', which is neither `t`, `f`, a
   * quote nor a line feed.
   */
  function CharAt(src: string, i: int): char {
    if 0 <= i < |src| then src[i] else '\0'
  }

  /** update_source_location: a line feed starts a new line at column 1, anything else moves one column right. */
  function Relocate(c: Cursor, ch: char): Cursor {
    if ch == '\n' then Cursor(c.pos, c.line + 1, 1) else Cursor(c.pos, c.line, c.column + 1)
  }

  /** Account for the character under the cursor and move past it. */
  function Step(src: string, c: Cursor): Cursor {
    var r := Relocate(c, CharAt(src, c.pos));
    Cursor(c.pos + 1, r.line, r.column)
  }

  /** `n` steps of the cursor. */
  function Walk(src: string, c: Cursor, n: nat): (r: Cursor)
    ensures r.pos == c.pos + n
  {
    if n == 0 then c else Step(src, Walk(src, c, n - 1))
  }

  /** The number of characters `ch` in src[lo..hi]. */
  function CountIn(src: string, lo: int, hi: int, ch: char): nat
    requires 0 <= lo <= hi <= |src|
    decreases hi - lo
  {
    if lo == hi then 0 else CountIn(src, lo, hi - 1, ch) + (if src[hi - 1] == ch then 1 else 0)
  }

  /**
   * Walking over a stretch of the text adds one line per line feed in it; a
   * stretch without line feeds keeps the line and adds its length to the column.
   */
  lemma {:induction false} WalkLocation(src: string, c: Cursor, n: nat)
    requires 0 <= c.pos && c.pos + n <= |src|
    ensures Walk(src, c, n).line == c.line + CountIn(src, c.pos, c.pos + n, '\n')
    ensures CountIn(src, c.pos, c.pos + n, '\n') == 0 ==> Walk(src, c, n).column == c.column + n
  {
    if n > 0 {
      WalkLocation(src, c, n - 1);
    }
  }

  /** The character classes that the scans consume maximal runs of. */
  datatype Run = SpacingRun | WordRun | NumberRun | StringBodyRun

  predicate InRun(k: Run, ch: char) {
    match k
    case SpacingRun => MatchSpacing(ch)
    case WordRun => MatchAlphabetic(ch) || MatchDigit(ch) || MatchOpSymbol(ch)
    case NumberRun => MatchDigit(ch) || ch == '.'
    case StringBodyRun => ch != '"'
  }

  /** The length of the run of class `k` that starts at `lo`. */
  function RunLength(src: string, lo: int, k: Run): (n: nat)
    requires 0 <= lo <= |src|
    ensures lo + n <= |src|
    decreases |src| - lo
  {
    if lo < |src| && InRun(k, src[lo]) then 1 + RunLength(src, lo + 1, k) else 0
  }

  predicate AllInRun(src: string, lo: int, hi: int, k: Run)
    requires 0 <= lo <= hi <= |src|
  {
    forall i :: lo <= i < hi ==> InRun(k, src[i])
  }

  /** `RunLength` is the maximal run: every character in it is of the class, and the one after it is not (or the text ends). */
  lemma {:induction false} RunLengthIsMaximal(src: string, lo: int, k: Run)
    requires 0 <= lo <= |src|
    ensures AllInRun(src, lo, lo + RunLength(src, lo, k), k)
    ensures lo + RunLength(src, lo, k) == |src| || !InRun(k, src[lo + RunLength(src, lo, k)])
    decreases |src| - lo
  {
    if lo < |src| && InRun(k, src[lo]) {
      RunLengthIsMaximal(src, lo + 1, k);
    }
  }

  /** ... and it is the only run length with that property. */
  lemma {:induction false} RunLengthExact(src: string, lo: int, n: nat, k: Run)
    requires 0 <= lo && lo + n <= |src|
    requires AllInRun(src, lo, lo + n, k)
    requires lo + n == |src| || !InRun(k, src[lo + n])
    ensures RunLength(src, lo, k) == n
    decreases n
  {
    if n > 0 {
      RunLengthExact(src, lo + 1, n - 1, k);
    }
  }

  /** The lexer's keyword table (lexer.cpp, `entries`). */
  datatype WordRole = SpecialForm | NoRole
  datatype LexicalEntry = LexicalEntry(text: string, role: WordRole)

  const Entries: seq<LexicalEntry> := [
    LexicalEntry("if", SpecialForm),
    LexicalEntry("cond", SpecialForm),
    LexicalEntry("case", SpecialForm),
    LexicalEntry("define", SpecialForm),
    LexicalEntry("let!", SpecialForm),
    LexicalEntry("do", SpecialForm),
    LexicalEntry("lambda", SpecialForm)
  ]

  /** The texts of the first `n` entries whose role is `special_form`, as the constructor's loop inserts them. */
  function SpecialFormsUpTo(n: nat): set<string>
    requires n <= |Entries|
  {
    if n == 0 then {}
    else SpecialFormsUpTo(n - 1) + (if Entries[n - 1].role == SpecialForm then {Entries[n - 1].text} else {})
  }

  const Keywords: set<string> := SpecialFormsUpTo(|Entries|)

  lemma KeywordsAreTheSpecialForms()
    ensures Keywords == {"if", "cond", "case", "define", "let!", "do", "lambda"}
  {
    assert SpecialFormsUpTo(1) == {"if"};
    assert SpecialFormsUpTo(2) == {"if", "cond"};
    assert SpecialFormsUpTo(3) == {"if", "cond", "case"};
    assert SpecialFormsUpTo(4) == {"if", "cond", "case", "define"};
    assert SpecialFormsUpTo(5) == {"if", "cond", "case", "define", "let!"};
    assert SpecialFormsUpTo(6) == {"if", "cond", "case", "define", "let!", "do"};
  }

  /** lexSingle: one character, reported at its column and at the line after it. */
  function ScanSingle(src: string, c: Cursor, tag: TokenTag): Lexed
    requires 0 <= c.pos < |src|
  {
    var c' := Step(src, c);
    Lexed(Token(tag, c.pos, 1, c'.line, c.column), c')
  }

  /** lexSpacing: the maximal run of spacing characters. */
  function ScanSpacing(src: string, c: Cursor): Lexed
    requires 0 <= c.pos < |src|
  {
    var n := RunLength(src, c.pos, SpacingRun);
    Lexed(Token(Spacing, c.pos, n, c.line, c.column), Walk(src, c, n))
  }

  /** lexWord: the maximal run of letters, digits and operator symbols, classified by the keyword table. */
  function ScanWord(src: string, c: Cursor): Lexed
    requires 0 <= c.pos < |src|
  {
    var n := RunLength(src, c.pos, WordRun);
    var lexeme := src[c.pos..c.pos + n];
    var tag := if lexeme in Keywords then SpecialName else IdentifierName;
    Lexed(Token(tag, c.pos, n, c.line, c.column), Walk(src, c, n))
  }

  /** The kind of a number literal with `dots` decimal points. */
  function NumberTag(dots: nat): TokenTag {
    if dots == 0 then LiteralNumberExact else if dots == 1 then LiteralNumberReal else Unknown
  }

  /** lexNumber: the maximal run of digits and dots; two or more dots make an `unknown` token. */
  function ScanNumber(src: string, c: Cursor): Lexed
    requires 0 <= c.pos < |src|
  {
    var n := RunLength(src, c.pos, NumberRun);
    var dots := CountIn(src, c.pos, c.pos + n, '.');
    Lexed(Token(NumberTag(dots), c.pos, n, c.line, c.column), Walk(src, c, n))
  }

  /**
   * lexBoolean as written: step over the `#`, classify the next character,
   * and move past it, even when the `#` was the last character.
   */
  function ScanBooleanAsWritten(src: string, c: Cursor): (r: Lexed)
    requires 0 <= c.pos < |src|
    ensures r.cursor.pos == c.pos + 2
  {
    var c1 := Step(src, c);
    var ch := CharAt(src, c1.pos);
    var c2 := Relocate(c1, ch);
    var tag := if ch == 't' then LiteralBooleanTrue else if ch == 'f' then LiteralBooleanFalse else Unknown;
    Lexed(Token(tag, c1.pos, 2, c1.line, c1.column), Cursor(c1.pos + 1, c2.line, c2.column))
  }

  /** lexBoolean with the cursor kept at the end of the text when the `#` was the last character. */
  function ScanBoolean(src: string, c: Cursor): Lexed
    requires 0 <= c.pos < |src|
  {
    var l := ScanBooleanAsWritten(src, c);
    Lexed(l.token, Cursor(if l.cursor.pos <= |src| then l.cursor.pos else |src|, l.cursor.line, l.cursor.column))
  }

  /** Whether the string scan that starts at the quote under `c` ends at a closing quote. */
  predicate StringClosed(src: string, c: Cursor)
    requires 0 <= c.pos < |src|
  {
    c.pos + 1 + RunLength(src, c.pos + 1, StringBodyRun) < |src|
  }

  /**
   * lexString as written: skip the opening quote without accounting for it,
   * account for the character after it, then scan up to the closing quote
   * (skipped, not accounted for) or the end. Its `closed` flag is never set,
   * so the tag is `unknown` whatever the text.
   */
  function ScanStringAsWritten(src: string, c: Cursor): (r: Lexed)
    requires 0 <= c.pos < |src|
    ensures r.token.tag == Unknown
  {
    var c1 := Cursor(c.pos + 1, c.line, c.column);
    var c2 := Relocate(c1, CharAt(src, c1.pos));
    var n := RunLength(src, c1.pos, StringBodyRun);
    var c3 := Walk(src, c2, n);
    Lexed(Token(Unknown, c1.pos, n, c2.line, c2.column),
          if c1.pos + n < |src| then Cursor(c3.pos + 1, c3.line, c3.column) else c3)
  }

  /** lexString with `closed` set when the closing quote is consumed. */
  function ScanString(src: string, c: Cursor): Lexed
    requires 0 <= c.pos < |src|
  {
    var l := ScanStringAsWritten(src, c);
    var t := l.token;
    Lexed(Token(if StringClosed(src, c) then LiteralString else Unknown, t.begin, t.length, t.line, t.column), l.cursor)
  }

  /** The token of end of input at cursor `c`. */
  function EofToken(c: Cursor): Token {
    Token(Eof, c.pos, 1, -1, -1)
  }

  /** One call of `next()`: dispatch on the first character. */
  function Next(src: string, c: Cursor): (r: Lexed)
    requires CursorIn(src, c)
    ensures CursorIn(src, r.cursor) && SliceableIn(r.token, src)
    ensures r.token.tag == Eof <==> c.pos == |src|
    ensures r.token.tag == Eof ==> r == Lexed(EofToken(c), c)
    ensures r.token.tag != Eof ==> r.cursor.pos > c.pos
  {
    if c.pos >= |src| then Lexed(EofToken(c), c)
    else
      var ch := src[c.pos];
      if ch == '(' then ScanSingle(src, c, LeftParen)
      else if ch == ')' then ScanSingle(src, c, RightParen)
      else if ch == '[' then ScanSingle(src, c, LeftBracket)
      else if ch == ']' then ScanSingle(src, c, RightBracket)
      else if ch == '"' then ScanString(src, c)
      else if ch == '#' then ScanBoolean(src, c)
      else if MatchSpacing(ch) then ScanSpacing(src, c)
      else if MatchAlphabetic(ch) || MatchOpSymbol(ch) then ScanWord(src, c)
      else if MatchDigit(ch) then ScanNumber(src, c)
      else ScanSingle(src, c, Unknown)
  }

  /** The tokens that successive calls of `next()` yield before the first `eof`. */
  function LexAll(src: string, c: Cursor): seq<Token>
    requires CursorIn(src, c)
    decreases |src| - c.pos
  {
    var l := Next(src, c);
    if l.token.tag == Eof then [] else [l.token] + LexAll(src, l.cursor)
  }

  /** At the end of the text `next()` yields `eof` at the cursor and leaves the cursor alone, so every later call yields it again. */
  lemma EofIsSticky(src: string, c: Cursor)
    requires c.pos == |src|
    ensures Next(src, c) == Lexed(Token(Eof, |src|, 1, -1, -1), c)
    ensures Next(src, Next(src, c).cursor) == Next(src, c)
  {
  }

  /** A character no scan starts on. */
  predicate Unrecognised(ch: char) {
    ch !in {'(', ')', '[', ']', '"', '#'} && !MatchSpacing(ch) && !MatchAlphabetic(ch) && !MatchOpSymbol(ch) && !MatchDigit(ch)
  }

  /** Brackets give one-character tokens of their own kind, and an unrecognised character a one-character `unknown`. */
  lemma SingleCharacterTokens(src: string, c: Cursor)
    requires 0 <= c.pos < |src|
    requires src[c.pos] in {'(', ')', '[', ']'} || Unrecognised(src[c.pos])
    ensures var t := Next(src, c).token;
      && t.begin == c.pos && t.length == 1 && Next(src, c).cursor.pos == c.pos + 1
      && (src[c.pos] == '(' <==> t.tag == LeftParen)
      && (src[c.pos] == ')' <==> t.tag == RightParen)
      && (src[c.pos] == '[' <==> t.tag == LeftBracket)
      && (src[c.pos] == ']' <==> t.tag == RightBracket)
      && (Unrecognised(src[c.pos]) <==> t.tag == Unknown)
  {
  }

  /**
   * The dispatch of `next()` on the first character: the brackets, the quote
   * and `#` are checked before the character classes, and spacing before
   * words and numbers.
   */
  lemma NextDispatch(src: string, c: Cursor)
    requires 0 <= c.pos < |src|
    ensures MatchSpacing(src[c.pos]) ==> Next(src, c) == ScanSpacing(src, c)
    ensures MatchAlphabetic(src[c.pos]) || MatchOpSymbol(src[c.pos]) ==> Next(src, c) == ScanWord(src, c)
    ensures MatchDigit(src[c.pos]) ==> Next(src, c) == ScanNumber(src, c)
    ensures src[c.pos] == '"' ==> Next(src, c) == ScanString(src, c)
    ensures src[c.pos] == '#' ==> Next(src, c) == ScanBoolean(src, c)
  {
    ClassesDisjoint(src[c.pos]);
  }

  /** The run class that `next()` scans when the text at the cursor starts with `ch`, if any. */
  function RunStartedBy(ch: char): (r: Run)
    requires MatchSpacing(ch) || MatchAlphabetic(ch) || MatchOpSymbol(ch) || MatchDigit(ch)
    ensures InRun(r, ch)
  {
    if MatchSpacing(ch) then SpacingRun else if MatchDigit(ch) then NumberRun else WordRun
  }

  /**
   * Spacing, word and number tokens span the maximal run of their class that
   * starts at the cursor: the token begins at the cursor, holds at least one
   * character, every character in it is of the class, the one after it is not,
   * and the cursor moves on by exactly the token's length.
   */
  lemma {:induction false} RunTokensAreMaximal(src: string, c: Cursor)
    requires 0 <= c.pos < |src|
    requires MatchSpacing(src[c.pos]) || MatchAlphabetic(src[c.pos]) || MatchOpSymbol(src[c.pos]) || MatchDigit(src[c.pos])
    ensures var l := Next(src, c); var k := RunStartedBy(src[c.pos]);
      && l.token.begin == c.pos && 1 <= l.token.length
      && l.cursor.pos == c.pos + l.token.length <= |src|
      && AllInRun(src, c.pos, c.pos + l.token.length, k)
      && (c.pos + l.token.length == |src| || !InRun(k, src[c.pos + l.token.length]))
      && CreateTokenSv(l.token, src) == src[c.pos..c.pos + l.token.length]
  {
    var k := RunStartedBy(src[c.pos]);
    RunLengthIsMaximal(src, c.pos, k);
    NextDispatch(src, c);
  }

  /** A word is `special_name` exactly when its text is in the keyword table, and `identifier_name` otherwise. */
  lemma WordClassification(src: string, c: Cursor)
    requires 0 <= c.pos < |src|
    requires MatchAlphabetic(src[c.pos]) || MatchOpSymbol(src[c.pos])
    ensures var t := Next(src, c).token;
      && (t.tag == SpecialName <==> CreateTokenSv(t, src) in Keywords)
      && (t.tag == IdentifierName <==> CreateTokenSv(t, src) !in Keywords)
  {
    NextDispatch(src, c);
  }

  /**
   * `!` is not a word character, so the keyword `let!` is never lexed as a
   * `special_name`: no call of `next()` yields a token with that text.
   */
  lemma NoTokenReadsLetBang(src: string, c: Cursor)
    requires CursorIn(src, c)
    ensures var t := Next(src, c).token; t.tag == SpecialName ==> CreateTokenSv(t, src) in Keywords - {"let!"}
  {
    var t := Next(src, c).token;
    if t.tag == SpecialName {
      assert c.pos < |src| && (MatchAlphabetic(src[c.pos]) || MatchOpSymbol(src[c.pos]));
      RunTokensAreMaximal(src, c);
    }
  }

  /** A number with no dot is exact, with one dot real, and with two or more `unknown`. */
  lemma NumberClassification(src: string, c: Cursor)
    requires 0 <= c.pos < |src| && MatchDigit(src[c.pos])
    ensures var t := Next(src, c).token; var dots := CountIn(src, t.begin, t.begin + t.length, '.');
      && t.begin + t.length <= |src|
      && (t.tag == LiteralNumberExact <==> dots == 0)
      && (t.tag == LiteralNumberReal <==> dots == 1)
      && (t.tag == Unknown <==> dots >= 2)
  {
    NextDispatch(src, c);
  }

  /**
   * A boolean token begins after the `#`, reports length 2, and is true for
   * `t`, false for `f` and `unknown` otherwise; the cursor moves on by two,
   * or stops at the end of the text when the `#` was the last character.
   */
  lemma BooleanScan(src: string, c: Cursor)
    requires 0 <= c.pos < |src| && src[c.pos] == '#'
    ensures var l := Next(src, c);
      && l.token.begin == c.pos + 1 && l.token.length == 2
      && l.cursor.pos == (if c.pos + 2 <= |src| then c.pos + 2 else |src|)
      && (l.token.tag == LiteralBooleanTrue <==> CharAt(src, c.pos + 1) == 't')
      && (l.token.tag == LiteralBooleanFalse <==> CharAt(src, c.pos + 1) == 'f')
      && (l.token.tag == Unknown <==> CharAt(src, c.pos + 1) !in {'t', 'f'})
  {
  }

  /**
   * A string token begins after the opening quote and holds no quote. It is a
   * `literal_string` exactly when the scan stopped at a closing quote, which
   * the cursor then skips; otherwise it runs to the end of the text and is
   * `unknown`.
   */
  lemma {:induction false} StringScan(src: string, c: Cursor)
    requires 0 <= c.pos < |src| && src[c.pos] == '"'
    ensures var l := Next(src, c); var e := l.token.begin + l.token.length;
      && l.token.begin == c.pos + 1 && e <= |src|
      && (forall i :: l.token.begin <= i < e ==> src[i] != '"')
      && (l.token.tag == LiteralString <==> e < |src| && src[e] == '"' && l.cursor.pos == e + 1)
      && (l.token.tag == Unknown <==> e == |src| && l.cursor.pos == |src|)
  {
    RunLengthIsMaximal(src, c.pos + 1, StringBodyRun);
  }

  /** As written, a properly closed string still lexes as `unknown`; with `closed` set it is a `literal_string`. */
  lemma ClosedStringIsUnknownAsWritten()
    ensures ScanStringAsWritten("\"a\"", Start).cursor.pos == 3 && StringClosed("\"a\"", Start)
    ensures ScanStringAsWritten("\"a\"", Start).token.tag == Unknown
    ensures ScanString("\"a\"", Start).token.tag == LiteralString
  {
    assert RunLength("\"a\"", 1, StringBodyRun) == 1 by {
      assert RunLength("\"a\"", 2, StringBodyRun) == 0;
    }
  }

  /**
   * As written, a `#` at the very end moves the cursor one past the end; the
   * `eof` token that follows then begins past the end, and slicing it (which
   * the parser does, for instance for the name after `define`) throws inside a
   * `noexcept` function. The kept-in-bounds scan stops at the end.
   */
  lemma TrailingHashOverrunsAsWritten()
    ensures ScanBooleanAsWritten("#", Start).cursor.pos == 2
    ensures !SliceableIn(EofToken(ScanBooleanAsWritten("#", Start).cursor), "#")
    ensures Next("#", Start).cursor.pos == 1 && SliceableIn(Next("#", Next("#", Start).cursor).token, "#")
  {
  }
}
