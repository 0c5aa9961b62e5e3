/**
 * The lexer as the source writes it: an object over the source text whose
 * position, line and column each scan advances in place (lexer.cpp). Every
 * method is proved to leave the object exactly where the pure specification
 * in `LexSpec` says, and to return the token it says.
 */
module Lexing {
  import opened LexicalMatchers
  import opened Tokens
  import opened LexSpec

  class Lexer {
    const src: string
    var specialForms: set<string>
    var pos: int
    const end: int
    var line: int
    var column: int

    ghost predicate Valid()
      reads this
    {
      end == |src| && 0 <= pos <= end && specialForms == Keywords
    }

    /** The lexer's position, line and column. */
    function Location(): Cursor
      reads this
    {
      Cursor(pos, line, column)
    }

    /** A lexer at the start of `source`, with the special forms of the keyword table collected. */
    constructor (source: string)
      ensures Valid() && src == source && Location() == Start
    {
      src := source;
      end := |source|;
      pos, line, column := 0, 1, 1;
      specialForms := {};
      new;
      var i := 0;
      while i < |Entries|
        invariant 0 <= i <= |Entries|
        invariant specialForms == SpecialFormsUpTo(i)
        invariant pos == 0 && line == 1 && column == 1
      {
        if Entries[i].role == SpecialForm {
          specialForms := specialForms + {Entries[i].text};
        }
        i := i + 1;
      }
    }

    predicate AtEnd()
      reads this
    {
      pos >= end
    }

    method UpdateSourceLocation(c: char)
      modifies this`line, this`column
      ensures Location() == Relocate(old(Location()), c)
    {
      if c == '\n' {
        line := line + 1;
        column := 1;
      } else {
        column := column + 1;
      }
    }

    /** One token; at the end of the text, `eof` without moving. */
    method Next() returns (t: Token)
      requires Valid()
      modifies this`pos, this`line, this`column
      ensures Valid() && Lexed(t, Location()) == LexSpec.Next(src, old(Location()))
    {
      if AtEnd() {
        return Token(Eof, pos, 1, -1, -1);
      }
      var peeked := src[pos];
      if peeked == '(' {
        t := LexSingle(LeftParen);
      } else if peeked == ')' {
        t := LexSingle(RightParen);
      } else if peeked == '[' {
        t := LexSingle(LeftBracket);
      } else if peeked == ']' {
        t := LexSingle(RightBracket);
      } else if peeked == '"' {
        t := LexString();
      } else if peeked == '#' {
        t := LexBoolean();
      } else if MatchSpacing(peeked) {
        t := LexSpacing();
      } else if MatchAlphabetic(peeked) || MatchOpSymbol(peeked) {
        t := LexWord();
      } else if MatchDigit(peeked) {
        t := LexNumber();
      } else {
        t := LexSingle(Unknown);
      }
    }

    method LexSingle(tag: TokenTag) returns (t: Token)
      requires Valid() && pos < end
      modifies this`pos, this`line, this`column
      ensures Valid() && Lexed(t, Location()) == ScanSingle(src, old(Location()), tag)
    {
      var begin := pos;
      var col1 := column;
      UpdateSourceLocation(src[pos]);
      pos := pos + 1;
      t := Token(tag, begin, 1, line, col1);
    }

    method LexSpacing() returns (t: Token)
      requires Valid() && pos < end
      modifies this`pos, this`line, this`column
      ensures Valid() && Lexed(t, Location()) == ScanSpacing(src, old(Location()))
    {
      var begin, length, line1, col1 := pos, 0, line, column;
      while !AtEnd()
        invariant Valid() && pos == begin + length
        invariant Location() == Walk(src, Cursor(begin, line1, col1), length)
        invariant AllInRun(src, begin, pos, SpacingRun)
        decreases end - pos
      {
        var temp := src[pos];
        if !MatchSpacing(temp) {
          break;
        }
        UpdateSourceLocation(temp);
        length := length + 1;
        pos := pos + 1;
      }
      RunLengthExact(src, begin, length, SpacingRun);
      t := Token(Spacing, begin, length, line1, col1);
    }

    method LexWord() returns (t: Token)
      requires Valid() && pos < end
      modifies this`pos, this`line, this`column
      ensures Valid() && Lexed(t, Location()) == ScanWord(src, old(Location()))
    {
      var begin, length, line1, col1 := pos, 0, line, column;
      while !AtEnd()
        invariant Valid() && pos == begin + length
        invariant Location() == Walk(src, Cursor(begin, line1, col1), length)
        invariant AllInRun(src, begin, pos, WordRun)
        decreases end - pos
      {
        var temp := src[pos];
        if !MatchAlphabetic(temp) && !MatchDigit(temp) && !MatchOpSymbol(temp) {
          break;
        }
        UpdateSourceLocation(temp);
        length := length + 1;
        pos := pos + 1;
      }
      RunLengthExact(src, begin, length, WordRun);
      var lexeme := src[begin..begin + length];
      if lexeme in specialForms {
        return Token(SpecialName, begin, length, line1, col1);
      }
      return Token(IdentifierName, begin, length, line1, col1);
    }

    /** The `#` case, kept inside the text when the `#` is its last character. */
    method LexBoolean() returns (t: Token)
      requires Valid() && pos < end
      modifies this`pos, this`line, this`column
      ensures Valid() && Lexed(t, Location()) == ScanBoolean(src, old(Location()))
    {
      UpdateSourceLocation(src[pos]);
      pos := pos + 1;
      var begin, kind, line1, col1 := pos, false, line, column;
      var ch := CharAt(src, pos);
      UpdateSourceLocation(ch);
      if ch == 't' {
        kind := true;
      } else if ch == 'f' {
      } else {
        if pos < end {
          pos := pos + 1;
        }
        return Token(Unknown, begin, 2, line1, col1);
      }
      pos := pos + 1;
      t := Token(if kind then LiteralBooleanTrue else LiteralBooleanFalse, begin, 2, line1, col1);
    }

    method LexNumber() returns (t: Token)
      requires Valid() && pos < end
      modifies this`pos, this`line, this`column
      ensures Valid() && Lexed(t, Location()) == ScanNumber(src, old(Location()))
    {
      var begin, length, dots, line1, col1 := pos, 0, 0, line, column;
      while !AtEnd()
        invariant Valid() && pos == begin + length
        invariant Location() == Walk(src, Cursor(begin, line1, col1), length)
        invariant AllInRun(src, begin, pos, NumberRun)
        invariant dots == CountIn(src, begin, pos, '.')
        decreases end - pos
      {
        var temp := src[pos];
        if !MatchDigit(temp) && temp != '.' {
          break;
        }
        if temp == '.' {
          dots := dots + 1;
        }
        UpdateSourceLocation(temp);
        length := length + 1;
        pos := pos + 1;
      }
      RunLengthExact(src, begin, length, NumberRun);
      var tag := Unknown;
      if dots == 0 {
        tag := LiteralNumberExact;
      } else if dots == 1 {
        tag := LiteralNumberReal;
      }
      t := Token(tag, begin, length, line1, col1);
    }

    /** The string case, with `closed` set when the closing quote is consumed. */
    method LexString() returns (t: Token)
      requires Valid() && pos < end
      modifies this`pos, this`line, this`column
      ensures Valid() && Lexed(t, Location()) == ScanString(src, old(Location()))
    {
      pos := pos + 1;
      UpdateSourceLocation(CharAt(src, pos));
      var begin, length, line1, col1 := pos, 0, line, column;
      var closed := false;
      while !AtEnd()
        invariant Valid() && pos == begin + length && !closed
        invariant Location() == Walk(src, Cursor(begin, line1, col1), length)
        invariant AllInRun(src, begin, pos, StringBodyRun)
        decreases end - pos
      {
        var temp := src[pos];
        if temp == '"' {
          RunLengthExact(src, begin, length, StringBodyRun);
          pos := pos + 1;
          closed := true;
          break;
        }
        UpdateSourceLocation(temp);
        length := length + 1;
        pos := pos + 1;
      }
      if !closed {
        RunLengthExact(src, begin, length, StringBodyRun);
      }
      t := Token(if closed then LiteralString else Unknown, begin, length, line1, col1);
    }
  }
}
