/** The character classes the lexer dispatches on (LexicalMatchers in lexer.hpp). */
module LexicalMatchers {

  /** Space, tab, line feed or carriage return. */
  predicate MatchSpacing(c: char) {
    c == ' ' || c == '\t' || c == '\n' || c == '\r'
  }

  /** Latin letters and the underscore. */
  predicate MatchAlphabetic(c: char) {
    ('A' <= c <= 'Z') || ('a' <= c <= 'z') || c == '_'
  }

  /** Decimal digits. */
  predicate MatchDigit(c: char) {
    '0' <= c <= '9'
  }

  /** The arithmetic operator symbols that may start or continue a word. */
  predicate MatchOpSymbol(c: char) {
    c == '+' || c == '-' || c == '*' || c == '/' || c == '%'
  }

  /** The two marks that open a boolean or a string literal. */
  predicate MatchValueMark(c: char) {
    c == '#' || c == '"'
  }

  /** The explicit membership sets of the five classes. */
  const SpacingChars: set<char> := {' ', '\t', '\n', '\r'}
  const OpSymbols: set<char> := {'+', '-', '*', '/', '%'}
  const ValueMarks: set<char> := {'#', '"'}

  /** Each matcher accepts exactly the characters of its class. */
  lemma MatchersAreTheirClasses(c: char)
    ensures MatchSpacing(c) <==> c in SpacingChars
    ensures MatchOpSymbol(c) <==> c in OpSymbols
    ensures MatchValueMark(c) <==> c in ValueMarks
    ensures MatchDigit(c) <==> c as int - '0' as int in {0, 1, 2, 3, 4, 5, 6, 7, 8, 9}
    ensures MatchAlphabetic(c) <==> c == '_' || 0 <= c as int - 'A' as int < 26 || 0 <= c as int - 'a' as int < 26
  {
  }

  /**
   * The spacing, alphabetic, digit and operator classes are pairwise disjoint,
   * and none of them contains a value mark or a bracket, so the dispatch of
   * `next` on the first character is unambiguous.
   */
  lemma ClassesDisjoint(c: char)
    ensures MatchSpacing(c) ==> !MatchAlphabetic(c) && !MatchDigit(c) && !MatchOpSymbol(c)
    ensures MatchAlphabetic(c) ==> !MatchDigit(c) && !MatchOpSymbol(c)
    ensures MatchDigit(c) ==> !MatchOpSymbol(c)
    ensures MatchValueMark(c) ==> !MatchSpacing(c) && !MatchAlphabetic(c) && !MatchDigit(c) && !MatchOpSymbol(c)
    ensures c in {'(', ')', '[', ']'} ==> !MatchSpacing(c) && !MatchAlphabetic(c) && !MatchDigit(c) && !MatchOpSymbol(c)
  {
  }
}
