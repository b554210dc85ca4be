/**
 The lexical syntax of the language, spelled out character by character and word by word. Nothing
 here is used by the scanner or the parser: it is what they are measured against.
 */
module LexicalSyntax {

  predicate WhiteSpace(c: char) {
    c in {' ', '\t', '\n', '\U{000B}', '\U{000C}', '\r'}
  }

  predicate DecimalDigit(c: char) {
    '0' <= c <= '9'
  }

  predicate BinaryDigit(c: char) {
    c == '0' || c == '1'
  }

  predicate OctalDigit(c: char) {
    '0' <= c <= '7'
  }

  predicate HexDigit(c: char) {
    '0' <= c <= '9' || 'a' <= c <= 'f' || 'A' <= c <= 'F'
  }

  /** What a word begins with. */
  predicate WordStart(c: char) {
    'a' <= c <= 'z' || 'A' <= c <= 'Z' || c == '_'
  }

  predicate WordPart(c: char) {
    'a' <= c <= 'z' || 'A' <= c <= 'Z' || c == '_' || '0' <= c <= '9'
  }

  predicate SuffixLetter(c: char) {
    c in {'u', 'U', 'l', 'L', 'f', 'F'}
  }

  predicate Punctuator(c: char) {
    c in {'+', '-', '*', '/', '=', ';', '(', ')', '{', '}', '[', ']', '<', '>', ',', '.', '&', '|', '^', '!', '~', '%',
          '?', ':', '#'}
  }

  /** The characters of which a source consists. */
  predicate Alphabet(c: char) {
    WhiteSpace(c) || WordPart(c) || Punctuator(c)
  }

  predicate KeywordText(x: string) {
    x in {"int", "long", "bool", "short", "float", "double", "return", "if", "else", "while", "for", "void"}
  }

  predicate TypeText(x: string) {
    x in {"int", "float", "double", "long", "short", "bool", "void"}
  }

  predicate Blank(gap: string) {
    forall i | 0 <= i < |gap| :: WhiteSpace(gap[i])
  }

  /** A word that is no keyword. */
  predicate IdentifierText(x: string) {
    x != "" && WordStart(x[0]) && (forall i | 0 <= i < |x| :: WordPart(x[i])) && !KeywordText(x)
  }
}
