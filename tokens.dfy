/** Tokens shared by the tokenizer and the parser (prolang/lexer.cpp and
    prolang/parser.cpp declare the same enum and struct). */
module Tokens {

  /** The five token classes. */
  datatype TokenType = Keyword | Identifier | Number | Symbol | EndOfFile

  /** A classified lexeme: its class and the exact text it was scanned from. */
  datatype Token = Token(kind: TokenType, text: string)

  /** The END_OF_FILE sentinel that closes every token sequence. */
  const Eof: Token := Token(EndOfFile, "")

  /** Regrouping a concatenation of token sequences. */
  lemma AppendAssoc(a: seq<Token>, b: seq<Token>, c: seq<Token>)
    ensures a + (b + c) == (a + b) + c
  {
  }
}
