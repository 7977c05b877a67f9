/** The tokenizer of prolang/lexer.cpp: one left-to-right pass over the
    source text with a cursor `pos`, turning words, digit runs and single
    punctuation characters into tokens and closing the sequence with the
    END_OF_FILE sentinel.

    `LexFrom` is the specification of the scan from a cursor position; the
    class `Lexer` holds the source's loops and is proved against it; the
    lemmas state what the token sequence promises. */
module Lexer {
  import opened Tokens

  // ---------------------------------------------------------------------
  // Character classes: the <cctype> predicates in the "C" locale, on ASCII.
  // ---------------------------------------------------------------------

  /** isspace: blank, tab, newline, vertical tab, form feed, carriage return. */
  predicate IsSpace(c: char) {
    c == ' ' || ('\t' <= c <= '\r')
  }

  predicate IsAlpha(c: char) {
    ('a' <= c <= 'z') || ('A' <= c <= 'Z')
  }

  predicate IsDigit(c: char) {
    '0' <= c <= '9'
  }

  predicate IsAlnum(c: char) {
    IsAlpha(c) || IsDigit(c)
  }

  /** ispunct: the printable characters that are neither alphanumeric nor blank. */
  predicate IsPunct(c: char) {
    ('!' <= c <= '/') || (':' <= c <= '@') || ('[' <= c <= '`') || ('{' <= c <= '~')
  }

  /** The reserved words the constructor installs. */
  const Keywords: set<string> := {"def", "int", "if", "else", "return", "while", "elif"}

  // ---------------------------------------------------------------------
  // Lexeme shapes
  // ---------------------------------------------------------------------

  /** A word: a letter followed by letters and digits. */
  predicate IsWordText(w: string) {
    |w| > 0 && IsAlpha(w[0]) && forall k :: 0 <= k < |w| ==> IsAlnum(w[k])
  }

  /** A non-empty run of decimal digits. */
  predicate IsDigitText(w: string) {
    |w| > 0 && forall k :: 0 <= k < |w| ==> IsDigit(w[k])
  }

  /** What each class of token looks like when the tokenizer produced it. */
  predicate WellFormed(t: Token) {
    match t.kind
    case Keyword => IsWordText(t.text) && t.text in Keywords
    case Identifier => IsWordText(t.text) && t.text !in Keywords
    case Number => IsDigitText(t.text)
    case Symbol => |t.text| == 1 && IsPunct(t.text[0])
    case EndOfFile => t.text == ""
  }

  /** A character that ends up in some token's text. */
  predicate Visible(c: char) {
    IsAlnum(c) || IsPunct(c)
  }

  // ---------------------------------------------------------------------
  // Specification of the scan
  // ---------------------------------------------------------------------

  /** Keyword when the word is reserved, Identifier otherwise. */
  function WordToken(text: string): Token {
    Token(if text in Keywords then Keyword else Identifier, text)
  }

  /** End of the maximal alphanumeric run starting at `i`. */
  function WordEnd(s: string, i: nat): (j: nat)
    requires i <= |s|
    ensures i <= j <= |s|
    ensures forall k :: i <= k < j ==> IsAlnum(s[k])
    ensures j == |s| || !IsAlnum(s[j])
    decreases |s| - i
  {
    if i < |s| && IsAlnum(s[i]) then WordEnd(s, i + 1) else i
  }

  /** End of the maximal digit run starting at `i`. */
  function DigitEnd(s: string, i: nat): (j: nat)
    requires i <= |s|
    ensures i <= j <= |s|
    ensures forall k :: i <= k < j ==> IsDigit(s[k])
    ensures j == |s| || !IsDigit(s[j])
    decreases |s| - i
  {
    if i < |s| && IsDigit(s[i]) then DigitEnd(s, i + 1) else i
  }

  /** The tokens (END_OF_FILE excluded) that the scan emits from cursor `i` on. */
  function LexFrom(s: string, i: nat): seq<Token>
    requires i <= |s|
    decreases |s| - i
  {
    if i == |s| then []
    else if IsSpace(s[i]) then LexFrom(s, i + 1)
    else if IsAlpha(s[i]) then
      var j := WordEnd(s, i);
      [WordToken(s[i..j])] + LexFrom(s, j)
    else if IsDigit(s[i]) then
      var j := DigitEnd(s, i);
      [Token(Number, s[i..j])] + LexFrom(s, j)
    else if IsPunct(s[i]) then
      [Token(Symbol, [s[i]])] + LexFrom(s, i + 1)
    else LexFrom(s, i + 1)
  }

  /** The whole token sequence for a source text. */
  function Lex(s: string): seq<Token> {
    LexFrom(s, 0) + [Eof]
  }

  /** The texts of a token sequence, concatenated. */
  function Texts(ts: seq<Token>): string {
    if ts == [] then "" else ts[0].text + Texts(ts[1..])
  }

  /** The source with every character dropped that is neither alphanumeric nor punctuation. */
  function Kept(s: string): string {
    if s == [] then "" else (if Visible(s[0]) then [s[0]] else "") + Kept(s[1..])
  }

  // ---------------------------------------------------------------------
  // The tokenizer object
  // ---------------------------------------------------------------------

  class Lexer {
    const input: string
    const keywords: set<string>
    var pos: nat

    ghost predicate Valid()
      reads this
    {
      pos <= |input| && keywords == Keywords
    }

    constructor (input: string)
      ensures Valid() && this.input == input && pos == 0
    {
      this.input := input;
      this.keywords := {"def", "int", "if", "else", "return", "while", "elif"};
      this.pos := 0;
    }

    /** Consumes the maximal alphanumeric run at the cursor. */
    method ParseIdentifierOrKeyword() returns (t: Token)
      requires Valid()
      modifies this
      ensures Valid()
      ensures old(pos) <= pos
      ensures forall k :: old(pos) <= k < pos ==> IsAlnum(input[k])
      ensures pos == |input| || !IsAlnum(input[pos])
      ensures t == WordToken(input[old(pos)..pos])
    {
      var startPos := pos;
      while pos < |input| && IsAlnum(input[pos])
        invariant startPos <= pos <= |input|
        invariant WordEnd(input, pos) == WordEnd(input, startPos)
        decreases |input| - pos
      {
        pos := pos + 1;
      }
      var identifier := input[startPos..pos];
      if identifier in keywords {
        t := Token(Keyword, identifier);
      } else {
        t := Token(Identifier, identifier);
      }
    }

    /** Consumes the maximal digit run at the cursor. */
    method ParseNumber() returns (t: Token)
      requires Valid()
      modifies this
      ensures Valid()
      ensures old(pos) <= pos
      ensures forall k :: old(pos) <= k < pos ==> IsDigit(input[k])
      ensures pos == |input| || !IsDigit(input[pos])
      ensures t == Token(Number, input[old(pos)..pos])
    {
      var startPos := pos;
      while pos < |input| && IsDigit(input[pos])
        invariant startPos <= pos <= |input|
        invariant DigitEnd(input, pos) == DigitEnd(input, startPos)
        decreases |input| - pos
      {
        pos := pos + 1;
      }
      t := Token(Number, input[startPos..pos]);
    }

    /** Consumes the one character at the cursor as a Symbol. */
    method ParseSymbol() returns (t: Token)
      requires Valid() && pos < |input|
      modifies this
      ensures Valid()
      ensures pos == old(pos) + 1
      ensures t == Token(Symbol, [input[old(pos)]])
    {
      var symbol := input[pos];
      pos := pos + 1;
      t := Token(Symbol, [symbol]);
    }

    /** Scans from the cursor to the end of the input. */
    method Tokenize() returns (tokens: seq<Token>)
      requires Valid()
      modifies this
      ensures Valid() && pos == |input|
      ensures tokens == LexFrom(input, old(pos)) + [Eof]
    {
      tokens := [];
      ghost var start := pos;
      while pos < |input|
        invariant Valid() && start <= pos
        invariant tokens + LexFrom(input, pos) == LexFrom(input, start)
        decreases |input| - pos
      {
        var currentChar := input[pos];
        ghost var before := pos;
        if IsSpace(currentChar) {
          pos := pos + 1;
        } else if IsAlpha(currentChar) {
          var t := ParseIdentifierOrKeyword();
          WordEndIs(input, before, pos);
          assert LexFrom(input, before) == [t] + LexFrom(input, pos);
          AppendAssoc(tokens, [t], LexFrom(input, pos));
          tokens := tokens + [t];
        } else if IsDigit(currentChar) {
          var t := ParseNumber();
          DigitEndIs(input, before, pos);
          assert LexFrom(input, before) == [t] + LexFrom(input, pos);
          AppendAssoc(tokens, [t], LexFrom(input, pos));
          tokens := tokens + [t];
        } else if IsPunct(currentChar) {
          var t := ParseSymbol();
          assert LexFrom(input, before) == [t] + LexFrom(input, pos);
          AppendAssoc(tokens, [t], LexFrom(input, pos));
          tokens := tokens + [t];
        } else {
          pos := pos + 1;
        }
      }
      tokens := tokens + [Eof];
    }
  }

  /** Runs the tokenizer on a fresh object, as the driver does. */
  method Tokenize(input: string) returns (tokens: seq<Token>)
    ensures tokens == Lex(input)
  {
    var lexer := new Lexer(input);
    tokens := lexer.Tokenize();
  }

  // ---------------------------------------------------------------------
  // Properties of the scan
  // ---------------------------------------------------------------------

  /** A run of alphanumerics from `i` to a non-alphanumeric (or the end) is the maximal one. */
  lemma {:induction false} WordEndIs(s: string, i: nat, j: nat)
    requires i <= j <= |s|
    requires forall k :: i <= k < j ==> IsAlnum(s[k])
    requires j == |s| || !IsAlnum(s[j])
    ensures WordEnd(s, i) == j
    decreases j - i
  {
    if i < j {
      WordEndIs(s, i + 1, j);
    }
  }

  /** A run of digits from `i` to a non-digit (or the end) is the maximal one. */
  lemma {:induction false} DigitEndIs(s: string, i: nat, j: nat)
    requires i <= j <= |s|
    requires forall k :: i <= k < j ==> IsDigit(s[k])
    requires j == |s| || !IsDigit(s[j])
    ensures DigitEnd(s, i) == j
    decreases j - i
  {
    if i < j {
      DigitEndIs(s, i + 1, j);
    }
  }

  /** The scan from `i` emits at most one token per remaining character,
      every token is well formed and none is END_OF_FILE. */
  lemma {:induction false} LexFromShape(s: string, i: nat)
    requires i <= |s|
    ensures |LexFrom(s, i)| <= |s| - i
    ensures forall k :: 0 <= k < |LexFrom(s, i)| ==>
              WellFormed(LexFrom(s, i)[k]) && LexFrom(s, i)[k].kind != EndOfFile
    decreases |s| - i
  {
    if i == |s| {
    } else if IsSpace(s[i]) {
      LexFromShape(s, i + 1);
    } else if IsAlpha(s[i]) {
      var j := WordEnd(s, i);
      LexFromShape(s, j);
      assert IsWordText(s[i..j]);
    } else if IsDigit(s[i]) {
      var j := DigitEnd(s, i);
      LexFromShape(s, j);
      assert IsDigitText(s[i..j]);
    } else if IsPunct(s[i]) {
      LexFromShape(s, i + 1);
    } else {
      LexFromShape(s, i + 1);
    }
  }

  /** The sequence is never empty, ends with END_OF_FILE with empty text,
      and has no other END_OF_FILE. */
  lemma LexEndsWithEof(s: string)
    ensures |Lex(s)| > 0 && Lex(s)[|Lex(s)| - 1] == Eof
    ensures forall k :: 0 <= k < |Lex(s)| - 1 ==> Lex(s)[k].kind != EndOfFile
  {
    LexFromShape(s, 0);
  }

  /** Each loop iteration advances the cursor, so there are at most as many
      tokens before END_OF_FILE as characters. */
  lemma LexLength(s: string)
    ensures |Lex(s)| <= |s| + 1
  {
    LexFromShape(s, 0);
  }

  /** Every token the tokenizer emits has the shape of its class. */
  lemma LexWellFormed(s: string)
    ensures forall k :: 0 <= k < |Lex(s)| ==> WellFormed(Lex(s)[k])
  {
    LexFromShape(s, 0);
  }

  /** A word token is a Keyword exactly when its text is reserved. */
  lemma LexKeywordIffReserved(s: string)
    ensures forall k :: 0 <= k < |Lex(s)| && Lex(s)[k].kind in {Keyword, Identifier} ==>
              (Lex(s)[k].kind == Keyword <==> Lex(s)[k].text in Keywords)
  {
    LexFromShape(s, 0);
  }

  /** Keyword and Identifier texts are non-empty, start with a letter and are alphanumeric. */
  lemma LexWordTokens(s: string)
    ensures forall k :: 0 <= k < |Lex(s)| && Lex(s)[k].kind in {Keyword, Identifier} ==>
              IsWordText(Lex(s)[k].text)
  {
    LexFromShape(s, 0);
  }

  /** Number texts are non-empty digit strings. */
  lemma LexNumberTokens(s: string)
    ensures forall k :: 0 <= k < |Lex(s)| && Lex(s)[k].kind == Number ==>
              IsDigitText(Lex(s)[k].text)
  {
    LexFromShape(s, 0);
  }

  /** Symbol texts are exactly one punctuation character. */
  lemma LexSymbolTokens(s: string)
    ensures forall k :: 0 <= k < |Lex(s)| && Lex(s)[k].kind == Symbol ==>
              |Lex(s)[k].text| == 1 && IsPunct(Lex(s)[k].text[0])
  {
    LexFromShape(s, 0);
  }

  /** No token text is a two-character shift operator. */
  lemma LexHasNoShiftTokens(s: string)
    ensures forall k :: 0 <= k < |Lex(s)| ==> Lex(s)[k].text != "<<" && Lex(s)[k].text != ">>"
  {
    LexFromShape(s, 0);
    forall k | 0 <= k < |Lex(s)|
      ensures Lex(s)[k].text != "<<" && Lex(s)[k].text != ">>"
    {
      var t := Lex(s)[k];
      assert WellFormed(t);
      if t.kind == Keyword || t.kind == Identifier {
        assert IsAlpha(t.text[0]);
      } else if t.kind == Number {
        assert IsDigit(t.text[0]);
      }
    }
  }

  lemma {:induction false} TextsAppend(a: seq<Token>, b: seq<Token>)
    ensures Texts(a + b) == Texts(a) + Texts(b)
  {
    if a == [] {
      assert a + b == b;
    } else {
      assert (a + b)[1..] == a[1..] + b;
      TextsAppend(a[1..], b);
    }
  }

  /** A run of visible characters is kept whole. */
  lemma {:induction false} KeptRun(s: string, i: nat, j: nat)
    requires i <= j <= |s|
    requires forall k :: i <= k < j ==> Visible(s[k])
    ensures Kept(s[i..]) == s[i..j] + Kept(s[j..])
    decreases j - i
  {
    if i < j {
      assert s[i..][1..] == s[i + 1..];
      KeptRun(s, i + 1, j);
      assert s[i..j] == [s[i]] + s[i + 1..j];
    }
  }

  /** The scan from `i` loses exactly the characters that are not visible. */
  lemma {:induction false} LexFromTexts(s: string, i: nat)
    requires i <= |s|
    ensures Texts(LexFrom(s, i)) == Kept(s[i..])
    decreases |s| - i
  {
    if i == |s| {
    } else {
      assert s[i..][1..] == s[i + 1..];
      if IsSpace(s[i]) || !(IsAlpha(s[i]) || IsDigit(s[i]) || IsPunct(s[i])) {
        LexFromTexts(s, i + 1);
      } else if IsAlpha(s[i]) {
        var j := WordEnd(s, i);
        LexFromTexts(s, j);
        KeptRun(s, i, j);
      } else if IsDigit(s[i]) {
        var j := DigitEnd(s, i);
        LexFromTexts(s, j);
        KeptRun(s, i, j);
      } else {
        LexFromTexts(s, i + 1);
        KeptRun(s, i, i + 1);
      }
    }
  }

  /** Concatenating all token texts gives the input minus its whitespace and
      unrecognised characters. */
  lemma LexTexts(s: string)
    ensures Texts(Lex(s)) == Kept(s)
  {
    LexFromTexts(s, 0);
    TextsAppend(LexFrom(s, 0), [Eof]);
    assert s[0..] == s;
  }

  // ---------------------------------------------------------------------
  // Writing tokens back out
  // ---------------------------------------------------------------------

  /** Token texts separated by single blanks. */
  function Render(ts: seq<Token>): string {
    if |ts| == 0 then ""
    else if |ts| == 1 then ts[0].text
    else ts[0].text + " " + Render(ts[1..])
  }

  /** A token the scan can emit: well formed and not END_OF_FILE. */
  predicate Scannable(t: Token) {
    WellFormed(t) && t.kind != EndOfFile
  }

  /** From a word that ends at a blank or at the end of the input, the scan
      emits that word's token and continues after it. */
  lemma WordTokenAt(s: string, i: nat, t: Token)
    requires Scannable(t) && (t.kind == Keyword || t.kind == Identifier)
    requires i + |t.text| <= |s| && s[i..i + |t.text|] == t.text
    requires i + |t.text| == |s| || s[i + |t.text|] == ' '
    ensures LexFrom(s, i) == [t] + LexFrom(s, i + |t.text|)
  {
    var j := i + |t.text|;
    forall k | i <= k < j ensures IsAlnum(s[k]) {
      assert s[k] == s[i..j][k - i];
    }
    assert s[i] == t.text[0];
    WordEndIs(s, i, j);
  }

  /** The same for a digit run. */
  lemma NumberTokenAt(s: string, i: nat, t: Token)
    requires Scannable(t) && t.kind == Number
    requires i + |t.text| <= |s| && s[i..i + |t.text|] == t.text
    requires i + |t.text| == |s| || s[i + |t.text|] == ' '
    ensures LexFrom(s, i) == [t] + LexFrom(s, i + |t.text|)
  {
    var j := i + |t.text|;
    forall k | i <= k < j ensures IsDigit(s[k]) {
      assert s[k] == s[i..j][k - i];
    }
    assert s[i] == t.text[0];
    DigitEndIs(s, i, j);
  }

  /** A punctuation character is emitted on its own. */
  lemma SymbolTokenAt(s: string, i: nat, t: Token)
    requires Scannable(t) && t.kind == Symbol
    requires i + |t.text| <= |s| && s[i..i + |t.text|] == t.text
    ensures LexFrom(s, i) == [t] + LexFrom(s, i + |t.text|)
  {
    assert s[i] == s[i..i + 1][0] == t.text[0];
    assert [s[i]] == t.text;
  }

  /** Every token of the sequence is scannable. */
  predicate AllScannable(ts: seq<Token>)
    decreases |ts|
  {
    |ts| == 0 || (Scannable(ts[0]) && AllScannable(ts[1..]))
  }

  /** Any scannable token followed by a blank or the end is emitted whole. */
  lemma TokenAt(s: string, i: nat, t: Token)
    requires Scannable(t)
    requires i + |t.text| <= |s| && s[i..i + |t.text|] == t.text
    requires i + |t.text| == |s| || s[i + |t.text|] == ' '
    ensures LexFrom(s, i) == [t] + LexFrom(s, i + |t.text|)
  {
    if t.kind == Keyword || t.kind == Identifier {
      WordTokenAt(s, i, t);
    } else if t.kind == Number {
      NumberTokenAt(s, i, t);
    } else {
      SymbolTokenAt(s, i, t);
    }
  }

  /** Where the first rendered token ends, and what follows it. */
  lemma RenderSplit(s: string, i: nat, ts: seq<Token>)
    requires i <= |s| && s[i..] == Render(ts) && |ts| > 0
    ensures i + |ts[0].text| <= |s| && s[i..i + |ts[0].text|] == ts[0].text
    ensures |ts| == 1 ==> i + |ts[0].text| == |s|
    ensures |ts| > 1 ==> i + |ts[0].text| < |s| && s[i + |ts[0].text|] == ' ' &&
                         s[i + |ts[0].text| + 1..] == Render(ts[1..])
  {
    var w := ts[0].text;
    if |ts| > 1 {
      assert Render(ts) == w + " " + Render(ts[1..]);
      assert s[i..][..|w|] == w;
      assert s[i..][|w|] == ' ';
      assert s[i..][|w| + 1..] == Render(ts[1..]);
    }
  }

  /** Position by position: from `i` on, `s` holds the texts of `ts`, each
      followed by one blank except the last, which ends the text. */
  predicate RenderedAt(s: string, i: nat, ts: seq<Token>)
    decreases |ts|
  {
    if |ts| == 0 then i == |s|
    else
      var j := i + |ts[0].text|;
      Scannable(ts[0]) && j <= |s| && s[i..j] == ts[0].text &&
      if |ts| == 1 then j == |s|
      else j < |s| && s[j] == ' ' && RenderedAt(s, j + 1, ts[1..])
  }

  /** The rendered text of `ts` is laid out as `RenderedAt` describes. */
  lemma {:induction false} RenderIsRenderedAt(s: string, i: nat, ts: seq<Token>)
    requires i <= |s| && s[i..] == Render(ts) && AllScannable(ts)
    ensures RenderedAt(s, i, ts)
    decreases |ts|
  {
    if |ts| == 0 {
      assert |s[i..]| == 0;
    } else {
      RenderSplit(s, i, ts);
      if |ts| > 1 {
        RenderIsRenderedAt(s, i + |ts[0].text| + 1, ts[1..]);
      }
    }
  }

  /** The last laid-out token is scanned and nothing after it. */
  lemma LastRenderedAt(s: string, i: nat, ts: seq<Token>)
    requires RenderedAt(s, i, ts) && |ts| == 1
    ensures LexFrom(s, i) == ts
  {
    var j := i + |ts[0].text|;
    TokenAt(s, i, ts[0]);
    assert LexFrom(s, j) == [];
    assert [ts[0]] + [] == ts;
  }

  /** A laid-out token followed by more is scanned, then its blank skipped. */
  lemma NextRenderedAt(s: string, i: nat, ts: seq<Token>)
    requires RenderedAt(s, i, ts) && |ts| > 1
    ensures i + |ts[0].text| + 1 <= |s| && RenderedAt(s, i + |ts[0].text| + 1, ts[1..])
    ensures LexFrom(s, i) == [ts[0]] + LexFrom(s, i + |ts[0].text| + 1)
  {
    var j := i + |ts[0].text|;
    TokenAt(s, i, ts[0]);
    assert IsSpace(s[j]);
  }

  /** Scanning laid-out tokens from where they start gives them back. */
  lemma {:induction false} LexFromRenderedAt(s: string, i: nat, ts: seq<Token>)
    requires RenderedAt(s, i, ts)
    ensures LexFrom(s, i) == ts
    decreases |ts|
  {
    if |ts| == 0 {
      assert ts == [];
    } else if |ts| == 1 {
      LastRenderedAt(s, i, ts);
    } else {
      var j := i + |ts[0].text| + 1;
      NextRenderedAt(s, i, ts);
      LexFromRenderedAt(s, j, ts[1..]);
      assert ts == [ts[0]] + ts[1..];
    }
  }

  /** Tokenizing rendered tokens gives the tokens back, closed by END_OF_FILE. */
  lemma LexRender(ts: seq<Token>)
    requires AllScannable(ts)
    ensures Lex(Render(ts)) == ts + [Eof]
  {
    var s := Render(ts);
    assert s[0..] == s;
    RenderIsRenderedAt(s, 0, ts);
    LexFromRenderedAt(s, 0, ts);
  }
}
