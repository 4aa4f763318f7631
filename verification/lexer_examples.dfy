/** Whole inputs through the lexer: a token is the maximal run of letters
    or digits after the skipped whitespace, which lets a concrete input be
    lexed one token at a time. */
module LexerExamples {
  import opened Token
  import opened Lexer

  /** Every character is a letter; defined by recursion so that a literal
      word is checked character by character. */
  predicate Letters(w: string) {
    |w| == 0 || (IsLetter(w[0]) && Letters(w[1..]))
  }

  predicate Digits(w: string) {
    |w| == 0 || (IsDigit(w[0]) && Digits(w[1..]))
  }

  lemma {:induction false} LettersAt(w: string, i: nat)
    requires Letters(w) && i < |w|
    ensures IsLetter(w[i])
    decreases i
  {
    if i > 0 {
      LettersAt(w[1..], i - 1);
    }
  }

  lemma {:induction false} DigitsAt(w: string, i: nat)
    requires Digits(w) && i < |w|
    ensures IsDigit(w[i])
    decreases i
  {
    if i > 0 {
      DigitsAt(w[1..], i - 1);
    }
  }

  /** Whitespace from `pos` up to a non-whitespace character at `p` is
      exactly what `eatWhitespace` skips. */
  lemma {:induction false} WhitespaceRun(input: string, pos: nat, p: nat)
    requires pos <= p <= |input|
    requires forall i :: pos <= i < p ==> IsWhitespace(input[i])
    requires !IsWhitespace(CharAt(input, p))
    ensures EatWhitespace(input, pos) == p
    decreases p - pos
  {
    if pos < p {
      WhitespaceRun(input, pos + 1, p);
    }
  }

  /** The letters of a word copied into the input are letters there. */
  lemma {:induction false} LettersIn(input: string, p: nat, w: string)
    requires p + |w| <= |input| && input[p..p + |w|] == w && Letters(w)
    ensures forall i :: p <= i < p + |w| ==> IsLetter(input[i])
  {
    forall i | p <= i < p + |w|
      ensures IsLetter(input[i])
    {
      LettersAt(w, i - p);
      assert input[i] == w[i - p];
    }
  }

  lemma {:induction false} DigitsIn(input: string, p: nat, w: string)
    requires p + |w| <= |input| && input[p..p + |w|] == w && Digits(w)
    ensures forall i :: p <= i < p + |w| ==> IsDigit(input[i])
  {
    forall i | p <= i < p + |w|
      ensures IsDigit(input[i])
    {
      DigitsAt(w, i - p);
      assert input[i] == w[i - p];
    }
  }

  /** A run of letters ending before a non-letter is what `readIdentity`
      consumes. */
  lemma {:induction false} IdentEndAt(input: string, p: nat, e: nat)
    requires p <= e <= |input|
    requires forall i :: p <= i < e ==> IsLetter(input[i])
    requires !IsLetter(CharAt(input, e))
    ensures IdentEnd(input, p) == e
    decreases e - p
  {
    if p < e {
      IdentEndAt(input, p + 1, e);
    }
  }

  lemma {:induction false} NumberEndAt(input: string, p: nat, e: nat)
    requires p <= e <= |input|
    requires forall i :: p <= i < e ==> IsDigit(input[i])
    requires !IsDigit(CharAt(input, e))
    ensures NumberEnd(input, p) == e
    decreases e - p
  {
    if p < e {
      NumberEndAt(input, p + 1, e);
    }
  }

  /** A maximal run of letters after the whitespace is one token, the
      keyword or identifier its text names. */
  lemma WordToken(input: string, pos: nat, p: nat, w: string)
    requires EatWhitespace(input, pos) == p
    requires 0 < |w| && p + |w| <= |input| && input[p..p + |w|] == w && Letters(w)
    requires !IsLetter(CharAt(input, p + |w|))
    ensures NextToken(input, pos) == (Token(LookupIdentity(w), w), p + |w|)
  {
    LettersIn(input, p, w);
    IdentEndAt(input, p, p + |w|);
    var c := CharAt(input, p);
    assert IsLetter(c);
    assert Punctuation(c).None? && c != '\0';
    assert NextToken(input, pos) == ReadIdentity(input, p);
    assert ReadIdentity(input, p) == (Token(LookupIdentity(w), w), p + |w|);
  }

  /** A maximal run of digits after the whitespace is one INT token. */
  lemma NumberToken(input: string, pos: nat, p: nat, w: string)
    requires EatWhitespace(input, pos) == p
    requires 0 < |w| && p + |w| <= |input| && input[p..p + |w|] == w && Digits(w)
    requires !IsDigit(CharAt(input, p + |w|))
    ensures NextToken(input, pos) == (Token(Int, w), p + |w|)
  {
    DigitsIn(input, p, w);
    NumberEndAt(input, p, p + |w|);
    var c := CharAt(input, p);
    assert IsDigit(c) && !IsLetter(c);
    assert Punctuation(c).None? && c != '\0';
    assert NextToken(input, pos) == ReadNumber(input, p);
    assert ReadNumber(input, p) == (Token(Int, w), p + |w|);
  }

  /** A punctuation character after the whitespace is one token. */
  lemma PunctuationToken(input: string, pos: nat, p: nat)
    requires EatWhitespace(input, pos) == p
    requires p < |input| && Punctuation(input[p]).Some?
    ensures NextToken(input, pos) == (Token(Punctuation(input[p]).value, [input[p]]), p + 1)
  {
  }

  lemma TwoLetsAt0(s: string)
    requires s == "let five = 5;\n  let ten = 10;"
    ensures NextToken(s, 0) == (Token(Let, "let"), 3)
  {
    assert EatWhitespace(s, 0) == 0 by {
      WhitespaceRun(s, 0, 0);
    }
    assert s[0..3] == "let" by {
      assert s[0] == 'l' && s[1] == 'e' && s[2] == 't';
    }
    WordToken(s, 0, 0, "let");
  }

  lemma TwoLetsAt3(s: string)
    requires s == "let five = 5;\n  let ten = 10;"
    ensures NextToken(s, 3) == (Token(Ident, "five"), 8)
  {
    assert EatWhitespace(s, 3) == 4 by {
      WhitespaceRun(s, 3, 4);
    }
    assert s[4..8] == "five" by {
      assert s[4] == 'f' && s[5] == 'i' && s[6] == 'v' && s[7] == 'e';
    }
    WordToken(s, 3, 4, "five");
  }

  lemma TwoLetsAt8(s: string)
    requires s == "let five = 5;\n  let ten = 10;"
    ensures NextToken(s, 8) == (Token(Assign, "="), 10)
  {
    assert EatWhitespace(s, 8) == 9 by {
      WhitespaceRun(s, 8, 9);
    }
    PunctuationToken(s, 8, 9);
  }

  lemma TwoLetsAt10(s: string)
    requires s == "let five = 5;\n  let ten = 10;"
    ensures NextToken(s, 10) == (Token(Int, "5"), 12)
  {
    assert EatWhitespace(s, 10) == 11 by {
      WhitespaceRun(s, 10, 11);
    }
    assert s[11..12] == "5" by {
      assert s[11] == '5';
    }
    NumberToken(s, 10, 11, "5");
  }

  lemma TwoLetsAt12(s: string)
    requires s == "let five = 5;\n  let ten = 10;"
    ensures NextToken(s, 12) == (Token(Semicolon, ";"), 13)
  {
    assert EatWhitespace(s, 12) == 12 by {
      WhitespaceRun(s, 12, 12);
    }
    PunctuationToken(s, 12, 12);
  }

  lemma TwoLetsAt13(s: string)
    requires s == "let five = 5;\n  let ten = 10;"
    ensures NextToken(s, 13) == (Token(Let, "let"), 19)
  {
    assert EatWhitespace(s, 13) == 16 by {
      WhitespaceRun(s, 13, 16);
    }
    assert s[16..19] == "let" by {
      assert s[16] == 'l' && s[17] == 'e' && s[18] == 't';
    }
    WordToken(s, 13, 16, "let");
  }

  lemma TwoLetsAt19(s: string)
    requires s == "let five = 5;\n  let ten = 10;"
    ensures NextToken(s, 19) == (Token(Ident, "ten"), 23)
  {
    assert EatWhitespace(s, 19) == 20 by {
      WhitespaceRun(s, 19, 20);
    }
    assert s[20..23] == "ten" by {
      assert s[20] == 't' && s[21] == 'e' && s[22] == 'n';
    }
    WordToken(s, 19, 20, "ten");
  }

  lemma TwoLetsAt23(s: string)
    requires s == "let five = 5;\n  let ten = 10;"
    ensures NextToken(s, 23) == (Token(Assign, "="), 25)
  {
    assert EatWhitespace(s, 23) == 24 by {
      WhitespaceRun(s, 23, 24);
    }
    PunctuationToken(s, 23, 24);
  }

  lemma TwoLetsAt25(s: string)
    requires s == "let five = 5;\n  let ten = 10;"
    ensures NextToken(s, 25) == (Token(Int, "10"), 28)
  {
    assert EatWhitespace(s, 25) == 26 by {
      WhitespaceRun(s, 25, 26);
    }
    assert s[26..28] == "10" by {
      assert s[26] == '1' && s[27] == '0';
    }
    NumberToken(s, 25, 26, "10");
  }

  lemma TwoLetsAt28(s: string)
    requires s == "let five = 5;\n  let ten = 10;"
    ensures NextToken(s, 28) == (Token(Semicolon, ";"), 29)
  {
    assert EatWhitespace(s, 28) == 28 by {
      WhitespaceRun(s, 28, 28);
    }
    PunctuationToken(s, 28, 28);
  }

  /** The stream of the second line, from the tokens the cursor reads
      there. */
  lemma SecondLineStream(s: string)
    requires |s| == 29
    requires NextToken(s, 13) == (Token(Let, "let"), 19)
    requires NextToken(s, 19) == (Token(Ident, "ten"), 23)
    requires NextToken(s, 23) == (Token(Assign, "="), 25)
    requires NextToken(s, 25) == (Token(Int, "10"), 28)
    requires NextToken(s, 28) == (Token(Semicolon, ";"), 29)
    ensures Tokens(s, 13)
         == [Token(Let, "let"), Token(Ident, "ten"), Token(Assign, "="), Token(Int, "10"),
             Token(Semicolon, ";")] + Tokens(s, 29)
  {
    TokensStep(s, 28, Token(Semicolon, ";"), 29);
    TokensStep(s, 25, Token(Int, "10"), 28);
    TokensStep(s, 23, Token(Assign, "="), 25);
    TokensStep(s, 19, Token(Ident, "ten"), 23);
    TokensStep(s, 13, Token(Let, "let"), 19);
    Flatten5(Token(Let, "let"), Token(Ident, "ten"), Token(Assign, "="), Token(Int, "10"),
             Token(Semicolon, ";"), Tokens(s, 29));
  }

  /** The stream of the first line, followed by the stream from the line
      break. */
  lemma FirstLineStream(s: string)
    requires |s| == 29
    requires NextToken(s, 0) == (Token(Let, "let"), 3)
    requires NextToken(s, 3) == (Token(Ident, "five"), 8)
    requires NextToken(s, 8) == (Token(Assign, "="), 10)
    requires NextToken(s, 10) == (Token(Int, "5"), 12)
    requires NextToken(s, 12) == (Token(Semicolon, ";"), 13)
    ensures Tokens(s, 0)
         == [Token(Let, "let"), Token(Ident, "five"), Token(Assign, "="), Token(Int, "5"),
             Token(Semicolon, ";")] + Tokens(s, 13)
  {
    TokensStep(s, 12, Token(Semicolon, ";"), 13);
    TokensStep(s, 10, Token(Int, "5"), 12);
    TokensStep(s, 8, Token(Assign, "="), 10);
    TokensStep(s, 3, Token(Ident, "five"), 8);
    TokensStep(s, 0, Token(Let, "let"), 3);
    Flatten5(Token(Let, "let"), Token(Ident, "five"), Token(Assign, "="), Token(Int, "5"),
             Token(Semicolon, ";"), Tokens(s, 13));
  }

  lemma Flatten5(a: Token, b: Token, c: Token, d: Token, e: Token, rest: seq<Token>)
    ensures [a] + ([b] + ([c] + ([d] + ([e] + rest)))) == [a, b, c, d, e] + rest
  {
  }

  lemma TwoLetsFirstLine(s: string)
    requires s == "let five = 5;\n  let ten = 10;"
    ensures Tokens(s, 0)
         == [Token(Let, "let"), Token(Ident, "five"), Token(Assign, "="), Token(Int, "5"),
             Token(Semicolon, ";")] + Tokens(s, 13)
  {
    TwoLetsAt0(s);
    TwoLetsAt3(s);
    TwoLetsAt8(s);
    TwoLetsAt10(s);
    TwoLetsAt12(s);
    FirstLineStream(s);
  }

  lemma TwoLetsSecondLine(s: string)
    requires s == "let five = 5;\n  let ten = 10;"
    ensures Tokens(s, 13)
         == [Token(Let, "let"), Token(Ident, "ten"), Token(Assign, "="), Token(Int, "10"),
             Token(Semicolon, ";")] + [Token(Eof, "eof")]
  {
    EofRepeats(s, 29);
    assert Tokens(s, 29) == [Token(Eof, "eof")];
    TwoLetsAt13(s);
    TwoLetsAt19(s);
    TwoLetsAt23(s);
    TwoLetsAt25(s);
    TwoLetsAt28(s);
    SecondLineStream(s);
  }

  /** The lexer's second test: two `let` statements across a line break. */
  lemma TwoLets(s: string)
    requires s == "let five = 5;\n  let ten = 10;"
    ensures Tokenize(s)
         == [Token(Let, "let"), Token(Ident, "five"), Token(Assign, "="), Token(Int, "5"),
             Token(Semicolon, ";"), Token(Let, "let"), Token(Ident, "ten"), Token(Assign, "="),
             Token(Int, "10"), Token(Semicolon, ";"), Token(Eof, "eof")]
  {
    TwoLetsFirstLine(s);
    TwoLetsSecondLine(s);
  }
}
