/** The character-cursor tokenizer (src/lexer/lexer.ts).

    The source keeps `position`, `readPosition` and `ch`; `readPosition` is
    always `position + 1` and `ch` is the character at `position` (NUL past
    the end), so the model's whole lexer state is the position alone and
    `NextToken` maps a position to a token and the next position. */
module Lexer {
  import opened Wrappers
  import opened Token

  /** `isLetter`: ASCII letters and underscore. */
  predicate IsLetter(c: char) {
    ('a' <= c <= 'z') || ('A' <= c <= 'Z') || c == '_'
  }

  /** `isDigit`: ASCII decimal digits. */
  predicate IsDigit(c: char) {
    '0' <= c <= '9'
  }

  /** The characters `eatWhitespace` skips. */
  predicate IsWhitespace(c: char) {
    c == ' ' || c == '\t' || c == '\n' || c == '\r'
  }

  /** The one-character tokens of the `getNextToken` switch. */
  function Punctuation(c: char): Option<Kind> {
    match c
    case '=' => Some(Assign)
    case '!' => Some(Bang)
    case '+' => Some(Plus)
    case '-' => Some(Minus)
    case '(' => Some(LParen)
    case ')' => Some(RParen)
    case '{' => Some(LSquirly)
    case '}' => Some(RSquirly)
    case ',' => Some(Comma)
    case ';' => Some(Semicolon)
    case _ => None
  }

  /** `ch` at a position: the input character, or NUL past the end
      (`readCharacter`). */
  function CharAt(input: string, pos: nat): char {
    if pos < |input| then input[pos] else '\0'
  }

  /** `eatWhitespace`: the first position at or after `pos` whose character
      is not whitespace (see `EatWhitespaceSpec`). */
  function EatWhitespace(input: string, pos: nat): (p: nat)
    ensures pos <= p
    ensures p == pos || p <= |input|
    decreases |input| - pos
  {
    if pos < |input| && IsWhitespace(input[pos]) then EatWhitespace(input, pos + 1)
    else pos
  }

  lemma {:induction false} EatWhitespaceSpec(input: string, pos: nat)
    ensures var p := EatWhitespace(input, pos);
      && !IsWhitespace(CharAt(input, p))
      && (forall i :: pos <= i < p ==> i < |input| && IsWhitespace(input[i]))
    decreases |input| - pos
  {
    if pos < |input| && IsWhitespace(input[pos]) {
      EatWhitespaceSpec(input, pos + 1);
    }
  }

  /** `readIdentity`'s loop: the end of the run of letters starting at `pos`
      (see `IdentEndSpec`). */
  function IdentEnd(input: string, pos: nat): (e: nat)
    ensures pos <= e
    ensures e == pos || e <= |input|
    decreases |input| - pos
  {
    if pos < |input| && IsLetter(input[pos]) then IdentEnd(input, pos + 1)
    else pos
  }

  lemma {:induction false} IdentEndSpec(input: string, pos: nat)
    ensures var e := IdentEnd(input, pos);
      && !IsLetter(CharAt(input, e))
      && (forall i :: pos <= i < e ==> i < |input| && IsLetter(input[i]))
    decreases |input| - pos
  {
    if pos < |input| && IsLetter(input[pos]) {
      IdentEndSpec(input, pos + 1);
    }
  }

  /** `readNumber`'s loop: the end of the run of digits starting at `pos`
      (see `NumberEndSpec`). */
  function NumberEnd(input: string, pos: nat): (e: nat)
    ensures pos <= e
    ensures e == pos || e <= |input|
    decreases |input| - pos
  {
    if pos < |input| && IsDigit(input[pos]) then NumberEnd(input, pos + 1)
    else pos
  }

  lemma {:induction false} NumberEndSpec(input: string, pos: nat)
    ensures var e := NumberEnd(input, pos);
      && !IsDigit(CharAt(input, e))
      && (forall i :: pos <= i < e ==> i < |input| && IsDigit(input[i]))
    decreases |input| - pos
  {
    if pos < |input| && IsDigit(input[pos]) {
      NumberEndSpec(input, pos + 1);
    }
  }

  /** `getNextToken`: skip whitespace, then produce one token and the
      position of the next call. Every token but EOF is the slice of the
      input it was read from and holds no whitespace; only an ILLEGAL token
      leaves the cursor where it found it. */
  function NextToken(input: string, pos: nat): (r: (Token, nat))
    ensures var p := EatWhitespace(input, pos);
      && p <= r.1
      && (r.0.kind == Illegal <==> r.1 == p)
      && (r.0.kind == Eof <==> CharAt(input, p) == '\0')
      && (r.0.kind == Eof ==> r.0.literal == "eof" && r.1 == p + 1)
      && (r.0.kind != Eof ==>
            && p < |input|
            && p + |r.0.literal| <= |input|
            && r.0.literal == input[p..p + |r.0.literal|]
            && |r.0.literal| > 0
            && (forall i :: 0 <= i < |r.0.literal| ==> !IsWhitespace(r.0.literal[i])))
      && (r.0.kind != Eof && r.0.kind != Illegal ==> r.1 == p + |r.0.literal|)
      && (Punctuation(CharAt(input, p)).Some? ==> r.0.kind == Punctuation(CharAt(input, p)).value)
      && (IsLetter(CharAt(input, p)) ==> r.0.kind == LookupIdentity(r.0.literal))
      && (IsDigit(CharAt(input, p)) ==> r.0.kind == Int)
  {
    EatWhitespaceSpec(input, pos);
    var p := EatWhitespace(input, pos);
    var c := CharAt(input, p);
    if Punctuation(c).Some? then (Token(Punctuation(c).value, [c]), p + 1)
    else if c == '\0' then (Token(Eof, "eof"), p + 1)
    else if IsLetter(c) then ReadIdentity(input, p)
    else if IsDigit(c) then ReadNumber(input, p)
    else (Token(Illegal, [c]), p)
  }

  /** `readIdentity` and the keyword lookup: the maximal run of letters at
      `p` (digits end it), classified by `lookupIdentity`. */
  function ReadIdentity(input: string, p: nat): (r: (Token, nat))
    requires p < |input| && IsLetter(input[p])
    ensures p < r.1 <= |input|
    ensures r.0.literal == input[p..r.1]
    ensures forall i :: p <= i < r.1 ==> IsLetter(input[i])
    ensures !IsLetter(CharAt(input, r.1))
    ensures r.0.kind == LookupIdentity(r.0.literal)
  {
    IdentEndSpec(input, p);
    var e := IdentEnd(input, p);
    var lit := input[p..e];
    (Token(LookupIdentity(lit), lit), e)
  }

  /** `readNumber`: the maximal run of digits at `p`, as an INT token. */
  function ReadNumber(input: string, p: nat): (r: (Token, nat))
    requires p < |input| && IsDigit(input[p])
    ensures p < r.1 <= |input|
    ensures r.0 == Token(Int, input[p..r.1])
    ensures forall i :: p <= i < r.1 ==> IsDigit(input[i])
    ensures !IsDigit(CharAt(input, r.1))
  {
    NumberEndSpec(input, p);
    var e := NumberEnd(input, p);
    (Token(Int, input[p..e]), e)
  }

  /** The position of the cursor after `n` calls of `getNextToken`. */
  function PosAfter(input: string, pos: nat, n: nat): nat
    decreases n
  {
    if n == 0 then pos else PosAfter(input, NextToken(input, pos).1, n - 1)
  }

  /** The whole token stream from `pos`: every token up to and including the
      first ILLEGAL one or the EOF produced at the end of the input. A NUL
      inside the input yields an EOF token in the middle of the stream. */
  function Tokens(input: string, pos: nat): (ts: seq<Token>)
    requires pos <= |input|
    ensures |ts| > 0
    ensures ts[|ts| - 1].kind == Illegal || ts[|ts| - 1].kind == Eof
    decreases |input| - pos
  {
    var (t, next) := NextToken(input, pos);
    if t.kind == Illegal || next > |input| then [t]
    else [t] + Tokens(input, next)
  }

  /** An ILLEGAL token can only end the stream. */
  lemma {:induction false} IllegalOnlyLast(input: string, pos: nat)
    requires pos <= |input|
    ensures forall i :: 0 <= i < |Tokens(input, pos)| - 1 ==> Tokens(input, pos)[i].kind != Illegal
    decreases |input| - pos
  {
    var (t, next) := NextToken(input, pos);
    if t.kind != Illegal && next <= |input| {
      IllegalOnlyLast(input, next);
      var rest := Tokens(input, next);
      var ts := Tokens(input, pos);
      assert ts == [t] + rest;
      forall i | 0 <= i < |ts| - 1
        ensures ts[i].kind != Illegal
      {
        if i == 0 {
          assert ts[0] == t;
        } else {
          assert ts[i] == rest[i - 1];
          assert rest[i - 1].kind != Illegal;
        }
      }
    }
  }

  /** The lexer on its own input: the whole stream. */
  function Tokenize(input: string): (ts: seq<Token>)
    ensures |ts| > 0
  {
    Tokens(input, 0)
  }

  /** An ILLEGAL token is a fixed point: the next call sees the same
      character at the same position. */
  lemma IllegalRepeats(input: string, pos: nat)
    requires NextToken(input, pos).0.kind == Illegal
    ensures NextToken(input, NextToken(input, pos).1) == NextToken(input, pos)
  {
    var p := EatWhitespace(input, pos);
    assert EatWhitespace(input, p) == p;
  }

  /** At or past the end of the input every call yields EOF with literal
      `eof` and moves the cursor on by one. */
  lemma EofRepeats(input: string, pos: nat)
    requires |input| <= pos
    ensures NextToken(input, pos) == (Token(Eof, "eof"), pos + 1)
  {
    assert EatWhitespace(input, pos) == pos;
  }

  lemma {:induction false} PosAfterIllegal(input: string, pos: nat, n: nat)
    requires NextToken(input, pos).0.kind == Illegal
    requires 1 <= n
    ensures PosAfter(input, pos, n) == NextToken(input, pos).1
    decreases n
  {
    if n > 1 {
      IllegalRepeats(input, pos);
      PosAfterIllegal(input, NextToken(input, pos).1, n - 1);
    }
  }

  lemma {:induction false} PosAfterEnd(input: string, pos: nat, n: nat)
    requires |input| <= pos
    ensures PosAfter(input, pos, n) == pos + n
    decreases n
  {
    if n > 0 {
      EofRepeats(input, pos);
      PosAfterEnd(input, pos + 1, n - 1);
    }
  }

  /** A token that is neither ILLEGAL nor the final EOF is followed in the
      stream by the stream from where it left the cursor. */
  lemma TokensStep(input: string, pos: nat, t: Token, next: nat)
    requires pos <= |input|
    requires NextToken(input, pos) == (t, next)
    requires t.kind != Illegal && next <= |input|
    ensures Tokens(input, pos) == [t] + Tokens(input, next)
  {
  }

  // ---------------------------------------------------------------------
  // Runs of punctuation

  predicate AllPunctuation(s: string) {
    forall i :: 0 <= i < |s| ==> Punctuation(s[i]).Some?
  }

  /** One token per character, each of the character's own kind. */
  function PunctuationTokens(s: string): (ts: seq<Token>)
    requires AllPunctuation(s)
    ensures |ts| == |s|
  {
    if |s| == 0 then []
    else [Token(Punctuation(s[0]).value, [s[0]])] + PunctuationTokens(s[1..])
  }

  /** A punctuation character at the cursor is a token by itself. */
  lemma PunctuationStep(input: string, pos: nat)
    requires pos < |input| && Punctuation(input[pos]).Some?
    ensures NextToken(input, pos) == (Token(Punctuation(input[pos]).value, [input[pos]]), pos + 1)
  {
    assert EatWhitespace(input, pos) == pos;
  }

  /** The stream from `pos` is the punctuation tokens of the rest of the
      input, then EOF. */
  predicate LexesAsPunctuation(input: string, pos: nat)
    requires pos <= |input| && AllPunctuation(input[pos..])
  {
    Tokens(input, pos) == PunctuationTokens(input[pos..]) + [Token(Eof, "eof")]
  }

  /** Input made only of punctuation lexes one character at a time, then
      EOF. */
  lemma {:induction false} PunctuationRun(input: string, pos: nat)
    requires pos <= |input| && AllPunctuation(input[pos..])
    ensures LexesAsPunctuation(input, pos)
    decreases |input| - pos
  {
    if pos == |input| {
      PunctuationEnd(input, pos);
    } else {
      assert input[pos..][1..] == input[pos + 1..];
      PunctuationRun(input, pos + 1);
      PunctuationCons(input, pos);
    }
  }

  lemma PunctuationEnd(input: string, pos: nat)
    requires pos == |input|
    ensures LexesAsPunctuation(input, pos)
  {
    EofRepeats(input, pos);
    assert input[pos..] == [];
    assert Tokens(input, pos) == [Token(Eof, "eof")];
  }

  lemma PunctuationCons(input: string, pos: nat)
    requires pos < |input| && AllPunctuation(input[pos..])
    requires AllPunctuation(input[pos + 1..]) && LexesAsPunctuation(input, pos + 1)
    ensures LexesAsPunctuation(input, pos)
  {
    var t := Token(Punctuation(input[pos]).value, [input[pos]]);
    PunctuationStep(input, pos);
    TokensStep(input, pos, t, pos + 1);
    PunctuationTokensCons(input, pos);
    ConsSnoc(t, PunctuationTokens(input[pos + 1..]), Token(Eof, "eof"));
  }

  lemma ConsSnoc(t: Token, ts: seq<Token>, u: Token)
    ensures ([t] + ts) + [u] == [t] + (ts + [u])
  {
  }

  lemma PunctuationTokensCons(input: string, pos: nat)
    requires pos < |input| && AllPunctuation(input[pos..]) && AllPunctuation(input[pos + 1..])
    ensures PunctuationTokens(input[pos..])
         == [Token(Punctuation(input[pos]).value, [input[pos]])] + PunctuationTokens(input[pos + 1..])
  {
    assert input[pos..][0] == input[pos];
    assert input[pos..][1..] == input[pos + 1..];
  }

  /** The i-th punctuation token is the i-th character's. */
  lemma {:induction false} PunctuationTokensAt(s: string, i: nat)
    requires AllPunctuation(s) && i < |s|
    ensures PunctuationTokens(s)[i] == Token(Punctuation(s[i]).value, [s[i]])
    decreases i
  {
    if i > 0 {
      assert AllPunctuation(s[1..]) by {
        forall j | 0 <= j < |s[1..]| ensures Punctuation(s[1..][j]).Some? {
          assert s[1..][j] == s[j + 1];
        }
      }
      PunctuationTokensAt(s[1..], i - 1);
      assert s[1..][i - 1] == s[i];
    }
  }

  /** Input made only of punctuation lexes into its punctuation tokens. */
  lemma PunctuationInput(s: string)
    requires AllPunctuation(s)
    ensures Tokenize(s) == PunctuationTokens(s) + [Token(Eof, "eof")]
  {
    assert s[0..] == s;
    PunctuationRun(s, 0);
  }

  lemma PunctuationOfTest(s: string)
    requires s == "=+(){},;"
    ensures AllPunctuation(s)
    ensures PunctuationTokens(s) + [Token(Eof, "eof")]
         == [Token(Assign, "="), Token(Plus, "+"), Token(LParen, "("), Token(RParen, ")"),
             Token(LSquirly, "{"), Token(RSquirly, "}"), Token(Comma, ","), Token(Semicolon, ";"),
             Token(Eof, "eof")]
  {
    assert s[0] == '=' && s[1] == '+' && s[2] == '(' && s[3] == ')';
    assert s[4] == '{' && s[5] == '}' && s[6] == ',' && s[7] == ';';
    assert AllPunctuation(s);
    var ts := PunctuationTokens(s);
    PunctuationTokensAt(s, 0);
    assert ts[0] == Token(Assign, "=");
    PunctuationTokensAt(s, 1);
    assert ts[1] == Token(Plus, "+");
    PunctuationTokensAt(s, 2);
    assert ts[2] == Token(LParen, "(");
    PunctuationTokensAt(s, 3);
    assert ts[3] == Token(RParen, ")");
    PunctuationTokensAt(s, 4);
    assert ts[4] == Token(LSquirly, "{");
    PunctuationTokensAt(s, 5);
    assert ts[5] == Token(RSquirly, "}");
    PunctuationTokensAt(s, 6);
    assert ts[6] == Token(Comma, ",");
    PunctuationTokensAt(s, 7);
    assert ts[7] == Token(Semicolon, ";");
  }

  /** The lexer's first test: every character of `=+(){},;` is a token of
      its own kind, then EOF. */
  lemma PunctuationExample(s: string)
    requires s == "=+(){},;"
    ensures Tokenize(s)
         == [Token(Assign, "="), Token(Plus, "+"), Token(LParen, "("), Token(RParen, ")"),
             Token(LSquirly, "{"), Token(RSquirly, "}"), Token(Comma, ","), Token(Semicolon, ";"),
             Token(Eof, "eof")]
  {
    PunctuationOfTest(s);
    PunctuationInput(s);
  }

  /** The n-th call of `getNextToken` from `pos` returns the n-th element
      of the stream, reading past its end as the parser does. */
  predicate CursorReads(input: string, pos: nat, n: nat)
    requires pos <= |input|
  {
    NextToken(input, PosAfter(input, pos, n)).0 == StreamAt(Tokens(input, pos), n)
  }

  /** The first call returns the first token of the stream. */
  lemma StreamFirst(input: string, pos: nat)
    requires pos <= |input|
    ensures CursorReads(input, pos, 0)
  {
  }

  /** Once the stream has ended, with an ILLEGAL token or with the EOF at
      the end of the input, every later call returns its last token. */
  lemma StreamStop(input: string, pos: nat, n: nat)
    requires pos <= |input| && 1 <= n
    requires NextToken(input, pos).0.kind == Illegal || NextToken(input, pos).1 > |input|
    ensures CursorReads(input, pos, n)
  {
    if NextToken(input, pos).0.kind == Illegal {
      StreamIllegal(input, pos, n);
    } else {
      StreamEnd(input, pos, n);
    }
  }

  /** After an ILLEGAL token every later call returns it again. */
  lemma StreamIllegal(input: string, pos: nat, n: nat)
    requires pos <= |input| && 1 <= n
    requires NextToken(input, pos).0.kind == Illegal
    ensures CursorReads(input, pos, n)
  {
    PosAfterIllegal(input, pos, n);
    IllegalRepeats(input, pos);
    assert Tokens(input, pos) == [NextToken(input, pos).0];
  }

  /** After the EOF at the end of the input every later call returns EOF. */
  lemma StreamEnd(input: string, pos: nat, n: nat)
    requires pos <= |input| && 1 <= n
    requires NextToken(input, pos).1 > |input|
    ensures CursorReads(input, pos, n)
  {
    var (t, next) := NextToken(input, pos);
    assert t == Token(Eof, "eof");
    assert Tokens(input, pos) == [t];
    assert PosAfter(input, pos, n) == PosAfter(input, next, n - 1);
    PosAfterEnd(input, next, n - 1);
    EofRepeats(input, next + n - 1);
  }

  /** Reading a stream one token further on reads its tail. */
  lemma StreamAtCons(t: Token, rest: seq<Token>, n: nat)
    requires |rest| > 0 && 1 <= n
    ensures StreamAt([t] + rest, n) == StreamAt(rest, n - 1)
  {
  }

  /** The step of `StreamMatchesCursor`: if it holds from where a token
      that is neither ILLEGAL nor the final EOF leaves the cursor, it holds
      one call earlier. */
  lemma StreamStep(input: string, pos: nat, n: nat)
    requires pos <= |input| && 1 <= n
    requires NextToken(input, pos).0.kind != Illegal && NextToken(input, pos).1 <= |input|
    requires CursorReads(input, NextToken(input, pos).1, n - 1)
    ensures CursorReads(input, pos, n)
  {
    var (t, next) := NextToken(input, pos);
    TokensStep(input, pos, t, next);
    assert PosAfter(input, pos, n) == PosAfter(input, next, n - 1);
    StreamAtCons(t, Tokens(input, next), n);
  }

  /** The n-th call of `getNextToken` returns the n-th element of the stream
      `Tokens`, reading past its end as the parser does. */
  lemma {:induction false} StreamMatchesCursor(input: string, pos: nat, n: nat)
    requires pos <= |input|
    ensures CursorReads(input, pos, n)
    decreases n
  {
    if n == 0 {
      StreamFirst(input, pos);
    } else if NextToken(input, pos).0.kind == Illegal || NextToken(input, pos).1 > |input| {
      StreamStop(input, pos, n);
    } else {
      StreamMatchesCursor(input, NextToken(input, pos).1, n - 1);
      StreamStep(input, pos, n);
    }
  }

  /** The input with every whitespace character removed. */
  function Strip(s: string): (r: string)
    ensures |r| <= |s|
  {
    if |s| == 0 then []
    else (if IsWhitespace(s[0]) then [] else [s[0]]) + Strip(s[1..])
  }

  lemma {:induction false} StripAppend(a: string, b: string)
    ensures Strip(a + b) == Strip(a) + Strip(b)
    decreases |a|
  {
    if |a| == 0 {
      assert a + b == b;
    } else {
      assert (a + b)[1..] == a[1..] + b;
      StripAppend(a[1..], b);
    }
  }

  lemma {:induction false} StripWhitespaceOnly(s: string)
    requires forall i :: 0 <= i < |s| ==> IsWhitespace(s[i])
    ensures Strip(s) == []
    decreases |s|
  {
    if |s| > 0 {
      StripWhitespaceOnly(s[1..]);
    }
  }

  lemma {:induction false} StripNoWhitespace(s: string)
    requires forall i :: 0 <= i < |s| ==> !IsWhitespace(s[i])
    ensures Strip(s) == s
    decreases |s|
  {
    if |s| > 0 {
      StripNoWhitespace(s[1..]);
    }
  }

  /** The characters the lexer turns into tokens other than ILLEGAL and EOF,
      plus whitespace. */
  predicate Lexable(c: char) {
    IsWhitespace(c) || IsLetter(c) || IsDigit(c) || Punctuation(c).Some?
  }

  /** The literals of a token list, concatenated. */
  function Literals(ts: seq<Token>): string
  {
    if |ts| == 0 then [] else ts[0].literal + Literals(ts[1..])
  }

  /** `ts` is the lexing of the whitespace-free text `text`: tokens whose
      literals spell it, followed by exactly one EOF. */
  predicate LexedAs(ts: seq<Token>, text: string) {
    && |ts| > 0
    && ts[|ts| - 1] == Token(Eof, "eof")
    && (forall i :: 0 <= i < |ts| - 1 ==> ts[i].kind != Eof)
    && Literals(ts[..|ts| - 1]) == text
  }

  /** Lexing loses nothing but whitespace: on input made of lexable
      characters the stream is its tokens followed by one EOF, and the
      tokens' literals concatenate to the input with whitespace removed. */
  lemma {:induction false} TokensRoundTrip(input: string, pos: nat)
    requires pos <= |input|
    requires forall i :: pos <= i < |input| ==> Lexable(input[i])
    ensures LexedAs(Tokens(input, pos), Strip(input[pos..]))
    decreases |input| - pos
  {
    if EatWhitespace(input, pos) == |input| {
      RoundTripEnd(input, pos);
    } else {
      LexableStep(input, pos);
      TokensRoundTrip(input, NextToken(input, pos).1);
      RoundTripStep(input, pos);
    }
  }

  /** The base case of `TokensRoundTrip`: only whitespace is left. */
  lemma RoundTripEnd(input: string, pos: nat)
    requires pos <= |input|
    requires EatWhitespace(input, pos) == |input|
    ensures LexedAs(Tokens(input, pos), Strip(input[pos..]))
  {
    OnlyEofLeft(input, pos);
    StripSkipped(input, pos);
    assert input[|input|..] == [];
    assert Literals([]) == [];
  }

  /** Past the last non-whitespace character the stream is one EOF. */
  lemma OnlyEofLeft(input: string, pos: nat)
    requires pos <= |input|
    requires EatWhitespace(input, pos) == |input|
    ensures Tokens(input, pos) == [Token(Eof, "eof")]
  {
    assert NextToken(input, pos) == (Token(Eof, "eof"), |input| + 1);
  }

  /** The step of `TokensRoundTrip`: a token read from lexable input puts
      its literal in front of the rest. */
  lemma RoundTripStep(input: string, pos: nat)
    requires pos <= |input|
    requires forall i :: pos <= i < |input| ==> Lexable(input[i])
    requires EatWhitespace(input, pos) < |input|
    requires NextToken(input, pos).1 <= |input|
    requires LexedAs(Tokens(input, NextToken(input, pos).1), Strip(input[NextToken(input, pos).1..]))
    ensures LexedAs(Tokens(input, pos), Strip(input[pos..]))
  {
    var p := EatWhitespace(input, pos);
    var (t, next) := NextToken(input, pos);
    LexableStep(input, pos);
    StripSkipped(input, pos);
    TokensStep(input, pos, t, next);
    StripToken(input, p, next);
    ConsLiterals(t, Tokens(input, next), Strip(input[next..]));
  }

  /** Putting a token other than EOF in front of a lexing puts its literal
      in front of the text. */
  lemma ConsLiterals(t: Token, rest: seq<Token>, tail: string)
    requires t.kind != Eof
    requires LexedAs(rest, tail)
    ensures LexedAs([t] + rest, t.literal + tail)
  {
    var ts := [t] + rest;
    assert ts[..|ts| - 1] == [t] + rest[..|rest| - 1];
    assert ([t] + rest[..|rest| - 1])[1..] == rest[..|rest| - 1];
    assert forall i :: 1 <= i < |ts| - 1 ==> ts[i] == rest[i - 1];
  }

  lemma StripSkipped(input: string, pos: nat)
    requires pos <= |input|
    ensures Strip(input[pos..]) == Strip(input[EatWhitespace(input, pos)..])
  {
    EatWhitespaceSpec(input, pos);
    var p := EatWhitespace(input, pos);
    assert input[pos..] == input[pos..p] + input[p..];
    StripAppend(input[pos..p], input[p..]);
    StripWhitespaceOnly(input[pos..p]);
  }

  lemma LexableStep(input: string, pos: nat)
    requires pos <= |input|
    requires forall i :: pos <= i < |input| ==> Lexable(input[i])
    requires EatWhitespace(input, pos) < |input|
    ensures var r := NextToken(input, pos);
      && r.0.kind != Eof && r.0.kind != Illegal
      && EatWhitespace(input, pos) < r.1 <= |input|
      && r.0.literal == input[EatWhitespace(input, pos)..r.1]
      && (forall i :: EatWhitespace(input, pos) <= i < r.1 ==> !IsWhitespace(input[i]))
  {
    var p := EatWhitespace(input, pos);
    var r := NextToken(input, pos);
    assert Lexable(input[p]);
    forall i | p <= i < r.1
      ensures !IsWhitespace(input[i])
    {
      assert input[i] == r.0.literal[i - p];
    }
  }

  lemma StripToken(input: string, p: nat, next: nat)
    requires p <= next <= |input|
    requires forall i :: p <= i < next ==> !IsWhitespace(input[i])
    ensures Strip(input[p..]) == input[p..next] + Strip(input[next..])
  {
    assert input[p..] == input[p..next] + input[next..];
    StripAppend(input[p..next], input[next..]);
    StripNoWhitespace(input[p..next]);
  }

  /** The keyword kinds: the kinds `lookupIdentity` can give besides IDENT. */
  predicate IsKeywordKind(k: Kind) {
    k == Function || k == Let || k == True || k == False || k == If || k == Else || k == Return
  }

  /** No kind string is also a key of the token table: creating a token
      from a kind string always gives `undefined`. */
  lemma KindStringIsNoKey(k: Kind, literal: string)
    ensures CreateToken(KindString(k), literal).kind.None?
  {
    KindStringsDoNot(k);
    NoKeyNoKind(KindString(k), literal);
  }

  /** No kind string ends in a lower-case letter: each is upper case or
      punctuation. */
  lemma KindStringsDoNot(k: Kind)
    ensures !EndsInLowerCase(KindString(k))
  {
  }

  /** `getNextToken` as written: it moves the cursor and reads the literal as
      the corrected lexer does, but every branch except the identifier one
      passes a kind string (`TokenType.Assign`, which is "=") to
      `createToken`, which indexes the token table by key; identifiers go
      through the keyword lookup as written. */
  function NextTokenAsWritten(input: string, pos: nat): (r: (RawToken, nat))
  {
    var (t, next) := NextToken(input, pos);
    if t.kind == Ident || IsKeywordKind(t.kind) then
      (CreateToken(PropertyKey(LookupIdentityAsWritten(t.literal)), t.literal), next)
    else (CreateToken(KindString(t.kind), t.literal), next)
  }

  /** Only identifiers and keywords keep a type in the lexer as written:
      every punctuation, INT, EOF and ILLEGAL token has type `undefined`, and
      so does an identifier spelled like an Object.prototype member. */
  lemma NextTokenAsWrittenLosesKinds(input: string, pos: nat)
    ensures AgreesButKind(NextTokenAsWritten(input, pos), NextToken(input, pos))
  {
    var (t, next) := NextToken(input, pos);
    if t.kind == Ident || IsKeywordKind(t.kind) {
      IdentityLiteral(input, pos);
      IdentityKindsAsWritten(t.literal);
    } else {
      KindStringIsNoKey(t.kind, t.literal);
    }
  }

  /** Identifiers and keywords are exactly the tokens read by `readIdentity`,
      whose kind is the keyword lookup of their literal. */
  lemma IdentityLiteral(input: string, pos: nat)
    requires NextToken(input, pos).0.kind == Ident || IsKeywordKind(NextToken(input, pos).0.kind)
    ensures NextToken(input, pos).0.kind == LookupIdentity(NextToken(input, pos).0.literal)
  {
  }

  /** A token of the lexer as written against the corrected one: the same
      literal and the same next position; a type, when it has one, that is
      the corrected kind; and a type exactly for keywords and for
      identifiers not spelled like an Object.prototype member. */
  predicate AgreesButKind(raw: (RawToken, nat), t: (Token, nat)) {
    && raw.1 == t.1
    && raw.0.literal == t.0.literal
    && (raw.0.kind.Some? ==> raw.0.kind.value == t.0.kind)
    && (raw.0.kind.Some? <==>
          IsKeywordKind(t.0.kind) || (t.0.kind == Ident && t.0.literal !in ObjectPrototype))
  }

  /** Counterexample: the lexer's own test expects `=` to lex to a token of
      type "=", but the lexer as written gives it no type. */
  lemma AssignLosesKind()
    ensures NextToken("=", 0).0 == Token(Assign, "=")
    ensures NextTokenAsWritten("=", 0).0.kind.None?
  {
    assert NextToken("=", 0) == (Token(Assign, "="), 1);
    NextTokenAsWrittenLosesKinds("=", 0);
  }

  /** EOF loses its type as well: as written, the end of the input lexes to
      a token of type `undefined`, which the parser's statement loop
      (`while (currentToken.type !== 'EOF')`) never stops at. */
  lemma EofLosesKind()
    ensures NextToken("", 0).0 == Token(Eof, "eof")
    ensures NextTokenAsWritten("", 0).0.kind.None?
  {
    assert NextToken("", 0) == (Token(Eof, "eof"), 1);
    NextTokenAsWrittenLosesKinds("", 0);
  }

  /** `==` is not a token of this lexer: it is two ASSIGN tokens. */
  lemma EqualsIsTwoAssigns()
    ensures Tokenize("==") == [Token(Assign, "="), Token(Assign, "="), Token(Eof, "eof")]
  {
    assert NextToken("==", 0) == (Token(Assign, "="), 1);
    assert NextToken("==", 1) == (Token(Assign, "="), 2);
    assert NextToken("==", 2) == (Token(Eof, "eof"), 3);
  }
}
