/** The Pratt parser (src/parser/parser.ts), over an abstract token stream.

    The parser state is the position of `currentToken` in the stream (the
    `peekToken` is the next one) and the error list. Reading past the end
    of the stream repeats its last token, as the lexer does after EOF or an
    ILLEGAL token. Every function takes a `fuel` bound on the depth of
    calls and loop iterations and halts with `OutOfFuel` when it runs out;
    the exception `parseIndexExpression` throws is the other way to halt. */
module Parser {
  import opened Wrappers
  import opened Token
  import opened Ast
  import Decimal

  /** A token stream the parser can read: never empty. */
  type Stream = ts: seq<Token> | |ts| > 0 witness [Token(Eof, "eof")]

  datatype PState = PState(pos: nat, errors: seq<string>)

  datatype Halt = OutOfFuel | Thrown(message: string)

  /** A parse result: the value and the state after it, or a halt. */
  datatype Parsed<+T> = Parsed(value: T, st: PState) | Halted(halt: Halt)
  {
    predicate IsFailure() {
      Halted?
    }

    function PropagateFailure<U>(): Parsed<U>
      requires Halted?
    {
      Halted(halt)
    }

    function Extract(): (T, PState)
      requires Parsed?
    {
      (value, st)
    }
  }

  // ---------------------------------------------------------------------
  // Precedences

  const LOWEST: int := 1
  const EQUALS: int := 2
  const LESSGREATER: int := 3
  const SUM: int := 4
  const PRODUCT: int := 5
  const PREFIX: int := 6
  const CALL: int := 7
  const INDEX: int := 8

  /** The `precedences` table, with `[` at INDEX; a kind without an entry
      counts as LOWEST (`peekPrecedence`, `curPrecedence`). */
  function Precedence(k: Kind): (p: int)
    ensures LOWEST <= p <= INDEX
    ensures p == EQUALS <==> k == Equal || k == NotEqual
    ensures p == LESSGREATER <==> k == LessThan || k == GreaterThan
    ensures p == SUM <==> k == Plus || k == Minus
    ensures p == PRODUCT <==> k == Slash || k == Asterisk
    ensures p == CALL <==> k == LParen
    ensures p == INDEX <==> k == LBracket
    ensures p != PREFIX
  {
    if k == Equal || k == NotEqual then EQUALS
    else if k == LessThan || k == GreaterThan then LESSGREATER
    else if k == Plus || k == Minus then SUM
    else if k == Slash || k == Asterisk then PRODUCT
    else if k == LParen then CALL
    else if k == LBracket then INDEX
    else LOWEST
  }

  /** `TokenType.<name>` used as a computed property key: the kind string
      of the kind the token table declares under `name`, or "undefined"
      when it declares none. */
  function MemberKey(name: string): (key: string)
    ensures TableLookup(name).Some? ==> key == KindString(TableLookup(name).value)
    ensures TableLookup(name).None? ==> key == "undefined"
  {
    match TableLookup(name)
    case Some(k) => KindString(k)
    case None => "undefined"
  }

  /** The `precedences` object as written, with each computed key
      `[TokenType.<name>]` already evaluated (`MemberKeysAsWritten` below):
      the token table has no member `LBracket`, so INDEX is filed under
      "undefined". */
  const PrecedencesAsWritten: map<string, int> := map[
    "==" := EQUALS, "!=" := EQUALS,
    "<" := LESSGREATER, ">" := LESSGREATER,
    "+" := SUM, "-" := SUM,
    "/" := PRODUCT, "*" := PRODUCT,
    "(" := CALL,
    "undefined" := INDEX
  ]

  /** `peekPrecedence` and `curPrecedence` over a precedence object: the
      entry filed under the kind string, LOWEST when there is none (every
      entry is a positive level, so truthy). */
  function PrecedenceIn(table: map<string, int>, k: Kind): int {
    if KindString(k) in table then table[KindString(k)] else LOWEST
  }

  /** The keys the comparison operators are filed under. */
  lemma MemberKeysComparisons()
    ensures MemberKey("Equal") == "==" && MemberKey("NotEqual") == "!="
    ensures MemberKey("LessThan") == "<" && MemberKey("GreaterThan") == ">"
  {
  }

  /** The keys the arithmetic operators are filed under. */
  lemma MemberKeysArithmetic()
    ensures MemberKey("Plus") == "+" && MemberKey("Minus") == "-"
    ensures MemberKey("Slash") == "/" && MemberKey("Asterisk") == "*"
  {
  }

  /** The keys the call and index operators are filed under. */
  lemma MemberKeysCalls()
    ensures MemberKey("LParen") == "(" && MemberKey("LBracket") == "undefined"
  {
  }

  /** The precedence object as written is the object literal in parser.ts
      with every computed key evaluated. */
  lemma MemberKeysAsWritten()
    ensures PrecedencesAsWritten == map[
      MemberKey("Equal") := EQUALS, MemberKey("NotEqual") := EQUALS,
      MemberKey("LessThan") := LESSGREATER, MemberKey("GreaterThan") := LESSGREATER,
      MemberKey("Plus") := SUM, MemberKey("Minus") := SUM,
      MemberKey("Slash") := PRODUCT, MemberKey("Asterisk") := PRODUCT,
      MemberKey("LParen") := CALL, MemberKey("LBracket") := INDEX]
  {
    MemberKeysComparisons();
    MemberKeysArithmetic();
    MemberKeysCalls();
  }

  /** As written, `[` finds no entry and is at LOWEST, below the INDEX
      level filed (under "undefined") for it. */
  lemma BracketAtLowestAsWritten()
    ensures PrecedencesAsWritten[MemberKey("LBracket")] == INDEX == Precedence(LBracket)
    ensures PrecedenceIn(PrecedencesAsWritten, LBracket) == LOWEST < Precedence(LBracket)
  {
    MemberKeysCalls();
  }

  /** Every other kind gets the level the corrected table gives it. */
  lemma PrecedencesAgreeAsWritten(k: Kind)
    requires k != LBracket
    ensures PrecedenceIn(PrecedencesAsWritten, k) == Precedence(k)
  {
    if k < Equal {
      PrecedencesAgreeLow(k);
    } else if k < Let {
      PrecedencesAgreeMiddle(k);
    } else {
      PrecedencesAgreeHigh(k);
    }
  }

  lemma PrecedencesAgreeLow(k: Kind)
    requires k < Equal
    ensures PrecedenceIn(PrecedencesAsWritten, k) == Precedence(k)
  {
  }

  lemma PrecedencesAgreeMiddle(k: Kind)
    requires Equal <= k < Let
    ensures PrecedenceIn(PrecedencesAsWritten, k) == Precedence(k)
  {
  }

  lemma PrecedencesAgreeHigh(k: Kind)
    requires Let <= k && k != LBracket
    ensures PrecedenceIn(PrecedencesAsWritten, k) == Precedence(k)
  {
  }

  /** The kinds with a registered prefix parse function. */
  predicate HasPrefix(k: Kind) {
    k == Ident || k == Int || k == Bang || k == Minus || k == True || k == False
    || k == LParen || k == If || k == Function || k == Str || k == LBracket || k == LSquirly
  }

  /** The kinds with a registered infix parse function. */
  predicate HasInfix(k: Kind) {
    k == Plus || k == Minus || k == Slash || k == Asterisk || k == Equal || k == NotEqual
    || k == LessThan || k == GreaterThan || k == LParen || k == LBracket
  }

  // ---------------------------------------------------------------------
  // Cursor and errors

  function Cur(ts: Stream, st: PState): Token {
    StreamAt(ts, st.pos)
  }

  function Peek(ts: Stream, st: PState): Token {
    StreamAt(ts, st.pos + 1)
  }

  /** `getNextToken`. */
  function Advance(st: PState): (st': PState)
    ensures st'.pos == st.pos + 1 && st'.errors == st.errors
  {
    st.(pos := st.pos + 1)
  }

  function AddError(st: PState, msg: string): (st': PState)
    ensures st'.pos == st.pos && st'.errors == st.errors + [msg]
  {
    st.(errors := st.errors + [msg])
  }

  function PeekErrorMessage(expected: Kind, got: Kind): string {
    "Expected next token to be " + KindString(expected) + ", got " + KindString(got) + " instead."
  }

  function NoPrefixMessage(k: Kind): string {
    "No prefix parse function for " + KindString(k) + " found."
  }

  function IntegerErrorMessage(literal: string): string {
    "Could not parse " + literal + " as integer."
  }

  const MissingBracketMessage: string := "Right bracket `]` not provided."

  /** `expectPeek`: advance exactly when the next token has the expected
      kind; otherwise record the peek error and stay put. */
  function ExpectPeek(ts: Stream, k: Kind, st: PState): (r: (bool, PState))
    ensures r.0 <==> Peek(ts, st).kind == k
    ensures r.0 ==> r.1 == Advance(st)
    ensures !r.0 ==> r.1 == AddError(st, PeekErrorMessage(k, Peek(ts, st).kind))
  {
    if Peek(ts, st).kind == k then (true, Advance(st))
    else (false, AddError(st, PeekErrorMessage(k, Peek(ts, st).kind)))
  }

  /** Advance past the next token if it is `;` (the optional terminator). */
  function SkipSemicolon(ts: Stream, st: PState): (st': PState)
    ensures Peek(ts, st).kind == Semicolon ==> st' == Advance(st)
    ensures Peek(ts, st).kind != Semicolon ==> st' == st
  {
    if Peek(ts, st).kind == Semicolon then Advance(st) else st
  }

  // ---------------------------------------------------------------------
  // The contract every parse function keeps

  /** The parser only moves forward and only ever appends errors. */
  predicate Grows(st: PState, st': PState) {
    st.pos <= st'.pos && st.errors <= st'.errors
  }

  /** No error was recorded in between. */
  predicate Clean(st: PState, st': PState) {
    st'.errors == st.errors
  }

  /** An expression result that either recorded an error or is a present,
      complete tree. */
  predicate ExprOk(r: Parsed<Option<Expr>>, st: PState) {
    r.Parsed? ==> Grows(st, r.st) && (Clean(st, r.st) ==> r.value.Some? && Complete(r.value.value))
  }

  // ---------------------------------------------------------------------
  // Expressions

  /** `parseExpression(precedence)`: a prefix parse of the current token,
      then the infix loop. */
  function ParseExpression(ts: Stream, prec: int, st: PState, fuel: nat): (r: Parsed<Option<Expr>>)
    ensures ExprOk(r, st)
    ensures r.Parsed? && !HasPrefix(Cur(ts, st).kind) ==>
              r.value.None? && r.st == AddError(st, NoPrefixMessage(Cur(ts, st).kind))
    decreases fuel, 3
  {
    if fuel == 0 then Halted(OutOfFuel)
    else if !HasPrefix(Cur(ts, st).kind) then
      Parsed(None, AddError(st, NoPrefixMessage(Cur(ts, st).kind)))
    else
      var left :- ParsePrefix(ts, st, fuel - 1);
      InfixLoop(ts, prec, left.0, left.1, fuel - 1)
  }

  /** The `while` loop of `parseExpression`: while the next token is not
      `;` and binds tighter than `prec`, hand the left expression to the
      next token's infix function. A missing left expression still consumes
      the operator token. */
  function InfixLoop(ts: Stream, prec: int, left: Option<Expr>, st: PState, fuel: nat)
    : (r: Parsed<Option<Expr>>)
    ensures r.Parsed? ==> Grows(st, r.st)
    ensures r.Parsed? && Clean(st, r.st) && left.Some? && Complete(left.value) ==>
              r.value.Some? && Complete(r.value.value)
    ensures r.Parsed? && left.None? ==> r.value.None?
    ensures Peek(ts, st).kind == Semicolon || prec >= Precedence(Peek(ts, st).kind) ==>
              r == Parsed(left, st)
    decreases fuel, 2
  {
    var next := Peek(ts, st).kind;
    if next == Semicolon || prec >= Precedence(next) then Parsed(left, st)
    else if !HasInfix(next) then Parsed(left, st)
    else if fuel == 0 then Halted(OutOfFuel)
    else if left.None? then InfixLoop(ts, prec, None, Advance(st), fuel - 1)
    else
      var e :- ParseInfix(ts, left.value, Advance(st), fuel - 1);
      InfixLoop(ts, prec, Some(e.0), e.1, fuel - 1)
  }

  /** The infix function registered for the current token: a call for `(`,
      an index for `[`, a binary operator otherwise. Never absent. */
  function ParseInfix(ts: Stream, left: Expr, st: PState, fuel: nat): (r: Parsed<Expr>)
    requires HasInfix(Cur(ts, st).kind)
    ensures r.Parsed? ==> Grows(st, r.st)
    ensures r.Parsed? && Clean(st, r.st) && Complete(left) ==> Complete(r.value)
    decreases fuel, 1
  {
    if fuel == 0 then Halted(OutOfFuel)
    else if Cur(ts, st).kind == LParen then ParseCall(ts, left, st, fuel - 1)
    else if Cur(ts, st).kind == LBracket then ParseIndex(ts, left, st, fuel - 1)
    else ParseOperator(ts, left, st, fuel - 1)
  }

  /** `parseInfixExpression`: the right operand is parsed at the operator's
      own precedence, which makes operators of one level associate to the
      left. */
  function ParseOperator(ts: Stream, left: Expr, st: PState, fuel: nat): (r: Parsed<Expr>)
    ensures r.Parsed? ==> Grows(st, r.st)
    ensures r.Parsed? && Clean(st, r.st) && Complete(left) ==> Complete(r.value)
    ensures r.Parsed? ==>
              (r.value.InfixExpr? && r.value.left == left && r.value.op == Cur(ts, st).literal)
    decreases fuel, 0
  {
    if fuel == 0 then Halted(OutOfFuel)
    else
      var tok := Cur(ts, st);
      var right :- ParseExpression(ts, Precedence(tok.kind), Advance(st), fuel - 1);
      Parsed(InfixExpr(tok, left, tok.literal, right.0), right.1)
  }

  /** `parseCallExpression`: the argument list up to `)`; a malformed list
      leaves the arguments empty. */
  function ParseCall(ts: Stream, fn: Expr, st: PState, fuel: nat): (r: Parsed<Expr>)
    ensures r.Parsed? ==> Grows(st, r.st)
    ensures r.Parsed? && Clean(st, r.st) && Complete(fn) ==> Complete(r.value)
    ensures r.Parsed? ==> r.value.CallExpr? && r.value.fn == fn
    decreases fuel, 0
  {
    if fuel == 0 then Halted(OutOfFuel)
    else
      var args :- ParseExpressionList(ts, RParen, st, fuel - 1);
      Parsed(CallExpr(Cur(ts, st), fn, args.0.GetOr([])), args.1)
  }

  /** `parseIndexExpression`: the index, then `]` or the exception. */
  function ParseIndex(ts: Stream, left: Expr, st: PState, fuel: nat): (r: Parsed<Expr>)
    ensures r.Parsed? ==> Grows(st, r.st)
    ensures r.Parsed? && Clean(st, r.st) && Complete(left) ==> Complete(r.value)
    ensures r.Parsed? ==> r.value.IndexExpr? && r.value.left == left
    decreases fuel, 0
  {
    if fuel == 0 then Halted(OutOfFuel)
    else
      var index :- ParseExpression(ts, LOWEST, Advance(st), fuel - 1);
      var (ok, st') := ExpectPeek(ts, RBracket, index.1);
      if !ok then Halted(Thrown(MissingBracketMessage))
      else Parsed(IndexExpr(Cur(ts, st), left, index.0), st')
  }

  /** The prefix function registered for the current token. */
  function ParsePrefix(ts: Stream, st: PState, fuel: nat): (r: Parsed<Option<Expr>>)
    requires HasPrefix(Cur(ts, st).kind)
    ensures ExprOk(r, st)
    decreases fuel, 2
  {
    var tok := Cur(ts, st);
    if fuel == 0 then Halted(OutOfFuel)
    else if tok.kind == Ident then Parsed(Some(Identifier(Name(tok, tok.literal))), st)
    else if tok.kind == Int then ParseIntegerLiteral(ts, st)
    else if tok.kind == True then Parsed(Some(BooleanLiteral(tok, true)), st)
    else if tok.kind == False then Parsed(Some(BooleanLiteral(tok, false)), st)
    else if tok.kind == Str then Parsed(Some(StringLiteral(tok, tok.literal)), st)
    else if tok.kind == Bang || tok.kind == Minus then ParsePrefixOperator(ts, st, fuel - 1)
    else if tok.kind == LParen then ParseGrouped(ts, st, fuel - 1)
    else if tok.kind == If then ParseIf(ts, st, fuel - 1)
    else if tok.kind == Function then ParseFunctionLiteral(ts, st, fuel - 1)
    else if tok.kind == LBracket then ParseArray(ts, st, fuel - 1)
    else ParseHash(ts, st, fuel - 1)
  }

  /** `parseIntegerLiteral`: the literal's value, or the "could not parse"
      error when `Number` gives NaN (modelled for decimal digit strings). */
  function ParseIntegerLiteral(ts: Stream, st: PState): (r: Parsed<Option<Expr>>)
    ensures r.Parsed?
    ensures r.value.Some? <==> Decimal.AllDigits(Cur(ts, st).literal)
    ensures r.value.Some? ==> r.st == st
    ensures r.value.Some? ==>
              r.value.value == IntegerLiteral(Cur(ts, st), Decimal.ParseDigits(Cur(ts, st).literal).value)
    ensures r.value.None? ==> r.st == AddError(st, IntegerErrorMessage(Cur(ts, st).literal))
  {
    var tok := Cur(ts, st);
    match Decimal.ParseDigits(tok.literal)
    case Some(n) => Parsed(Some(IntegerLiteral(tok, n)), st)
    case None => Parsed(None, AddError(st, IntegerErrorMessage(tok.literal)))
  }

  /** `parsePrefixExpression`: the operand is parsed at PREFIX precedence. */
  function ParsePrefixOperator(ts: Stream, st: PState, fuel: nat): (r: Parsed<Option<Expr>>)
    ensures ExprOk(r, st)
    ensures r.Parsed? ==>
              (r.value.Some? && r.value.value.PrefixExpr? && r.value.value.op == Cur(ts, st).literal)
    decreases fuel, 1
  {
    if fuel == 0 then Halted(OutOfFuel)
    else
      var tok := Cur(ts, st);
      var right :- ParseExpression(ts, PREFIX, Advance(st), fuel - 1);
      Parsed(Some(PrefixExpr(tok, tok.literal, right.0)), right.1)
  }

  /** `parseGroupedExpression`: the inner expression itself (no node of its
      own), provided `)` follows. */
  function ParseGrouped(ts: Stream, st: PState, fuel: nat): (r: Parsed<Option<Expr>>)
    ensures ExprOk(r, st)
    decreases fuel, 1
  {
    if fuel == 0 then Halted(OutOfFuel)
    else
      var inner :- ParseExpression(ts, LOWEST, Advance(st), fuel - 1);
      var (ok, st') := ExpectPeek(ts, RParen, inner.1);
      if !ok then Parsed(None, st') else Parsed(inner.0, st')
  }

  /** `parseIfExpression`: `( condition ) { block }`, then an optional
      `else { block }`; a missing delimiter drops the whole expression. */
  function ParseIf(ts: Stream, st: PState, fuel: nat): (r: Parsed<Option<Expr>>)
    ensures ExprOk(r, st)
    decreases fuel, 2
  {
    if fuel == 0 then Halted(OutOfFuel)
    else
      var (ok1, st1) := ExpectPeek(ts, LParen, st);
      if !ok1 then Parsed(None, st1)
      else
        var cond :- ParseExpression(ts, LOWEST, Advance(st1), fuel - 1);
        var (ok2, st2) := ExpectPeek(ts, RParen, cond.1);
        if !ok2 then Parsed(None, st2)
        else ParseConsequence(ts, Cur(ts, st), cond.0, st2, fuel)
  }

  /** The `{ block }` after the condition, then the optional `else`. */
  function ParseConsequence(ts: Stream, tok: Token, cond: Option<Expr>, st: PState, fuel: nat)
    : (r: Parsed<Option<Expr>>)
    requires fuel > 0
    ensures r.Parsed? ==> Grows(st, r.st)
    ensures r.Parsed? && Clean(st, r.st) && cond.Some? && Complete(cond.value) ==>
              r.value.Some? && Complete(r.value.value)
    decreases fuel, 1
  {
    var (ok, st') := ExpectPeek(ts, LSquirly, st);
    if !ok then Parsed(None, st')
    else
      var cons :- ParseBlock(ts, st', fuel - 1);
      ParseElse(ts, tok, cond, cons.0, cons.1, fuel)
  }

  /** The rest of `parseIfExpression` after the consequence: without a
      following `else` the `if` has no alternative; with one, `{ block }`
      must follow. */
  function ParseElse(ts: Stream, tok: Token, cond: Option<Expr>, cons: Block, st: PState, fuel: nat)
    : (r: Parsed<Option<Expr>>)
    requires fuel > 0
    ensures r.Parsed? ==> Grows(st, r.st)
    ensures r.Parsed? && Clean(st, r.st) && cond.Some? && Complete(cond.value)
              && StmtsComplete(cons.statements) ==>
              r.value.Some? && Complete(r.value.value)
    ensures Peek(ts, st).kind != Else ==> r == Parsed(Some(IfExpr(tok, cond, cons, None)), st)
    decreases fuel, 0
  {
    if Peek(ts, st).kind != Else then Parsed(Some(IfExpr(tok, cond, cons, None)), st)
    else
      var (ok, st') := ExpectPeek(ts, LSquirly, Advance(st));
      if !ok then Parsed(None, st')
      else
        var alt :- ParseBlock(ts, st', fuel - 1);
        Parsed(Some(IfExpr(tok, cond, cons, Some(alt.0))), alt.1)
  }

  /** `parseFunctionLiteral`: `(` parameters, then `{ body }`. A malformed
      parameter list leaves the parameters empty and parsing goes on. */
  function ParseFunctionLiteral(ts: Stream, st: PState, fuel: nat): (r: Parsed<Option<Expr>>)
    ensures ExprOk(r, st)
    decreases fuel, 1
  {
    if fuel == 0 then Halted(OutOfFuel)
    else
      var tok := Cur(ts, st);
      var (ok1, st1) := ExpectPeek(ts, LParen, st);
      if !ok1 then Parsed(None, st1)
      else
        var params :- ParseParameters(ts, st1, fuel - 1);
        var (ok2, st2) := ExpectPeek(ts, LSquirly, params.1);
        if !ok2 then Parsed(None, st2)
        else
          var body :- ParseBlock(ts, st2, fuel - 1);
          Parsed(Some(FunctionLiteral(tok, params.0.GetOr([]), body.0)), body.1)
  }

  /** `parseFunctionParameters`: the literal of every token in a comma list
      up to `)` becomes a parameter name, whatever its kind. */
  function ParseParameters(ts: Stream, st: PState, fuel: nat): (r: Parsed<Option<seq<Name>>>)
    ensures r.Parsed? ==> Grows(st, r.st)
    ensures r.Parsed? && Clean(st, r.st) ==> r.value.Some?
    ensures Peek(ts, st).kind == RParen ==> r == Parsed(Some([]), Advance(st))
    decreases fuel, 0
  {
    if Peek(ts, st).kind == RParen then Parsed(Some([]), Advance(st))
    else
      var st1 := Advance(st);
      var names :- ParameterLoop(ts, [Name(Cur(ts, st1), Cur(ts, st1).literal)], st1, fuel);
      var (ok, st2) := ExpectPeek(ts, RParen, names.1);
      if !ok then Parsed(None, st2) else Parsed(Some(names.0), st2)
  }

  function ParameterLoop(ts: Stream, names: seq<Name>, st: PState, fuel: nat)
    : (r: Parsed<seq<Name>>)
    ensures r.Parsed? ==> Grows(st, r.st) && Clean(st, r.st) && names <= r.value
    decreases fuel
  {
    if Peek(ts, st).kind != Comma then Parsed(names, st)
    else if fuel == 0 then Halted(OutOfFuel)
    else
      var st1 := Advance(Advance(st));
      ParameterLoop(ts, names + [Name(Cur(ts, st1), Cur(ts, st1).literal)], st1, fuel - 1)
  }

  /** `parseArrayLiteral`: the element list up to `]`, empty when
      malformed. */
  function ParseArray(ts: Stream, st: PState, fuel: nat): (r: Parsed<Option<Expr>>)
    ensures ExprOk(r, st)
    decreases fuel, 1
  {
    if fuel == 0 then Halted(OutOfFuel)
    else
      var elements :- ParseExpressionList(ts, RBracket, st, fuel - 1);
      Parsed(Some(ArrayLiteral(Cur(ts, st), elements.0.GetOr([]))), elements.1)
  }

  /** `parseExpressionList(end)`: a comma list of expressions up to `end`;
      an element that fails to parse is left out; None when `end` does not
      follow. */
  function ParseExpressionList(ts: Stream, end: Kind, st: PState, fuel: nat)
    : (r: Parsed<Option<seq<Expr>>>)
    ensures r.Parsed? ==> Grows(st, r.st)
    ensures r.Parsed? && Clean(st, r.st) ==> r.value.Some? && ExprsComplete(r.value.value)
    ensures Peek(ts, st).kind == end ==> r == Parsed(Some([]), Advance(st))
    decreases fuel, 0
  {
    if Peek(ts, st).kind == end then Parsed(Some([]), Advance(st))
    else if fuel == 0 then Halted(OutOfFuel)
    else
      var first :- ParseExpression(ts, LOWEST, Advance(st), fuel - 1);
      var items :- ListLoop(ts, OptionToSeq(first.0), first.1, fuel - 1);
      var (ok, st') := ExpectPeek(ts, end, items.1);
      if !ok then Parsed(None, st') else Parsed(Some(items.0), st')
  }

  function OptionToSeq(e: Option<Expr>): (r: seq<Expr>)
    ensures e.None? ==> r == []
    ensures e.Some? ==> r == [e.value]
    ensures ExprsComplete(r) <==> (e.Some? ==> Complete(e.value))
  {
    if e.Some? then
      assert [e.value][1..] == [];
      [e.value]
    else []
  }

  function ListLoop(ts: Stream, items: seq<Expr>, st: PState, fuel: nat)
    : (r: Parsed<seq<Expr>>)
    ensures r.Parsed? ==> Grows(st, r.st)
    ensures r.Parsed? && Clean(st, r.st) && ExprsComplete(items) ==> ExprsComplete(r.value)
    decreases fuel, 4
  {
    if Peek(ts, st).kind != Comma then Parsed(items, st)
    else if fuel == 0 then Halted(OutOfFuel)
    else
      var item :- ParseExpression(ts, LOWEST, Advance(Advance(st)), fuel - 1);
      ExprsCompleteAppend(items, OptionToSeq(item.0));
      ListLoop(ts, items + OptionToSeq(item.0), item.1, fuel - 1)
  }

  /** `parseHashLiteral`: `key : value` pairs separated by `,` up to `}`.
      A pair with a missing key or value is left out; a missing `:`, `,` or
      `}` drops the whole literal. */
  function ParseHash(ts: Stream, st: PState, fuel: nat): (r: Parsed<Option<Expr>>)
    ensures ExprOk(r, st)
    decreases fuel, 1
  {
    if fuel == 0 then Halted(OutOfFuel)
    else
      var pairs :- HashLoop(ts, [], st, fuel - 1);
      if pairs.0.None? then Parsed(None, pairs.1)
      else
        var (ok, st') := ExpectPeek(ts, RSquirly, pairs.1);
        if !ok then Parsed(None, st')
        else Parsed(Some(HashLiteral(Cur(ts, st), pairs.0.value)), st')
  }

  function HashLoop(ts: Stream, pairs: seq<Pair>, st: PState, fuel: nat)
    : (r: Parsed<Option<seq<Pair>>>)
    ensures r.Parsed? ==> Grows(st, r.st)
    ensures r.Parsed? && Clean(st, r.st) && PairsComplete(pairs) ==>
              r.value.Some? && PairsComplete(r.value.value)
    decreases fuel, 4
  {
    if Peek(ts, st).kind == RSquirly then Parsed(Some(pairs), st)
    else if fuel == 0 then Halted(OutOfFuel)
    else
      var key :- ParseExpression(ts, LOWEST, Advance(st), fuel - 1);
      var (ok1, st1) := ExpectPeek(ts, Colon, key.1);
      if !ok1 then Parsed(None, st1)
      else
        var value :- ParseExpression(ts, LOWEST, Advance(st1), fuel - 1);
        var pairs' := if key.0.Some? && value.0.Some? then pairs + [Pair(key.0.value, value.0.value)]
                      else pairs;
        assert Clean(st, value.1) && PairsComplete(pairs) ==> PairsComplete(pairs') by {
          if Clean(st, value.1) && PairsComplete(pairs) {
            var p := [Pair(key.0.value, value.0.value)];
            assert p[1..] == [];
            PairsCompleteAppend(pairs, p);
          }
        }
        HashSeparator(ts, pairs', value.1, fuel - 1)
  }

  /** After a pair: the loop goes on at a `}`, and otherwise a `,` must
      follow. */
  function HashSeparator(ts: Stream, pairs: seq<Pair>, st: PState, fuel: nat)
    : (r: Parsed<Option<seq<Pair>>>)
    ensures r.Parsed? ==> Grows(st, r.st)
    ensures r.Parsed? && Clean(st, r.st) && PairsComplete(pairs) ==>
              r.value.Some? && PairsComplete(r.value.value)
    decreases fuel, 5
  {
    if Peek(ts, st).kind == RSquirly then HashLoop(ts, pairs, st, fuel)
    else
      var (ok, st') := ExpectPeek(ts, Comma, st);
      if !ok then Parsed(None, st')
      else HashLoop(ts, pairs, st', fuel)
  }

  // ---------------------------------------------------------------------
  // Statements and blocks

  /** A statement result that either recorded an error or is a present,
      complete statement. */
  predicate StmtOk(r: Parsed<Option<Stmt>>, st: PState) {
    r.Parsed? ==> Grows(st, r.st) && (Clean(st, r.st) ==> r.value.Some? && StmtComplete(r.value.value))
  }

  /** `parseStatement`: dispatch on `let` and `return`; anything else is an
      expression statement. */
  function ParseStatement(ts: Stream, st: PState, fuel: nat): (r: Parsed<Option<Stmt>>)
    ensures StmtOk(r, st)
    ensures r.Parsed? && r.value.Some? ==> r.value.value.token == Cur(ts, st)
    ensures r.Parsed? && Cur(ts, st).kind == Let ==> r.value.None? || r.value.value.LetStmt?
    ensures r.Parsed? && Cur(ts, st).kind == Return ==> r.value.Some? && r.value.value.ReturnStmt?
    ensures r.Parsed? && Cur(ts, st).kind != Let && Cur(ts, st).kind != Return ==>
              r.value.Some? && r.value.value.ExprStmt?
    decreases fuel, 5
  {
    if fuel == 0 then Halted(OutOfFuel)
    else if Cur(ts, st).kind == Let then ParseLet(ts, st, fuel - 1)
    else if Cur(ts, st).kind == Return then ParseReturn(ts, st, fuel - 1)
    else ParseExpressionStatement(ts, st, fuel - 1)
  }

  /** `parseLetStatement`: `let` IDENT `=` expression, with an optional
      `;`; no statement at all when the name or the `=` is missing. */
  function ParseLet(ts: Stream, st: PState, fuel: nat): (r: Parsed<Option<Stmt>>)
    ensures StmtOk(r, st)
    ensures r.Parsed? && r.value.Some? ==> r.value.value.LetStmt? && r.value.value.token == Cur(ts, st)
    ensures Peek(ts, st).kind != Ident ==>
              r == Parsed(None, AddError(st, PeekErrorMessage(Ident, Peek(ts, st).kind)))
    ensures Peek(ts, st).kind == Ident && StreamAt(ts, st.pos + 2).kind != Assign ==>
              r == Parsed(None, AddError(Advance(st), PeekErrorMessage(Assign, StreamAt(ts, st.pos + 2).kind)))
    ensures Peek(ts, st).kind == Ident && StreamAt(ts, st.pos + 2).kind == Assign && fuel > 0 ==>
              var v := ParseExpression(ts, LOWEST, st.(pos := st.pos + 3), fuel - 1);
              v.Parsed? ==>
                r == Parsed(Some(LetStmt(Cur(ts, st), Name(Peek(ts, st), Peek(ts, st).literal), v.value)),
                            SkipSemicolon(ts, v.st))
    decreases fuel, 4
  {
    var tok := Cur(ts, st);
    var (ok1, st1) := ExpectPeek(ts, Ident, st);
    if !ok1 then Parsed(None, st1)
    else
      var name := Name(Cur(ts, st1), Cur(ts, st1).literal);
      var (ok2, st2) := ExpectPeek(ts, Assign, st1);
      if !ok2 then Parsed(None, st2)
      else if fuel == 0 then Halted(OutOfFuel)
      else
        assert Advance(st2) == st.(pos := st.pos + 3);
        var value :- ParseExpression(ts, LOWEST, Advance(st2), fuel - 1);
        Parsed(Some(LetStmt(tok, name, value.0)), SkipSemicolon(ts, value.1))
  }

  /** `parseReturnStatement`: `return` expression, with an optional `;`. */
  function ParseReturn(ts: Stream, st: PState, fuel: nat): (r: Parsed<Option<Stmt>>)
    ensures StmtOk(r, st)
    ensures r.Parsed? ==> r.value.Some? && r.value.value.ReturnStmt? && r.value.value.token == Cur(ts, st)
    ensures fuel > 0 ==>
              var v := ParseExpression(ts, LOWEST, Advance(st), fuel - 1);
              v.Parsed? ==> r == Parsed(Some(ReturnStmt(Cur(ts, st), v.value)), SkipSemicolon(ts, v.st))
    decreases fuel, 4
  {
    if fuel == 0 then Halted(OutOfFuel)
    else
      var value :- ParseExpression(ts, LOWEST, Advance(st), fuel - 1);
      Parsed(Some(ReturnStmt(Cur(ts, st), value.0)), SkipSemicolon(ts, value.1))
  }

  /** `parseExpressionStatement`: always a statement, even when the
      expression failed to parse. */
  function ParseExpressionStatement(ts: Stream, st: PState, fuel: nat): (r: Parsed<Option<Stmt>>)
    ensures StmtOk(r, st)
    ensures r.Parsed? ==> r.value.Some? && r.value.value.ExprStmt? && r.value.value.token == Cur(ts, st)
    ensures fuel > 0 ==>
              var v := ParseExpression(ts, LOWEST, st, fuel - 1);
              v.Parsed? ==> r == Parsed(Some(ExprStmt(Cur(ts, st), v.value)), SkipSemicolon(ts, v.st))
    decreases fuel, 4
  {
    if fuel == 0 then Halted(OutOfFuel)
    else
      var e :- ParseExpression(ts, LOWEST, st, fuel - 1);
      Parsed(Some(ExprStmt(Cur(ts, st), e.0)), SkipSemicolon(ts, e.1))
  }

  /** `parseBlockStatement`: the statements after `{` up to `}`. The loop
      also stops at an ILLEGAL token, as `ParseProgram`'s does (see
      `BlockLoopAsWritten` for the loop as written). */
  function ParseBlock(ts: Stream, st: PState, fuel: nat): (r: Parsed<Block>)
    ensures r.Parsed? ==> Grows(st, r.st)
    ensures r.Parsed? && Clean(st, r.st) ==> StmtsComplete(r.value.statements)
    ensures r.Parsed? ==> r.value.token == Cur(ts, st) && Cur(ts, r.st).kind in BlockStops
    decreases fuel, 7
  {
    if fuel == 0 then Halted(OutOfFuel)
    else
      var ss :- BlockLoop(ts, [], Advance(st), fuel - 1);
      Parsed(Block(Cur(ts, st), ss.0), ss.1)
  }

  /** The statement loop shared by blocks and programs: stop at one of
      `stops`, otherwise parse a statement, keep it when there is one, and
      step past its last token. */
  function StatementLoop(ts: Stream, stops: set<Kind>, stmts: seq<Stmt>, st: PState, fuel: nat)
    : (r: Parsed<seq<Stmt>>)
    ensures r.Parsed? ==> Grows(st, r.st) && stmts <= r.value
    ensures r.Parsed? ==> Cur(ts, r.st).kind in stops
    ensures r.Parsed? && Clean(st, r.st) && StmtsComplete(stmts) ==> StmtsComplete(r.value)
    decreases fuel, 6
  {
    if Cur(ts, st).kind in stops then Parsed(stmts, st)
    else if fuel == 0 then Halted(OutOfFuel)
    else
      var s :- ParseStatement(ts, st, fuel - 1);
      var stmts' := if s.0.Some? then stmts + [s.0.value] else stmts;
      assert Clean(st, s.1) && StmtsComplete(stmts) ==> StmtsComplete(stmts') by {
        if Clean(st, s.1) && StmtsComplete(stmts) {
          var one := [s.0.value];
          assert one[1..] == [];
          StmtsCompleteAppend(stmts, one);
        }
      }
      StatementLoop(ts, stops, stmts', Advance(s.1), fuel - 1)
  }

  const BlockStops: set<Kind> := {RSquirly, Eof, Illegal}

  function BlockLoop(ts: Stream, stmts: seq<Stmt>, st: PState, fuel: nat)
    : (r: Parsed<seq<Stmt>>)
    ensures r.Parsed? ==> Grows(st, r.st) && stmts <= r.value
    ensures r.Parsed? && Clean(st, r.st) && StmtsComplete(stmts) ==> StmtsComplete(r.value)
    ensures r.Parsed? ==> Cur(ts, r.st).kind in BlockStops
    decreases fuel, 7
  {
    StatementLoop(ts, BlockStops, stmts, st, fuel)
  }

  // ---------------------------------------------------------------------
  // Programs

  const ProgramStops: set<Kind> := {Eof, Illegal}

  function IllegalStartMessage(literal: string): string {
    "Provided token is not supported. got=" + literal
  }

  /** `ParseProgram`: an error when the very first token is ILLEGAL, then
      statements up to EOF or ILLEGAL. */
  function ParseProgram(ts: Stream, fuel: nat): (r: Parsed<Program>)
    ensures r.Parsed? ==> Cur(ts, r.st).kind in ProgramStops
    ensures r.Parsed? && |r.st.errors| == 0 ==> ProgramComplete(r.value)
    ensures r.Parsed? && ts[0].kind == Illegal ==>
              r.value == Program([]) && r.st == PState(0, [IllegalStartMessage(ts[0].literal)])
    ensures ts[0].kind != Illegal ==>
              var loop := StatementLoop(ts, ProgramStops, [], PState(0, []), fuel);
              loop.Parsed? ==> r == Parsed(Program(loop.value), loop.st)
  {
    var st0 := PState(0, []);
    var st := if ts[0].kind == Illegal then AddError(st0, IllegalStartMessage(ts[0].literal)) else st0;
    var ss :- StatementLoop(ts, ProgramStops, [], st, fuel);
    Parsed(Program(ss.0), ss.1)
  }

  // ---------------------------------------------------------------------
  // Helpers about completeness of lists

  lemma {:induction false} ExprsCompleteAppend(a: seq<Expr>, b: seq<Expr>)
    ensures ExprsComplete(a + b) <==> ExprsComplete(a) && ExprsComplete(b)
    decreases a
  {
    if |a| > 0 {
      assert (a + b)[1..] == a[1..] + b;
      ExprsCompleteAppend(a[1..], b);
    } else {
      assert a + b == b;
    }
  }

  lemma {:induction false} PairsCompleteAppend(a: seq<Pair>, b: seq<Pair>)
    ensures PairsComplete(a + b) <==> PairsComplete(a) && PairsComplete(b)
    decreases a
  {
    if |a| > 0 {
      assert (a + b)[1..] == a[1..] + b;
      PairsCompleteAppend(a[1..], b);
    } else {
      assert a + b == b;
    }
  }

  lemma {:induction false} StmtsCompleteAppend(a: seq<Stmt>, b: seq<Stmt>)
    ensures StmtsComplete(a + b) <==> StmtsComplete(a) && StmtsComplete(b)
    decreases a
  {
    if |a| > 0 {
      assert (a + b)[1..] == a[1..] + b;
      StmtsCompleteAppend(a[1..], b);
    } else {
      assert a + b == b;
    }
  }
}
