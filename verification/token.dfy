/** Token kinds, tokens and the keyword table (src/token/token.ts). */
module Token {
  import opened Wrappers

  /** A token kind, numbered in the order token.ts declares the kinds; the
      last four are compared against by the parser but are not declared in
      the token table. */
  newtype Kind = k: int | 0 <= k < 31

  const Illegal: Kind := 0
  const Eof: Kind := 1
  const Ident: Kind := 2
  const Int: Kind := 3
  const Assign: Kind := 4
  const Bang: Kind := 5
  const Plus: Kind := 6
  const Minus: Kind := 7
  const Asterisk: Kind := 8
  const Slash: Kind := 9
  const GreaterThan: Kind := 10
  const LessThan: Kind := 11
  const Equal: Kind := 12
  const NotEqual: Kind := 13
  const LParen: Kind := 14
  const RParen: Kind := 15
  const LSquirly: Kind := 16
  const RSquirly: Kind := 17
  const Comma: Kind := 18
  const Semicolon: Kind := 19
  const Let: Kind := 20
  const Function: Kind := 21
  const True: Kind := 22
  const False: Kind := 23
  const If: Kind := 24
  const Else: Kind := 25
  const Return: Kind := 26
  const Str: Kind := 27
  const LBracket: Kind := 28
  const RBracket: Kind := 29
  const Colon: Kind := 30

  /** The kind string: a token's `type`, the thing the parser compares and
      prints in its error messages. */
  function KindString(k: Kind): string {
    if k == Illegal then "ILLEGAL"
    else if k == Eof then "EOF"
    else if k == Ident then "IDENT"
    else if k == Int then "INT"
    else if k == Assign then "="
    else if k == Bang then "!"
    else if k == Plus then "+"
    else if k == Minus then "-"
    else if k == Asterisk then "*"
    else if k == Slash then "/"
    else if k == GreaterThan then ">"
    else if k == LessThan then "<"
    else if k == Equal then "=="
    else if k == NotEqual then "!="
    else if k == LParen then "("
    else if k == RParen then ")"
    else if k == LSquirly then "{"
    else if k == RSquirly then "}"
    else if k == Comma then ","
    else if k == Semicolon then ";"
    else if k == Let then "LET"
    else if k == Function then "FUNCTION"
    else if k == True then "TRUE"
    else if k == False then "FALSE"
    else if k == If then "IF"
    else if k == Else then "ELSE"
    else if k == Return then "RETURN"
    else if k == Str then "STRING"
    else if k == LBracket then "["
    else if k == RBracket then "]"
    else ":"
  }

  /** The key under which the token table lists a kind (`TokenType.Assign`
      has key "Assign"); None for the kinds the table does not declare. */
  function KindName(k: Kind): Option<string> {
    if k == Illegal then Some("Illegal")
    else if k == Eof then Some("Eof")
    else if k == Ident then Some("Ident")
    else if k == Int then Some("Int")
    else if k == Assign then Some("Assign")
    else if k == Bang then Some("Bang")
    else if k == Plus then Some("Plus")
    else if k == Minus then Some("Minus")
    else if k == Asterisk then Some("Asterisk")
    else if k == Slash then Some("Slash")
    else if k == GreaterThan then Some("GreaterThan")
    else if k == LessThan then Some("LessThan")
    else if k == Equal then Some("Equal")
    else if k == NotEqual then Some("NotEqual")
    else if k == LParen then Some("LParen")
    else if k == RParen then Some("RParen")
    else if k == LSquirly then Some("LSquirly")
    else if k == RSquirly then Some("RSquirly")
    else if k == Comma then Some("Comma")
    else if k == Semicolon then Some("Semicolon")
    else if k == Let then Some("Let")
    else if k == Function then Some("Function")
    else if k == True then Some("True")
    else if k == False then Some("False")
    else if k == If then Some("If")
    else if k == Else then Some("Else")
    else if k == Return then Some("Return")
    else None
  }

  /** The kind a kind string names: the inverse of `KindString`. */
  function SpellingKind(s: string): (k: Option<Kind>)
  {
    if s == "ILLEGAL" then Some(Illegal) else if s == "EOF" then Some(Eof)
    else if s == "IDENT" then Some(Ident) else if s == "INT" then Some(Int)
    else if s == "=" then Some(Assign) else if s == "!" then Some(Bang)
    else if s == "+" then Some(Plus) else if s == "-" then Some(Minus)
    else if s == "*" then Some(Asterisk) else if s == "/" then Some(Slash)
    else if s == ">" then Some(GreaterThan) else if s == "<" then Some(LessThan)
    else if s == "==" then Some(Equal) else if s == "!=" then Some(NotEqual)
    else if s == "(" then Some(LParen) else if s == ")" then Some(RParen)
    else if s == "{" then Some(LSquirly) else if s == "}" then Some(RSquirly)
    else if s == "," then Some(Comma) else if s == ";" then Some(Semicolon)
    else if s == "LET" then Some(Let) else if s == "FUNCTION" then Some(Function)
    else if s == "TRUE" then Some(True) else if s == "FALSE" then Some(False)
    else if s == "IF" then Some(If) else if s == "ELSE" then Some(Else)
    else if s == "RETURN" then Some(Return) else if s == "STRING" then Some(Str)
    else if s == "[" then Some(LBracket) else if s == "]" then Some(RBracket)
    else if s == ":" then Some(Colon) else None
  }

  lemma SpellingKindInverse(k: Kind)
    ensures SpellingKind(KindString(k)) == Some(k)
  {
    if k < Equal {
      SpellingKindInverseLow(k);
    } else if k < Let {
      SpellingKindInverseMiddle(k);
    } else {
      SpellingKindInverseHigh(k);
    }
  }

  lemma SpellingKindInverseLow(k: Kind)
    requires k < Equal
    ensures SpellingKind(KindString(k)) == Some(k)
  {
  }

  lemma SpellingKindInverseMiddle(k: Kind)
    requires Equal <= k < Let
    ensures SpellingKind(KindString(k)) == Some(k)
  {
  }

  lemma SpellingKindInverseHigh(k: Kind)
    requires Let <= k
    ensures SpellingKind(KindString(k)) == Some(k)
  {
  }

  /** The kind strings are pairwise distinct, so comparing kind strings (as
      the parser does) decides kind equality. */
  lemma KindStringInjective(a: Kind, b: Kind)
    ensures KindString(a) == KindString(b) <==> a == b
  {
    SpellingKindInverse(a);
    SpellingKindInverse(b);
  }

  /** No kind is spelled "undefined". */
  lemma KindStringNotUndefined(k: Kind)
    ensures KindString(k) != "undefined"
  {
    SpellingKindInverse(k);
    assert SpellingKind("undefined").None?;
  }

  /** No two kinds share a key, so a key names one kind. */
  lemma KindNameInjective(a: Kind, b: Kind)
    requires KindName(a).Some? && KindName(a) == KindName(b)
    ensures a == b
  {
    TableLookupInverse(a);
    TableLookupInverse(b);
  }

  /** A token whose kind is known. */
  datatype Token = Token(kind: Kind, literal: string)

  /** A token stream as the parser reads it: reading past the end yields the
      last token again, as the lexer does once it has produced EOF at the end
      of its input or an ILLEGAL token (which it never moves past). */
  function StreamAt(ts: seq<Token>, i: nat): Token
    requires |ts| > 0
  {
    if i < |ts| then ts[i] else ts[|ts| - 1]
  }

  /** A token as `createToken` builds it: its type is whatever indexing the
      token table produced, None when that is `undefined`. */
  datatype RawToken = RawToken(kind: Option<Kind>, literal: string)

  /** Indexing the token table `TokenType[key]`: the kind listed under `key`,
      or None (`undefined`) when the table has no such key. */
  function TableLookup(key: string): (r: Option<Kind>)
    ensures r.Some? ==> KindName(r.value) == Some(key)
  {
    if key == "Illegal" then Some(Illegal) else if key == "Eof" then Some(Eof)
    else if key == "Ident" then Some(Ident) else if key == "Int" then Some(Int)
    else if key == "Assign" then Some(Assign) else if key == "Bang" then Some(Bang)
    else if key == "Plus" then Some(Plus) else if key == "Minus" then Some(Minus)
    else if key == "Asterisk" then Some(Asterisk) else if key == "Slash" then Some(Slash)
    else if key == "GreaterThan" then Some(GreaterThan) else if key == "LessThan" then Some(LessThan)
    else if key == "Equal" then Some(Equal) else if key == "NotEqual" then Some(NotEqual)
    else if key == "LParen" then Some(LParen) else if key == "RParen" then Some(RParen)
    else if key == "LSquirly" then Some(LSquirly) else if key == "RSquirly" then Some(RSquirly)
    else if key == "Comma" then Some(Comma) else if key == "Semicolon" then Some(Semicolon)
    else if key == "Let" then Some(Let) else if key == "Function" then Some(Function)
    else if key == "True" then Some(True) else if key == "False" then Some(False)
    else if key == "If" then Some(If) else if key == "Else" then Some(Else)
    else if key == "Return" then Some(Return)
    else None
  }

  /** The lookup finds every key the table declares. */
  lemma TableLookupComplete(key: string)
    ensures TableLookup(key).None? <==> forall k: Kind :: KindName(k) != Some(key)
  {
    forall k: Kind | KindName(k) == Some(key) {
      TableLookupInverse(k);
    }
  }

  /** `createToken(item, literal)`: the type is the table entry for `item`,
      the literal is kept verbatim. */
  function CreateToken(item: string, literal: string): (t: RawToken)
    ensures t.literal == literal
    ensures t.kind.Some? <==> exists k: Kind :: KindName(k) == Some(item)
    ensures t.kind.Some? ==> KindName(t.kind.value) == Some(item)
  {
    TableLookupComplete(item);
    RawToken(TableLookup(item), literal)
  }

  /** Looking up a kind's own key finds that kind. */
  lemma TableLookupInverse(k: Kind)
    requires KindName(k).Some?
    ensures TableLookup(KindName(k).value) == Some(k)
  {
    if k < Equal {
      TableLookupInverseLow(k);
    } else if k < Let {
      TableLookupInverseMiddle(k);
    } else {
      TableLookupInverseHigh(k);
    }
  }

  lemma TableLookupInverseLow(k: Kind)
    requires k < Equal
    ensures TableLookup(KindName(k).value) == Some(k)
  {
  }

  lemma TableLookupInverseMiddle(k: Kind)
    requires Equal <= k < Let
    ensures TableLookup(KindName(k).value) == Some(k)
  {
  }

  lemma TableLookupInverseHigh(k: Kind)
    requires Let <= k && KindName(k).Some?
    ensures TableLookup(KindName(k).value) == Some(k)
  {
  }

  /** Called with a table key, `createToken` yields a token of that kind. */
  lemma CreateTokenByKey(k: Kind, literal: string)
    requires KindName(k).Some?
    ensures CreateToken(KindName(k).value, literal) == RawToken(Some(k), literal)
  {
    TableLookupInverse(k);
  }

  /** Every key of the token table ends in a lower-case letter. */
  lemma KeysEndInLowerCase(k: Kind)
    requires KindName(k).Some?
    ensures EndsInLowerCase(KindName(k).value)
  {
  }

  /** A string whose last character is a lower-case letter. */
  predicate EndsInLowerCase(s: string) {
    |s| > 0 && 'a' <= s[|s| - 1] <= 'z'
  }

  /** A string that cannot be a key of the token table gives a token of no
      kind. */
  lemma NoKeyNoKind(item: string, literal: string)
    requires !EndsInLowerCase(item)
    ensures CreateToken(item, literal).kind.None?
  {
    var r := TableLookup(item);
    if r.Some? {
      KeysEndInLowerCase(r.value);
    }
  }

  // ---------------------------------------------------------------------
  // The keyword record

  /** The keyword record `Keywords`: each keyword spelling with the key of
      its kind in the token table. */
  const Keywords: map<string, string> := map[
    "fn" := "Function",
    "let" := "Let",
    "true" := "True",
    "false" := "False",
    "if" := "If",
    "else" := "Else",
    "return" := "Return"
  ]

  /** The keyword record's own entry for `ident`, as the kind filed under
      the key it holds. */
  function Keyword(ident: string): (r: Option<Kind>)
    ensures r.Some? <==> ident in Keywords
    ensures r.Some? ==> KindName(r.value) == Some(Keywords[ident])
  {
    if ident == "fn" then Some(Function)
    else if ident == "let" then Some(Let)
    else if ident == "true" then Some(True)
    else if ident == "false" then Some(False)
    else if ident == "if" then Some(If)
    else if ident == "else" then Some(Else)
    else if ident == "return" then Some(Return)
    else None
  }

  /** `lookupIdentity` looking at the record's own entries only: a
      keyword's kind for the seven keyword spellings, `Ident` for every
      other string (case matters). */
  function LookupIdentity(ident: string): (k: Kind)
    ensures k == Ident <==> ident !in Keywords
    ensures ident in Keywords ==> KindName(k) == Some(Keywords[ident])
    ensures k == Function <==> ident == "fn"
    ensures k == Let <==> ident == "let"
    ensures k == True <==> ident == "true"
    ensures k == False <==> ident == "false"
    ensures k == If <==> ident == "if"
    ensures k == Else <==> ident == "else"
    ensures k == Return <==> ident == "return"
  {
    match Keyword(ident)
    case Some(kw) => kw
    case None => Ident
  }

  /** A property value, as far as the keyword lookup needs one: a string,
      or an object inherited from Object.prototype, given by its string
      conversion. */
  datatype Value = JsString(s: string) | JsObject(text: string)

  /** The string conversion of a built-in function. */
  function NativeFunction(name: string): string {
    "function " + name + "() { [native code] }"
  }

  /** The properties every plain JavaScript object inherits from
      Object.prototype, with the string conversion of their values:
      `constructor` is the function `Object` and `__proto__` is
      Object.prototype itself. */
  const ObjectPrototype: map<string, string> := map[
    "constructor" := NativeFunction("Object"),
    "__defineGetter__" := NativeFunction("__defineGetter__"),
    "__defineSetter__" := NativeFunction("__defineSetter__"),
    "hasOwnProperty" := NativeFunction("hasOwnProperty"),
    "__lookupGetter__" := NativeFunction("__lookupGetter__"),
    "__lookupSetter__" := NativeFunction("__lookupSetter__"),
    "isPrototypeOf" := NativeFunction("isPrototypeOf"),
    "propertyIsEnumerable" := NativeFunction("propertyIsEnumerable"),
    "toString" := NativeFunction("toString"),
    "valueOf" := NativeFunction("valueOf"),
    "toLocaleString" := NativeFunction("toLocaleString"),
    "__proto__" := "[object Object]"
  ]

  /** `Keywords[ident]` on the plain object token.ts builds: an own entry,
      else an inherited member, else `undefined` (None). */
  function KeywordsGet(ident: string): (r: Option<Value>)
    ensures r.Some? <==> ident in Keywords || ident in ObjectPrototype
    ensures ident in Keywords ==> r == Some(JsString(Keywords[ident]))
  {
    if ident in Keywords then Some(JsString(Keywords[ident]))
    else if ident in ObjectPrototype then Some(JsObject(ObjectPrototype[ident]))
    else None
  }

  /** JavaScript truthiness of a property value. */
  predicate Truthy(v: Value) {
    v.JsString? ==> v.s != ""
  }

  /** `lookupIdentity` as written: the value found, when it is truthy, else
      the key "Ident". */
  function LookupIdentityAsWritten(ident: string): (v: Value)
    ensures ident in Keywords ==> v == JsString(Keywords[ident])
    ensures ident !in Keywords && ident !in ObjectPrototype ==> v == JsString("Ident")
    ensures ident !in Keywords && ident in ObjectPrototype ==> v.JsObject?
  {
    match KeywordsGet(ident)
    case Some(v) => if Truthy(v) then v else JsString("Ident")
    case None => JsString("Ident")
  }

  /** A value used as a property key: its string conversion. */
  function PropertyKey(v: Value): string {
    match v
    case JsString(s) => s
    case JsObject(text) => text
  }

  /** The kind the lexer as written gives a word: `createToken` of the key
      `lookupIdentity` returned. */
  function IdentityKindAsWritten(ident: string): Option<Kind> {
    CreateToken(PropertyKey(LookupIdentityAsWritten(ident)), ident).kind
  }

  /** The lookup as written agrees with the corrected one, except that a
      word spelled like an inherited member gets no kind: the member is
      truthy and is returned in place of a key, and its string conversion
      is not a key of the token table. */
  lemma IdentityKindsAsWritten(ident: string)
    ensures ident !in ObjectPrototype ==> IdentityKindAsWritten(ident) == Some(LookupIdentity(ident))
    ensures ident in ObjectPrototype ==> IdentityKindAsWritten(ident).None?
  {
    if ident in Keywords {
      KeywordsAreOwn(ident);
      KeywordKindAsWritten(ident);
    } else if ident in ObjectPrototype {
      InheritedKindAsWritten(ident);
    } else {
      CreateTokenByKey(Ident, ident);
    }
  }

  /** No keyword is spelled like an inherited member. */
  lemma KeywordsAreOwn(ident: string)
    requires ident in Keywords
    ensures ident !in ObjectPrototype
  {
  }

  lemma KeywordKindAsWritten(ident: string)
    requires ident in Keywords
    ensures IdentityKindAsWritten(ident) == Some(LookupIdentity(ident))
  {
    CreateTokenByKey(LookupIdentity(ident), ident);
  }

  lemma InheritedKindAsWritten(ident: string)
    requires ident !in Keywords && ident in ObjectPrototype
    ensures IdentityKindAsWritten(ident).None?
  {
    PrototypeKeysAreNoKeys(ident);
    NoKeyNoKind(ObjectPrototype[ident], ident);
  }

  /** The string conversion of an inherited member ends in `}` or `]`. */
  lemma PrototypeKeysAreNoKeys(ident: string)
    requires ident in ObjectPrototype
    ensures !EndsInLowerCase(ObjectPrototype[ident])
  {
  }

  /** Counterexample: "constructor" is an identifier by the keyword rule, but
      the lookup as written gives it no kind. */
  lemma LookupIdentityConstructor()
    ensures LookupIdentity("constructor") == Ident
    ensures IdentityKindAsWritten("constructor").None?
  {
    IdentityKindsAsWritten("constructor");
  }
}
