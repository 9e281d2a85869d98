/** The grammar-table-driven recursive-descent parser.

    A rule is a sequence of symbols (the rule text already split on
    whitespace). Each symbol is a terminal, matched against the next token,
    or a nonterminal, resolved through the grammar table by trying its
    alternatives in order and committing to the first one whose sub-rule
    parses. Left recursion makes the source recurse without bound; the model
    takes a fuel bound that each sub-rule parse consumes one unit of.
 */
module Parser {
  import opened Lexer

  /** A value accumulated while parsing: the text of a captured token, or
      whatever a grammar factory builds from the values of its sub-rule. */
  datatype Value = Text(s: string) | Node(kind: string, children: seq<Value>)

  /** One alternative of a nonterminal: the factory applied to the values its
      sub-rule accumulates, and the sub-rule. */
  datatype Alternative = Alternative(factory: seq<Value> -> Value, rule: seq<string>)

  /** The grammar table: nonterminal name to its alternatives, in order. */
  type Grammar = map<string, seq<Alternative>>

  /** The tokens still to parse and the values accumulated so far. */
  datatype Context = Context(tokens: seq<Token>, matches: seq<Value>)

  /** Why a symbol could not be parsed. */
  datatype Cause =
    | EndOfInput              // no tokens were left
    | Unexpected(token: Token) // the next token is not the terminal expected
    | NoAlternative           // every alternative of the nonterminal failed

  /** The result of parsing: a new context, a parse failure naming the symbol
      expected, or the fuel ran out (the source's unbounded recursion). Only
      a parse failure is caught by an enclosing choice. */
  datatype Parsed = Ok(ctx: Context) | Fail(expected: string, cause: Cause) | OutOfFuel

  /** The token prefix that marks "capture a token of this kind". */
  const DefaultTokenId := "#"

  /** Characters a name may consist of and still name a nonterminal. */
  predicate IsNameChar(c: char) {
    'A' <= c <= 'Z' || c == '_'
  }

  /** Whether the name has some character other than A-Z and _. */
  function HasForeignChar(name: string): (r: bool)
    ensures r <==> exists i :: 0 <= i < |name| && !IsNameChar(name[i])
  {
    if |name| == 0 then false
    else if !IsNameChar(name[0]) then true
    else
      assert forall i :: 0 < i < |name| ==> name[i] == name[1..][i - 1];
      HasForeignChar(name[1..])
  }

  /** A symbol is a terminal when it has a character outside A-Z and _, or
      starts with the token prefix; an all-uppercase name is a nonterminal. */
  function IsToken(name: string, tokenId: string): (r: bool)
    ensures r <==> (exists i :: 0 <= i < |name| && !IsNameChar(name[i])) || tokenId <= name
  {
    HasForeignChar(name) || tokenId <= name
  }

  /** The factory of the default alternative, Python's str: called with the
      single captured token text it returns it; called with no value (the
      token matched literally) it returns the empty text. */
  function Str(args: seq<Value>): Value {
    if |args| == 1 then args[0] else Text("")
  }

  /** The alternatives of a nonterminal; a name missing from the grammar has
      the single alternative that captures a token of that kind. */
  function Alternatives(g: Grammar, name: string, tokenId: string): seq<Alternative> {
    if name in g then g[name] else [Alternative(Str, [tokenId + name])]
  }

  /** t ends with s. */
  predicate IsSuffix(s: seq<Token>, t: seq<Token>) {
    |s| <= |t| && t[|t| - |s|..] == s
  }

  /** Parses a rule from the given tokens, starting with no values. */
  function ParseRule(rule: seq<string>, tokens: seq<Token>, g: Grammar, tokenId: string, fuel: nat): (r: Parsed)
    ensures r.Ok? ==> IsSuffix(r.ctx.tokens, tokens)
    ensures r.Fail? ==> r.expected in rule
    decreases fuel, 3, 0
  {
    ParseSymbols(Context(tokens, []), rule, g, tokenId, fuel)
  }

  /** Folds ParseName over the symbols, left to right; the first symbol that
      does not parse ends the fold with its result. */
  function ParseSymbols(ctx: Context, symbols: seq<string>, g: Grammar, tokenId: string, fuel: nat): (r: Parsed)
    ensures r.Ok? ==> IsSuffix(r.ctx.tokens, ctx.tokens)
    ensures r.Fail? ==> r.expected in symbols
    decreases fuel, 2, |symbols|
  {
    if |symbols| == 0 then Ok(ctx)
    else
      match ParseName(ctx, symbols[0], g, tokenId, fuel)
      case Ok(next) => ParseSymbols(next, symbols[1..], g, tokenId, fuel)
      case other => other
  }

  /** Parses one symbol. A terminal consumes exactly one token; a nonterminal
      appends exactly one value to the matches it was given. */
  function ParseName(ctx: Context, name: string, g: Grammar, tokenId: string, fuel: nat): (r: Parsed)
    ensures |ctx.tokens| == 0 ==> r == Fail(name, EndOfInput)
    ensures r.Fail? ==> r.expected == name
    ensures r.Ok? ==> IsSuffix(r.ctx.tokens, ctx.tokens)
    ensures r.Ok? && IsToken(name, tokenId) ==> |r.ctx.tokens| + 1 == |ctx.tokens|
    ensures r.Ok? && !IsToken(name, tokenId) ==>
      |r.ctx.matches| == |ctx.matches| + 1 && ctx.matches <= r.ctx.matches
    decreases fuel, 1, 0
  {
    if |ctx.tokens| == 0 then Fail(name, EndOfInput)
    else if IsToken(name, tokenId) then
      var token := ctx.tokens[0];
      if tokenId + token.name == name then Ok(Context(ctx.tokens[1..], [Text(token.value)]))
      else if token.value == name then Ok(Context(ctx.tokens[1..], ctx.matches))
      else Fail(name, Unexpected(token))
    else
      TryAlternatives(ctx, name, Alternatives(g, name, tokenId), 0, g, tokenId, fuel)
  }

  /** Tries the alternatives from index i on, in order: the first whose
      sub-rule parses is committed to, its factory's value appended to the
      matches; a parse failure moves on to the next one. */
  function TryAlternatives(ctx: Context, name: string, alts: seq<Alternative>, i: nat,
                           g: Grammar, tokenId: string, fuel: nat): (r: Parsed)
    requires i <= |alts|
    ensures r.Fail? ==> r == Fail(name, NoAlternative)
    ensures r.Ok? ==> IsSuffix(r.ctx.tokens, ctx.tokens)
    ensures r.Ok? ==> |r.ctx.matches| == |ctx.matches| + 1 && ctx.matches <= r.ctx.matches
    decreases fuel, 0, |alts| - i
  {
    if i == |alts| then Fail(name, NoAlternative)
    else if fuel == 0 then OutOfFuel
    else
      match ParseRule(alts[i].rule, ctx.tokens, g, tokenId, fuel - 1)
      case Ok(sub) => Ok(Context(sub.tokens, ctx.matches + [alts[i].factory(sub.matches)]))
      case Fail(_, _) => TryAlternatives(ctx, name, alts, i + 1, g, tokenId, fuel)
      case OutOfFuel => OutOfFuel
  }

  /** The result of the top-level entry point. */
  datatype ParseResult =
    | Ast(value: Value)                       // the first accumulated value
    | Error(expected: string, cause: Cause)    // the parse failed
    | NoValue                                 // the rule parsed but accumulated no value
    | Exhausted                               // the fuel ran out

  /** parse: the first value the rule accumulates; tokens left over are not
      looked at. */
  function Parse(rule: seq<string>, tokens: seq<Token>, g: Grammar, tokenId: string, fuel: nat): (r: ParseResult)
    ensures r.Error? ==> r.expected in rule
  {
    match ParseRule(rule, tokens, g, tokenId, fuel)
    case Ok(c) => if |c.matches| == 0 then NoValue else Ast(c.matches[0])
    case Fail(expected, cause) => Error(expected, cause)
    case OutOfFuel => Exhausted
  }

  /** reflex: passes its one value on unchanged. As a factory it is called
      with the values of a sub-rule; with other than one value Python raises,
      and the model instead hands back the values under a "reflex" node. */
  function Reflex(args: seq<Value>): (r: Value)
    ensures |args| == 1 ==> r == args[0]
  {
    if |args| == 1 then args[0] else Node("reflex", args)
  }
}
