/** Properties of the parser: terminals, ordered committed choice, the
    default alternative, sequencing of rules and the top-level entry point. */
module ParserProperties {
  import opened Lexer
  import opened Parser

  // ---------------------------------------------------------------------
  // Symbol classification.
  // ---------------------------------------------------------------------

  /** Names made only of A-Z and _ that do not start with the token prefix
      are nonterminals; everything starting with the prefix is a terminal. */
  lemma UppercaseIsNonterminal(name: string, tokenId: string)
    ensures (forall i :: 0 <= i < |name| ==> IsNameChar(name[i])) && !(tokenId <= name) ==> !IsToken(name, tokenId)
    ensures tokenId <= name ==> IsToken(name, tokenId)
  {
  }

  /** Examples with the default prefix: upper-case names are nonterminals,
      lower-case words and punctuation are literal terminals. */
  lemma ClassificationExamples()
    ensures !IsToken("EXPR", DefaultTokenId) && !IsToken("BIN_OP", DefaultTokenId)
    ensures IsToken("#ID", DefaultTokenId) && IsToken("if", DefaultTokenId) && IsToken("(", DefaultTokenId)
  {
    assert forall i :: 0 <= i < |"EXPR"| ==> IsNameChar("EXPR"[i]);
    assert forall i :: 0 <= i < |"BIN_OP"| ==> IsNameChar("BIN_OP"[i]);
    assert "EXPR"[0] != '#' && "BIN_OP"[0] != '#';
    assert !IsNameChar("if"[0]);
    assert !IsNameChar("("[0]);
  }

  // ---------------------------------------------------------------------
  // Terminals.
  // ---------------------------------------------------------------------

  /** A terminal parses exactly when it is the prefix plus the next token's
      kind, which replaces the matches by that token's value, or the token's
      value itself, which keeps the matches; either way one token is
      consumed. Grammar and fuel play no part. */
  lemma TerminalStep(ctx: Context, name: string, g: Grammar, tokenId: string, fuel: nat)
    requires IsToken(name, tokenId) && |ctx.tokens| > 0
    ensures var tok := ctx.tokens[0];
      var r := ParseName(ctx, name, g, tokenId, fuel);
      && (r.Ok? <==> name == tokenId + tok.name || name == tok.value)
      && (name == tokenId + tok.name ==> r == Ok(Context(ctx.tokens[1..], [Text(tok.value)])))
      && (name != tokenId + tok.name && name == tok.value ==> r == Ok(Context(ctx.tokens[1..], ctx.matches)))
      && (!r.Ok? ==> r == Fail(name, Unexpected(tok)))
  {
  }

  /** Against no tokens, a non-empty rule fails on its first symbol. */
  lemma EmptyInputFails(rule: seq<string>, g: Grammar, tokenId: string, fuel: nat)
    ensures ParseRule(rule, [], g, tokenId, fuel) ==
      if |rule| == 0 then Ok(Context([], [])) else Fail(rule[0], EndOfInput)
  {
  }

  // ---------------------------------------------------------------------
  // Sequencing.
  // ---------------------------------------------------------------------

  /** Parsing a + b is parsing a, then b from where a left off. */
  lemma {:induction false} SymbolsAppend(ctx: Context, a: seq<string>, b: seq<string>, g: Grammar, tokenId: string, fuel: nat)
    ensures ParseSymbols(ctx, a + b, g, tokenId, fuel) ==
      match ParseSymbols(ctx, a, g, tokenId, fuel)
      case Ok(c) => ParseSymbols(c, b, g, tokenId, fuel)
      case other => other
    decreases |a|
  {
    if |a| > 0 {
      assert (a + b)[0] == a[0];
      assert (a + b)[1..] == a[1..] + b;
      match ParseName(ctx, a[0], g, tokenId, fuel)
      case Ok(next) => SymbolsAppend(next, a[1..], b, g, tokenId, fuel);
      case _ =>
    } else {
      assert a + b == b;
    }
  }

  /** A rule of one symbol parses as that symbol does. */
  lemma OneSymbolRule(ctx: Context, sym: string, g: Grammar, tokenId: string, fuel: nat)
    ensures ParseSymbols(ctx, [sym], g, tokenId, fuel) == ParseName(ctx, sym, g, tokenId, fuel)
  {
    assert [sym][1..] == [];
  }

  /** A kind capture at the end of a rule discards every value accumulated
      before it: the rule's matches are just the captured token's value. */
  lemma CaptureDiscardsEarlierMatches(ctx: Context, syms: seq<string>, g: Grammar, tokenId: string, fuel: nat)
    requires ParseSymbols(ctx, syms, g, tokenId, fuel).Ok?
    requires var rest := ParseSymbols(ctx, syms, g, tokenId, fuel).ctx.tokens; |rest| > 0
    ensures var rest := ParseSymbols(ctx, syms, g, tokenId, fuel).ctx.tokens;
      ParseSymbols(ctx, syms + [tokenId + rest[0].name], g, tokenId, fuel) ==
        Ok(Context(rest[1..], [Text(rest[0].value)]))
  {
    var c := ParseSymbols(ctx, syms, g, tokenId, fuel).ctx;
    SymbolsAppend(ctx, syms, [tokenId + c.tokens[0].name], g, tokenId, fuel);
  }

  // ---------------------------------------------------------------------
  // Ordered, committed choice.
  // ---------------------------------------------------------------------

  /** Alternative k is the first of alts whose sub-rule parses the tokens
      (with the given fuel); every earlier one fails. */
  ghost predicate FirstToParse(alts: seq<Alternative>, k: nat, tokens: seq<Token>, g: Grammar, tokenId: string, fuel: nat)
    requires k < |alts|
  {
    && (forall j :: 0 <= j < k ==> ParseRule(alts[j].rule, tokens, g, tokenId, fuel).Fail?)
    && ParseRule(alts[k].rule, tokens, g, tokenId, fuel).Ok?
  }

  /** The context committing to alternative k produces: the tokens its
      sub-rule left, and the factory's value appended to the matches. */
  function Committed(ctx: Context, alt: Alternative, sub: Context): Context {
    Context(sub.tokens, ctx.matches + [alt.factory(sub.matches)])
  }

  lemma {:induction false} TryReachesFirst(ctx: Context, name: string, alts: seq<Alternative>, i: nat, k: nat,
                                           g: Grammar, tokenId: string, fuel: nat)
    requires i <= k < |alts| && fuel > 0
    requires FirstToParse(alts, k, ctx.tokens, g, tokenId, fuel - 1)
    ensures TryAlternatives(ctx, name, alts, i, g, tokenId, fuel) ==
      Ok(Committed(ctx, alts[k], ParseRule(alts[k].rule, ctx.tokens, g, tokenId, fuel - 1).ctx))
    decreases k - i
  {
    if i < k {
      TryReachesFirst(ctx, name, alts, i + 1, k, g, tokenId, fuel);
    }
  }

  lemma {:induction false} TryFindsFirst(ctx: Context, name: string, alts: seq<Alternative>, i: nat,
                                         g: Grammar, tokenId: string, fuel: nat)
    requires i <= |alts| && fuel > 0
    requires forall j :: 0 <= j < i ==> ParseRule(alts[j].rule, ctx.tokens, g, tokenId, fuel - 1).Fail?
    requires TryAlternatives(ctx, name, alts, i, g, tokenId, fuel).Ok?
    ensures exists k :: i <= k < |alts| && FirstToParse(alts, k, ctx.tokens, g, tokenId, fuel - 1) &&
                        TryAlternatives(ctx, name, alts, i, g, tokenId, fuel) ==
                        Ok(Committed(ctx, alts[k], ParseRule(alts[k].rule, ctx.tokens, g, tokenId, fuel - 1).ctx))
    decreases |alts| - i
  {
    var sub := ParseRule(alts[i].rule, ctx.tokens, g, tokenId, fuel - 1);
    if sub.Ok? {
      assert FirstToParse(alts, i, ctx.tokens, g, tokenId, fuel - 1);
    } else {
      TryFindsFirst(ctx, name, alts, i + 1, g, tokenId, fuel);
    }
  }

  lemma {:induction false} TryFailsIffAllFail(ctx: Context, name: string, alts: seq<Alternative>, i: nat,
                                              g: Grammar, tokenId: string, fuel: nat)
    requires i <= |alts| && fuel > 0
    ensures TryAlternatives(ctx, name, alts, i, g, tokenId, fuel).Fail? <==>
      forall j :: i <= j < |alts| ==> ParseRule(alts[j].rule, ctx.tokens, g, tokenId, fuel - 1).Fail?
    decreases |alts| - i
  {
    if i < |alts| {
      TryFailsIffAllFail(ctx, name, alts, i + 1, g, tokenId, fuel);
    }
  }

  /** A nonterminal takes the first alternative, in declared order, whose
      sub-rule parses, and no other. */
  lemma ChoiceCommitsToFirst(ctx: Context, name: string, g: Grammar, tokenId: string, fuel: nat, k: nat)
    requires !IsToken(name, tokenId) && |ctx.tokens| > 0 && fuel > 0
    requires k < |Alternatives(g, name, tokenId)|
    requires FirstToParse(Alternatives(g, name, tokenId), k, ctx.tokens, g, tokenId, fuel - 1)
    ensures var alt := Alternatives(g, name, tokenId)[k];
      ParseName(ctx, name, g, tokenId, fuel) ==
        Ok(Committed(ctx, alt, ParseRule(alt.rule, ctx.tokens, g, tokenId, fuel - 1).ctx))
  {
    TryReachesFirst(ctx, name, Alternatives(g, name, tokenId), 0, k, g, tokenId, fuel);
  }

  /** Conversely, a nonterminal that parses did so through the first
      alternative whose sub-rule parses. */
  lemma ChoiceOnlyThroughFirst(ctx: Context, name: string, g: Grammar, tokenId: string, fuel: nat)
    requires !IsToken(name, tokenId)
    requires ParseName(ctx, name, g, tokenId, fuel).Ok?
    ensures fuel > 0
    ensures var alts := Alternatives(g, name, tokenId);
      exists k :: 0 <= k < |alts| && FirstToParse(alts, k, ctx.tokens, g, tokenId, fuel - 1) &&
                  ParseName(ctx, name, g, tokenId, fuel) ==
                  Ok(Committed(ctx, alts[k], ParseRule(alts[k].rule, ctx.tokens, g, tokenId, fuel - 1).ctx))
  {
    TryFindsFirst(ctx, name, Alternatives(g, name, tokenId), 0, g, tokenId, fuel);
  }

  /** A nonterminal fails, tagged with its own name, exactly when every one
      of its alternatives fails. */
  lemma ChoiceFailsIffAllFail(ctx: Context, name: string, g: Grammar, tokenId: string, fuel: nat)
    requires !IsToken(name, tokenId) && |ctx.tokens| > 0 && fuel > 0
    ensures var alts := Alternatives(g, name, tokenId);
      && (ParseName(ctx, name, g, tokenId, fuel).Fail? <==>
          forall j :: 0 <= j < |alts| ==> ParseRule(alts[j].rule, ctx.tokens, g, tokenId, fuel - 1).Fail?)
      && (ParseName(ctx, name, g, tokenId, fuel).Fail? ==>
          ParseName(ctx, name, g, tokenId, fuel) == Fail(name, NoAlternative))
  {
    TryFailsIffAllFail(ctx, name, Alternatives(g, name, tokenId), 0, g, tokenId, fuel);
  }

  /** Once a nonterminal has committed to an alternative, the rest of the rule
      is parsed from that alternative's result: a later symbol that fails
      makes the whole rule fail, and no other alternative is tried. */
  lemma NoRetryAfterCommit(ctx: Context, name: string, rest: seq<string>, g: Grammar, tokenId: string, fuel: nat, k: nat)
    requires !IsToken(name, tokenId) && |ctx.tokens| > 0 && fuel > 0
    requires k < |Alternatives(g, name, tokenId)|
    requires FirstToParse(Alternatives(g, name, tokenId), k, ctx.tokens, g, tokenId, fuel - 1)
    ensures var alt := Alternatives(g, name, tokenId)[k];
      ParseSymbols(ctx, [name] + rest, g, tokenId, fuel) ==
        ParseSymbols(Committed(ctx, alt, ParseRule(alt.rule, ctx.tokens, g, tokenId, fuel - 1).ctx), rest, g, tokenId, fuel)
  {
    ChoiceCommitsToFirst(ctx, name, g, tokenId, fuel, k);
    assert ([name] + rest)[0] == name;
    assert ([name] + rest)[1..] == rest;
  }

  // ---------------------------------------------------------------------
  // The default alternative.
  // ---------------------------------------------------------------------

  lemma PrefixCancels(p: string, a: string, b: string)
    ensures p + a == p + b <==> a == b
  {
    if p + a == p + b {
      assert a == (p + a)[|p|..];
      assert b == (p + b)[|p|..];
    }
  }

  /** A nonterminal missing from the grammar captures the next token when its
      kind is that name (the value is the token's text); when the token's text
      is the prefixed name itself it is consumed and yields the empty text;
      otherwise it fails. */
  lemma MissingRuleCapturesKind(ctx: Context, name: string, g: Grammar, tokenId: string, fuel: nat)
    requires name !in g && !IsToken(name, tokenId) && |ctx.tokens| > 0 && fuel > 0
    ensures var tok := ctx.tokens[0];
      ParseName(ctx, name, g, tokenId, fuel) ==
        if tok.name == name then Ok(Context(ctx.tokens[1..], ctx.matches + [Text(tok.value)]))
        else if tok.value == tokenId + name then Ok(Context(ctx.tokens[1..], ctx.matches + [Text("")]))
        else Fail(name, NoAlternative)
  {
    var tok := ctx.tokens[0];
    var symbol := tokenId + name;
    assert IsToken(symbol, tokenId);
    PrefixCancels(tokenId, tok.name, name);
    OneSymbolRule(Context(ctx.tokens, []), symbol, g, tokenId, fuel - 1);
    var alts := Alternatives(g, name, tokenId);
    assert alts == [Alternative(Str, [symbol])];
    var sub := ParseRule(alts[0].rule, ctx.tokens, g, tokenId, fuel - 1);
    if tok.name == name {
      assert sub == Ok(Context(ctx.tokens[1..], [Text(tok.value)]));
    } else if tok.value == symbol {
      assert sub == Ok(Context(ctx.tokens[1..], []));
    } else {
      assert sub.Fail?;
      assert TryAlternatives(ctx, name, alts, 1, g, tokenId, fuel) == Fail(name, NoAlternative);
    }
  }

  // ---------------------------------------------------------------------
  // reflex and the top-level entry point.
  // ---------------------------------------------------------------------

  /** A nonterminal whose only alternative has reflex as its factory passes
      the single value of its sub-rule through unchanged. */
  lemma ReflexPassesThrough(ctx: Context, name: string, rule: seq<string>, g: Grammar, tokenId: string, fuel: nat, rest: seq<Token>, v: Value)
    requires !IsToken(name, tokenId) && |ctx.tokens| > 0 && fuel > 0
    requires ParseRule(rule, ctx.tokens, g[name := [Alternative(Reflex, rule)]], tokenId, fuel - 1) == Ok(Context(rest, [v]))
    ensures ParseName(ctx, name, g[name := [Alternative(Reflex, rule)]], tokenId, fuel) == Ok(Context(rest, ctx.matches + [v]))
  {
  }

  /** A rule of one nonterminal parses to exactly the one value that
      nonterminal contributes, and fails exactly when it does. */
  lemma SingleNonterminalParse(name: string, tokens: seq<Token>, g: Grammar, tokenId: string, fuel: nat)
    requires !IsToken(name, tokenId)
    ensures var r := ParseName(Context(tokens, []), name, g, tokenId, fuel);
      && (r.Ok? ==> |r.ctx.matches| == 1 && Parse([name], tokens, g, tokenId, fuel) == Ast(r.ctx.matches[0]))
      && (r.Fail? ==> Parse([name], tokens, g, tokenId, fuel) == Error(name, r.cause))
  {
    OneSymbolRule(Context(tokens, []), name, g, tokenId, fuel);
  }

  /** parse does not require the tokens to be used up: capturing the first
      token succeeds whatever follows it. */
  lemma LeftoverTokensIgnored(tok: Token, more: seq<Token>, g: Grammar, tokenId: string, fuel: nat)
    ensures Parse([tokenId + tok.name], [tok] + more, g, tokenId, fuel) == Ast(Text(tok.value))
  {
    assert IsToken(tokenId + tok.name, tokenId);
    assert ([tok] + more)[0] == tok;
    OneSymbolRule(Context([tok] + more, []), tokenId + tok.name, g, tokenId, fuel);
  }

  // ---------------------------------------------------------------------
  // Fuel only matters when it runs out: a result other than OutOfFuel is
  // the same with any larger amount of fuel.
  // ---------------------------------------------------------------------

  lemma {:induction false} FuelMonotoneRule(rule: seq<string>, tokens: seq<Token>, g: Grammar, tokenId: string, f: nat, f': nat)
    requires f <= f' && !ParseRule(rule, tokens, g, tokenId, f).OutOfFuel?
    ensures ParseRule(rule, tokens, g, tokenId, f') == ParseRule(rule, tokens, g, tokenId, f)
    decreases f, 3, 0
  {
    FuelMonotoneSymbols(Context(tokens, []), rule, g, tokenId, f, f');
  }

  lemma {:induction false} FuelMonotoneSymbols(ctx: Context, symbols: seq<string>, g: Grammar, tokenId: string, f: nat, f': nat)
    requires f <= f' && !ParseSymbols(ctx, symbols, g, tokenId, f).OutOfFuel?
    ensures ParseSymbols(ctx, symbols, g, tokenId, f') == ParseSymbols(ctx, symbols, g, tokenId, f)
    decreases f, 2, |symbols|
  {
    if |symbols| > 0 {
      var r := ParseName(ctx, symbols[0], g, tokenId, f);
      assert !r.OutOfFuel?;
      FuelMonotoneName(ctx, symbols[0], g, tokenId, f, f');
      if r.Ok? {
        FuelMonotoneSymbols(r.ctx, symbols[1..], g, tokenId, f, f');
      }
    }
  }

  lemma {:induction false} FuelMonotoneName(ctx: Context, name: string, g: Grammar, tokenId: string, f: nat, f': nat)
    requires f <= f' && !ParseName(ctx, name, g, tokenId, f).OutOfFuel?
    ensures ParseName(ctx, name, g, tokenId, f') == ParseName(ctx, name, g, tokenId, f)
    decreases f, 1, 0
  {
    if |ctx.tokens| > 0 && !IsToken(name, tokenId) {
      FuelMonotoneTry(ctx, name, Alternatives(g, name, tokenId), 0, g, tokenId, f, f');
    }
  }

  lemma {:induction false} FuelMonotoneTry(ctx: Context, name: string, alts: seq<Alternative>, i: nat,
                                           g: Grammar, tokenId: string, f: nat, f': nat)
    requires i <= |alts|
    requires f <= f' && !TryAlternatives(ctx, name, alts, i, g, tokenId, f).OutOfFuel?
    ensures TryAlternatives(ctx, name, alts, i, g, tokenId, f') == TryAlternatives(ctx, name, alts, i, g, tokenId, f)
    decreases f, 0, |alts| - i
  {
    if i < |alts| {
      assert f > 0;
      var r := ParseRule(alts[i].rule, ctx.tokens, g, tokenId, f - 1);
      assert !r.OutOfFuel?;
      FuelMonotoneRule(alts[i].rule, ctx.tokens, g, tokenId, f - 1, f' - 1);
      if r.Fail? {
        FuelMonotoneTry(ctx, name, alts, i + 1, g, tokenId, f, f');
      }
    }
  }

  /** The top-level result, unless the fuel ran out, does not depend on how
      much fuel was given beyond it. */
  lemma FuelMonotoneParse(rule: seq<string>, tokens: seq<Token>, g: Grammar, tokenId: string, f: nat, f': nat)
    requires f <= f' && !Parse(rule, tokens, g, tokenId, f).Exhausted?
    ensures Parse(rule, tokens, g, tokenId, f') == Parse(rule, tokens, g, tokenId, f)
  {
    FuelMonotoneRule(rule, tokens, g, tokenId, f, f');
  }

  const ExampleX := Token("x", "x", 1)
  const ExampleY := Token("y", "y", 1)
  const ExampleZ := Token("z", "z", 1)
  /** A ::= x | x y, both alternatives making their value with str; neither
      sub-rule captures a token, so str is called with no value and gives the
      empty text. */
  const ExampleGrammar := map["A" := [Alternative(Str, ["x"]), Alternative(Str, ["x", "y"])]]

  lemma ExampleSymbols()
    ensures !IsToken("A", DefaultTokenId)
    ensures IsToken("x", DefaultTokenId) && IsToken("y", DefaultTokenId) && IsToken("z", DefaultTokenId)
  {
    assert !IsNameChar("x"[0]) && !IsNameChar("y"[0]) && !IsNameChar("z"[0]);
    assert "A"[0] != '#';
  }

  /** A's first alternative parses x alone. */
  lemma ExampleFirstAlternative(fuel: nat)
    requires fuel > 0
    ensures ParseRule(["x"], [ExampleX, ExampleY, ExampleZ], ExampleGrammar, DefaultTokenId, fuel - 1) ==
      Ok(Context([ExampleY, ExampleZ], []))
  {
    ExampleSymbols();
    OneSymbolRule(Context([ExampleX, ExampleY, ExampleZ], []), "x", ExampleGrammar, DefaultTokenId, fuel - 1);
  }

  /** A has no literal or prefixed form, so it goes through the grammar. */
  lemma ExampleAlternatives()
    ensures Alternatives(ExampleGrammar, "A", DefaultTokenId) == ExampleGrammar["A"]
    ensures |ExampleGrammar["A"]| == 2 && ExampleGrammar["A"][0].rule == ["x"]
  {
  }

  /** A commits to its first alternative; the rest of the rule continues
      from there, A's value made by str from no values. */
  lemma ExampleCommit(fuel: nat)
    requires fuel > 0
    ensures ParseSymbols(Context([ExampleX, ExampleY, ExampleZ], []), ["A", "z"], ExampleGrammar, DefaultTokenId, fuel) ==
      ParseSymbols(Context([ExampleY, ExampleZ], [Text("")]), ["z"], ExampleGrammar, DefaultTokenId, fuel)
  {
    ExampleSymbols();
    ExampleAlternatives();
    ExampleFirstAlternative(fuel);
    var ts := [ExampleX, ExampleY, ExampleZ];
    var alts := Alternatives(ExampleGrammar, "A", DefaultTokenId);
    assert FirstToParse(alts, 0, ts, ExampleGrammar, DefaultTokenId, fuel - 1);
    assert ["A"] + ["z"] == ["A", "z"];
    NoRetryAfterCommit(Context(ts, []), "A", ["z"], ExampleGrammar, DefaultTokenId, fuel, 0);
    var sub := ParseRule(alts[0].rule, ts, ExampleGrammar, DefaultTokenId, fuel - 1).ctx;
    assert sub == Context([ExampleY, ExampleZ], []);
    assert Committed(Context(ts, []), alts[0], sub) == Context([ExampleY, ExampleZ], [Text("")]);
  }

  /** After A commits, z is parsed against y and fails. */
  lemma ExampleCommitFails(fuel: nat)
    requires fuel > 0
    ensures ParseSymbols(Context([ExampleX, ExampleY, ExampleZ], []), ["A", "z"], ExampleGrammar, DefaultTokenId, fuel) ==
      Fail("z", Unexpected(ExampleY))
  {
    ExampleSymbols();
    ExampleCommit(fuel);
    OneSymbolRule(Context([ExampleY, ExampleZ], [Text("")]), "z", ExampleGrammar, DefaultTokenId, fuel);
  }

  /** x y z parses as a rule of terminals. */
  lemma ExampleSecondAlternativeFits(fuel: nat)
    requires fuel > 0
    ensures ParseSymbols(Context([ExampleX, ExampleY, ExampleZ], []), ["x", "y", "z"], ExampleGrammar, DefaultTokenId, fuel).Ok?
  {
    ExampleSymbols();
    var c1 := Context([ExampleY, ExampleZ], []);
    var c2 := Context([ExampleZ], []);
    OneSymbolRule(c2, "z", ExampleGrammar, DefaultTokenId, fuel);
    assert ["x", "y", "z"][1..] == ["y", "z"];
    assert ["y", "z"][1..] == ["z"];
    assert ParseSymbols(c1, ["y", "z"], ExampleGrammar, DefaultTokenId, fuel) == ParseSymbols(c2, ["z"], ExampleGrammar, DefaultTokenId, fuel);
  }

  /** Backtracking stops at the choice: with A ::= x | x y, the rule "A z"
      and the tokens x y z, A commits to its first alternative, z then meets
      y and the parse fails, although A's second alternative followed by z
      parses the tokens. */
  lemma NoBacktrackingExample(fuel: nat)
    requires fuel > 0
    ensures Parse(["A", "z"], [ExampleX, ExampleY, ExampleZ], ExampleGrammar, DefaultTokenId, fuel) == Error("z", Unexpected(ExampleY))
    ensures ParseSymbols(Context([ExampleX, ExampleY, ExampleZ], []), ["x", "y", "z"], ExampleGrammar, DefaultTokenId, fuel).Ok?
  {
    ExampleCommitFails(fuel);
    ExampleSecondAlternativeFits(fuel);
  }
}
