/** Properties of the tokenizer, stated over the reference definitions that
    Lexer.Tokenize is proved to agree with. */
module LexerProperties {
  import opened Lexer

  /** The tokens are those of the emitting matches, in match order: the k-th
      token comes from the k-th emitting match, carries its text as value,
      the line current at that match, and its kind name, renamed to the text
      only for an ID whose text is a keyword. */
  lemma {:induction false} EmittedInMatchOrder(source: string, ms: seq<Match>, keywords: set<string>, n: nat)
    requires WellFormed(source, ms) && n <= |ms|
    ensures |Emitted(source, ms, keywords, n)| == |EmittingBefore(ms, n)|
    ensures forall k :: 0 <= k < |EmittingBefore(ms, n)| ==>
      var i := EmittingBefore(ms, n)[k];
      var t := Emitted(source, ms, keywords, n)[k];
      && !InComment(ms, i) && !IsControl(ms[i].name)
      && t.value == TextOf(source, ms, i)
      && t.line == LineAt(ms, i)
      && (if ms[i].name == Ident && t.value in keywords then t.name == t.value else t.name == ms[i].name)
  {
    if n > 0 {
      EmittedInMatchOrder(source, ms, keywords, n - 1);
    }
  }

  /** Every match yields at most one token, so there are no more tokens than matches. */
  lemma {:induction false} AtMostOneTokenPerMatch(source: string, ms: seq<Match>, keywords: set<string>, n: nat)
    requires WellFormed(source, ms) && n <= |ms|
    ensures |Emitted(source, ms, keywords, n)| <= n
  {
    if n > 0 {
      AtMostOneTokenPerMatch(source, ms, keywords, n - 1);
    }
  }

  /** The line counter never goes back. */
  lemma {:induction false} LineMonotone(ms: seq<Match>, i: nat, j: nat)
    requires i <= j <= |ms|
    ensures 1 <= LineAt(ms, i) <= LineAt(ms, j)
    decreases j - i
  {
    if i < j {
      LineMonotone(ms, i, j - 1);
    }
  }

  /** Line numbers of the emitted tokens are non-decreasing, and at least 1. */
  lemma LinesNondecreasing(source: string, ms: seq<Match>, keywords: set<string>)
    requires WellFormed(source, ms)
    ensures var ts := Emitted(source, ms, keywords, |ms|);
      forall k, l :: 0 <= k <= l < |ts| ==> 1 <= ts[k].line <= ts[l].line
  {
    var ts := Emitted(source, ms, keywords, |ms|);
    var idx := EmittingBefore(ms, |ms|);
    EmittedInMatchOrder(source, ms, keywords, |ms|);
    forall k, l | 0 <= k <= l < |ts|
      ensures 1 <= ts[k].line <= ts[l].line
    {
      LineMonotone(ms, idx[k], idx[l]);
    }
  }

  /** From a COMMENT_BEGIN up to and including the next COMMENT_END nothing
      is emitted and no line is counted, whatever lies in between (further
      COMMENT_BEGINs included); afterwards comment mode is off. */
  lemma {:induction false} CommentSwallowsRegion(source: string, ms: seq<Match>, keywords: set<string>, b: nat, e: nat)
    requires WellFormed(source, ms)
    requires b < e < |ms|
    requires ms[b].name == CommentBegin && ms[e].name == CommentEnd
    requires forall k :: b < k < e ==> ms[k].name != CommentEnd
    ensures Emitted(source, ms, keywords, e + 1) == Emitted(source, ms, keywords, b)
    ensures LineAt(ms, e + 1) == LineAt(ms, b)
    ensures !InComment(ms, e + 1)
  {
    InsideComment(source, ms, keywords, b, e, e);
    InCommentStep(ms, e);
  }

  /** Every match after a COMMENT_BEGIN and before the next COMMENT_END is in
      comment mode; processing them (and the COMMENT_BEGIN) changes nothing. */
  lemma {:induction false} InsideComment(source: string, ms: seq<Match>, keywords: set<string>, b: nat, e: nat, m: nat)
    requires WellFormed(source, ms)
    requires b < m <= e < |ms|
    requires ms[b].name == CommentBegin
    requires forall k :: b < k < e ==> ms[k].name != CommentEnd
    ensures InComment(ms, m)
    ensures Emitted(source, ms, keywords, m + 1) == Emitted(source, ms, keywords, b)
    ensures LineAt(ms, m + 1) == LineAt(ms, b)
    decreases m - b
  {
    assert forall k :: b < k < m ==> ms[k].name != CommentEnd;
    if m == b + 1 {
      assert !Emits(ms, b);
      assert Emitted(source, ms, keywords, b + 1) == Emitted(source, ms, keywords, b);
      assert LineAt(ms, b + 1) == LineAt(ms, b);
    } else {
      InsideComment(source, ms, keywords, b, e, m - 1);
    }
  }

  /** A COMMENT_END outside comment mode is dropped: no token, no line, and
      comment mode stays off. */
  lemma StrayCommentEndIgnored(source: string, ms: seq<Match>, keywords: set<string>, i: nat)
    requires WellFormed(source, ms) && i < |ms|
    requires !InComment(ms, i) && ms[i].name == CommentEnd
    ensures Emitted(source, ms, keywords, i + 1) == Emitted(source, ms, keywords, i)
    ensures LineAt(ms, i + 1) == LineAt(ms, i)
    ensures !InComment(ms, i + 1)
  {
    InCommentStep(ms, i);
  }

  /** A NEWLINE outside comment mode advances the line by exactly one and
      yields nothing. */
  lemma NewlineAdvancesLine(source: string, ms: seq<Match>, keywords: set<string>, i: nat)
    requires WellFormed(source, ms) && i < |ms|
    requires !InComment(ms, i) && ms[i].name == Newline
    ensures Emitted(source, ms, keywords, i + 1) == Emitted(source, ms, keywords, i)
    ensures LineAt(ms, i + 1) == LineAt(ms, i) + 1
    ensures !InComment(ms, i + 1)
  {
    InCommentStep(ms, i);
  }

  // ---------------------------------------------------------------------
  // The unbound scan position.
  // ---------------------------------------------------------------------

  /** On an empty source that no pattern matches, tokenize as written fails
      on the unbound position, while starting from position 0 yields no
      tokens and completes. */
  lemma EmptySourceUnbound(keywords: set<string>)
    ensures Tokenize("", [], keywords) == Outcome([], PosUnbound)
    ensures TokenizeFromZero("", [], keywords) == Outcome([], Complete)
  {
  }

  /** When the first character matches no pattern, tokenize as written
      reports the unbound position instead of that character on line 1. */
  lemma FirstCharUnbound(source: string, keywords: set<string>)
    requires |source| > 0
    ensures Tokenize(source, [], keywords) == Outcome([], PosUnbound)
    ensures TokenizeFromZero(source, [], keywords) == Outcome([], UnexpectedChar(source[0], 1))
  {
  }

  /** The two differ only when no match was found at all. */
  lemma FromZeroAgreesWhenBound(source: string, ms: seq<Match>, keywords: set<string>)
    requires WellFormed(source, ms) && |ms| > 0
    ensures Tokenize(source, ms, keywords) == TokenizeFromZero(source, ms, keywords)
  {
  }

  // ---------------------------------------------------------------------
  // An end-to-end example.
  // ---------------------------------------------------------------------

  const ExampleSource := "if x then y else z"
  const ExampleMatches := [Match("ID", 2), Match("SKIP", 3), Match("ID", 4), Match("SKIP", 5),
                           Match("ID", 9), Match("SKIP", 10), Match("ID", 11), Match("SKIP", 12),
                           Match("ID", 16), Match("SKIP", 17), Match("ID", 18)]
  const ExampleKeywords := {"if", "then", "else"}

  /** The texts of the identifier matches of the example. */
  lemma ExampleTexts()
    ensures WellFormed(ExampleSource, ExampleMatches)
    ensures TextOf(ExampleSource, ExampleMatches, 0) == "if" && TextOf(ExampleSource, ExampleMatches, 2) == "x"
    ensures TextOf(ExampleSource, ExampleMatches, 4) == "then" && TextOf(ExampleSource, ExampleMatches, 6) == "y"
    ensures TextOf(ExampleSource, ExampleMatches, 8) == "else" && TextOf(ExampleSource, ExampleMatches, 10) == "z"
  {
    assert ExampleSource[0..2] == "if";
    assert ExampleSource[3..4] == "x";
    assert ExampleSource[5..9] == "then";
    assert ExampleSource[10..11] == "y";
    assert ExampleSource[12..16] == "else";
    assert ExampleSource[17..18] == "z";
  }

  /** A turn of the loop that yields nothing and keeps the state. */
  lemma QuietTurn(source: string, ms: seq<Match>, keywords: set<string>, i: nat, st: State, out: seq<Token>)
    requires WellFormed(source, ms) && i < |ms|
    requires Step(st, ms[i].name, TextOf(source, ms, i), keywords) == (st, [])
    ensures Run(source, ms, keywords, i, st, out) == Run(source, ms, keywords, i + 1, st, out)
  {
    assert out + [] == out;
  }

  /** A turn of the loop that yields the token t, extending out to next,
      and keeps the state. */
  lemma EmittingTurn(source: string, ms: seq<Match>, keywords: set<string>, i: nat, st: State, out: seq<Token>,
                     t: Token, next: seq<Token>)
    requires WellFormed(source, ms) && i < |ms|
    requires Step(st, ms[i].name, TextOf(source, ms, i), keywords) == (st, [t])
    requires next == out + [t]
    ensures Run(source, ms, keywords, i, st, out) == Run(source, ms, keywords, i + 1, st, next)
  {
  }

  const TokIf := Token("if", "if", 1)
  const TokX := Token("ID", "x", 1)
  const TokThen := Token("then", "then", 1)
  const TokY := Token("ID", "y", 1)
  const TokElse := Token("else", "else", 1)
  const TokZ := Token("ID", "z", 1)

  /** The loop over the example, one turn per match. */
  lemma {:induction false} ExampleRun()
    ensures WellFormed(ExampleSource, ExampleMatches)
    ensures Run(ExampleSource, ExampleMatches, ExampleKeywords, 0, State(1, false), []) ==
      (State(1, false), [TokIf, TokX, TokThen, TokY, TokElse, TokZ])
  {
    ExampleTexts();
    var S, M, K, st := ExampleSource, ExampleMatches, ExampleKeywords, State(1, false);
    EmittingTurn(S, M, K, 0, st, [], TokIf, [TokIf]);
    QuietTurn(S, M, K, 1, st, [TokIf]);
    EmittingTurn(S, M, K, 2, st, [TokIf], TokX, [TokIf, TokX]);
    QuietTurn(S, M, K, 3, st, [TokIf, TokX]);
    EmittingTurn(S, M, K, 4, st, [TokIf, TokX], TokThen, [TokIf, TokX, TokThen]);
    QuietTurn(S, M, K, 5, st, [TokIf, TokX, TokThen]);
    EmittingTurn(S, M, K, 6, st, [TokIf, TokX, TokThen], TokY, [TokIf, TokX, TokThen, TokY]);
    QuietTurn(S, M, K, 7, st, [TokIf, TokX, TokThen, TokY]);
    EmittingTurn(S, M, K, 8, st, [TokIf, TokX, TokThen, TokY], TokElse, [TokIf, TokX, TokThen, TokY, TokElse]);
    QuietTurn(S, M, K, 9, st, [TokIf, TokX, TokThen, TokY, TokElse]);
    EmittingTurn(S, M, K, 10, st, [TokIf, TokX, TokThen, TokY, TokElse], TokZ, [TokIf, TokX, TokThen, TokY, TokElse, TokZ]);
    assert Run(S, M, K, 11, st, [TokIf, TokX, TokThen, TokY, TokElse, TokZ]) == (st, [TokIf, TokX, TokThen, TokY, TokElse, TokZ]);
  }

  /** "if x then y else z", identifiers and blanks (as SKIP) matched, with
      keywords if/then/else: the keywords come out renamed, the rest as ID,
      all on line 1, and the scan completes. */
  lemma IfThenElseExample()
    ensures WellFormed(ExampleSource, ExampleMatches)
    ensures Tokenize(ExampleSource, ExampleMatches, ExampleKeywords) ==
      Outcome([TokIf, TokX, TokThen, TokY, TokElse, TokZ], Complete)
  {
    ExampleRun();
  }
}
