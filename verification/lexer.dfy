/** The tokenizer of the DSL front-end.

    The regular-expression engine is not modelled: its work is given as the
    sequence of successful anchored matches it produces, each naming the
    alternative (token kind) that matched and the position just past the
    match. The i-th match begins where the (i-1)-th ended, the first at 0;
    the attempt after the last match is the one that found nothing.
 */
module Lexer {

  /** A token as the tokenizer yields it: kind name, matched text, line. */
  datatype Token = Token(name: string, value: string, line: int)

  /** One successful match: the name of the matching alternative and the
      scan position just past the matched text. */
  datatype Match = Match(name: string, end: nat)

  /** The loop state: the current line and whether comment mode is on. */
  datatype State = State(line: int, skipAll: bool)

  /** How tokenizing ended once no further match was found. */
  datatype Status =
    | Complete                                  // the matches covered the whole source
    | UnexpectedChar(ch: char, line: int)        // the character no pattern matched, and the line
    | PosUnbound                                 // no match at all: the scan position was never set

  /** The tokens yielded (in order) and how the scan ended. Tokens are
      yielded lazily, so a failing scan still produced all of them first. */
  datatype Outcome = Outcome(tokens: seq<Token>, status: Status)

  // The kind names with a fixed meaning to the tokenizer.
  const Skip := "SKIP"
  const Newline := "NEWLINE"
  const CommentBegin := "COMMENT_BEGIN"
  const CommentEnd := "COMMENT_END"
  const Ident := "ID"

  /** The kinds that never yield a token of their own. */
  predicate IsControl(name: string) {
    name == Skip || name == Newline || name == CommentBegin || name == CommentEnd
  }

  /** Where match i begins; for i == |ms|, the position after the last match. */
  function StartOf(ms: seq<Match>, i: nat): nat
    requires i <= |ms|
  {
    if i == 0 then 0 else ms[i - 1].end
  }

  /** The matches an anchored scan of source can produce: every match is
      non-empty and lies within the source. */
  predicate WellFormed(source: string, ms: seq<Match>) {
    && (forall i :: 0 <= i < |ms| ==> ms[i].end <= |source|)
    && (forall i {:trigger StartOf(ms, i)} :: 0 <= i < |ms| ==> StartOf(ms, i) < ms[i].end)
  }

  /** The text of match i. */
  function TextOf(source: string, ms: seq<Match>, i: nat): string
    requires WellFormed(source, ms) && i < |ms|
  {
    source[StartOf(ms, i)..ms[i].end]
  }

  /** The kind an emitted token carries: an ID whose text is a keyword is
      renamed to that keyword; every other kind keeps its name. */
  function TokenName(name: string, text: string, keywords: set<string>): string {
    if name == Ident && text in keywords then text else name
  }

  // ---------------------------------------------------------------------
  // The scanning loop, as written.
  // ---------------------------------------------------------------------

  /** One iteration of the loop: the new state and the tokens (none or one)
      that a match named `name` with text `text` yields. The branches are
      tried in the order the loop tries them. */
  function Step(st: State, name: string, text: string, keywords: set<string>): (State, seq<Token>) {
    if name != CommentEnd && st.skipAll then (st, [])
    else if name == CommentEnd then (st.(skipAll := false), [])
    else if name == CommentBegin then (st.(skipAll := true), [])
    else if name == Newline then (st.(line := st.line + 1), [])
    else if name == Skip then (st, [])
    else (st, [Token(TokenName(name, text, keywords), text, st.line)])
  }

  /** The loop from match i on, in state st, having yielded out so far. */
  function Run(source: string, ms: seq<Match>, keywords: set<string>, i: nat, st: State, out: seq<Token>): (State, seq<Token>)
    requires WellFormed(source, ms) && i <= |ms|
    decreases |ms| - i
  {
    if i == |ms| then (st, out)
    else
      var (st', yielded) := Step(st, ms[i].name, TextOf(source, ms, i), keywords);
      Run(source, ms, keywords, i + 1, st', out + yielded)
  }

  // ---------------------------------------------------------------------
  // Reference definitions: what the loop computes, stated per match.
  // ---------------------------------------------------------------------

  /** Comment mode before match i: among the first i matches the last
      comment delimiter is a COMMENT_BEGIN. */
  ghost predicate InComment(ms: seq<Match>, i: nat)
    requires i <= |ms|
  {
    exists j :: 0 <= j < i && ms[j].name == CommentBegin &&
      forall k :: j < k < i ==> ms[k].name != CommentEnd
  }

  /** The NEWLINE matches among the first i that fell outside comment mode. */
  ghost function NewlinesBefore(ms: seq<Match>, i: nat): nat
    requires i <= |ms|
  {
    if i == 0 then 0
    else NewlinesBefore(ms, i - 1) + (if ms[i - 1].name == Newline && !InComment(ms, i - 1) then 1 else 0)
  }

  /** The line current when match i is processed. */
  ghost function LineAt(ms: seq<Match>, i: nat): int
    requires i <= |ms|
  {
    1 + NewlinesBefore(ms, i)
  }

  /** Match i yields a token: it is outside comment mode and not a control kind. */
  ghost predicate Emits(ms: seq<Match>, i: nat)
    requires i < |ms|
  {
    !InComment(ms, i) && !IsControl(ms[i].name)
  }

  /** The token match i yields when it yields one. */
  ghost function TokenOf(source: string, ms: seq<Match>, keywords: set<string>, i: nat): Token
    requires WellFormed(source, ms) && i < |ms|
  {
    var text := TextOf(source, ms, i);
    Token(TokenName(ms[i].name, text, keywords), text, LineAt(ms, i))
  }

  /** The indices, below n, of the matches that yield a token, in increasing order. */
  ghost function EmittingBefore(ms: seq<Match>, n: nat): (idx: seq<nat>)
    requires n <= |ms|
    ensures |idx| <= n
    ensures forall k :: 0 <= k < |idx| ==> idx[k] < n && Emits(ms, idx[k])
    ensures forall k, l :: 0 <= k < l < |idx| ==> idx[k] < idx[l]
    ensures forall i :: 0 <= i < n && Emits(ms, i) ==> i in idx
  {
    if n == 0 then []
    else EmittingBefore(ms, n - 1) + (if Emits(ms, n - 1) then [n - 1] else [])
  }

  /** The tokens the first n matches yield, in match order. */
  ghost function Emitted(source: string, ms: seq<Match>, keywords: set<string>, n: nat): seq<Token>
    requires WellFormed(source, ms) && n <= |ms|
  {
    if n == 0 then []
    else
      Emitted(source, ms, keywords, n - 1) +
      (if Emits(ms, n - 1) then [TokenOf(source, ms, keywords, n - 1)] else [])
  }

  // ---------------------------------------------------------------------
  // The loop agrees with the reference definitions.
  // ---------------------------------------------------------------------

  /** Comment mode after match i: a COMMENT_END always leaves it, a
      COMMENT_BEGIN always enters it (no nesting), anything else keeps it. */
  lemma InCommentStep(ms: seq<Match>, i: nat)
    requires i < |ms|
    ensures InComment(ms, i + 1) ==
      if ms[i].name == CommentEnd then false
      else if ms[i].name == CommentBegin then true
      else InComment(ms, i)
  {
    if ms[i].name == CommentEnd || ms[i].name == CommentBegin {
    } else {
      if InComment(ms, i) {
        var j :| 0 <= j < i && ms[j].name == CommentBegin &&
          forall k :: j < k < i ==> ms[k].name != CommentEnd;
        assert forall k :: j < k < i + 1 ==> ms[k].name != CommentEnd;
      }
      if InComment(ms, i + 1) {
        var j :| 0 <= j < i + 1 && ms[j].name == CommentBegin &&
          forall k :: j < k < i + 1 ==> ms[k].name != CommentEnd;
        assert j != i;
        assert forall k :: j < k < i ==> ms[k].name != CommentEnd;
      }
    }
  }

  /** One loop iteration, in the state the reference predicts before match i,
      lands in the state it predicts after it and yields the reference tokens. */
  lemma {:induction false} StepAgrees(source: string, ms: seq<Match>, keywords: set<string>, i: nat)
    requires WellFormed(source, ms) && i < |ms|
    ensures Step(State(LineAt(ms, i), InComment(ms, i)), ms[i].name, TextOf(source, ms, i), keywords) ==
      (State(LineAt(ms, i + 1), InComment(ms, i + 1)),
       if Emits(ms, i) then [TokenOf(source, ms, keywords, i)] else [])
  {
    InCommentStep(ms, i);
  }

  /** Running the loop from any point where its state matches the reference
      ends in the reference state with the reference tokens. */
  lemma {:induction false} RunAgrees(source: string, ms: seq<Match>, keywords: set<string>, i: nat)
    requires WellFormed(source, ms) && i <= |ms|
    ensures Run(source, ms, keywords, i, State(LineAt(ms, i), InComment(ms, i)), Emitted(source, ms, keywords, i)) ==
      (State(LineAt(ms, |ms|), InComment(ms, |ms|)), Emitted(source, ms, keywords, |ms|))
    decreases |ms| - i
  {
    if i < |ms| {
      var st := State(LineAt(ms, i), InComment(ms, i));
      var out := Emitted(source, ms, keywords, i);
      StepAgrees(source, ms, keywords, i);
      var (st', yielded) := Step(st, ms[i].name, TextOf(source, ms, i), keywords);
      assert Run(source, ms, keywords, i, st, out) == Run(source, ms, keywords, i + 1, st', out + yielded);
      RunAgrees(source, ms, keywords, i + 1);
    }
  }

  // ---------------------------------------------------------------------
  // tokenize
  // ---------------------------------------------------------------------

  /** The loop run over all matches from the initial state (line 1, not in a comment). */
  function Scan(source: string, ms: seq<Match>, keywords: set<string>): (r: (State, seq<Token>))
    requires WellFormed(source, ms)
    ensures r.0.line == LineAt(ms, |ms|)
    ensures r.0.skipAll == InComment(ms, |ms|)
    ensures r.1 == Emitted(source, ms, keywords, |ms|)
  {
    assert !InComment(ms, 0);
    RunAgrees(source, ms, keywords, 0);
    Run(source, ms, keywords, 0, State(1, false), [])
  }

  /** tokenize as written: when no match was found at all the scan position
      is unbound and the final check cannot be made. */
  function Tokenize(source: string, ms: seq<Match>, keywords: set<string>): (r: Outcome)
    requires WellFormed(source, ms)
    ensures r.tokens == Emitted(source, ms, keywords, |ms|)
    ensures |ms| == 0 <==> r.status == PosUnbound
    ensures r.status == Complete <==> |ms| > 0 && StartOf(ms, |ms|) == |source|
    ensures r.status.UnexpectedChar? ==>
      StartOf(ms, |ms|) < |source| &&
      r.status == UnexpectedChar(source[StartOf(ms, |ms|)], LineAt(ms, |ms|))
  {
    var (st, tokens) := Scan(source, ms, keywords);
    if |ms| == 0 then Outcome(tokens, PosUnbound)
    else
      var pos := ms[|ms| - 1].end;
      if pos != |source| then Outcome(tokens, UnexpectedChar(source[pos], st.line))
      else Outcome(tokens, Complete)
  }

  /** tokenize with the scan position defined as 0 before the first attempt,
      so that a source no pattern matches at its start is reported like any
      other unexpected character. */
  function TokenizeFromZero(source: string, ms: seq<Match>, keywords: set<string>): (r: Outcome)
    requires WellFormed(source, ms)
    ensures r.tokens == Emitted(source, ms, keywords, |ms|)
    ensures r.status == Complete <==> StartOf(ms, |ms|) == |source|
    ensures r.status != Complete ==>
      StartOf(ms, |ms|) < |source| &&
      r.status == UnexpectedChar(source[StartOf(ms, |ms|)], LineAt(ms, |ms|))
  {
    var (st, tokens) := Scan(source, ms, keywords);
    var pos := StartOf(ms, |ms|);
    if pos != |source| then Outcome(tokens, UnexpectedChar(source[pos], st.line))
    else Outcome(tokens, Complete)
  }
}
