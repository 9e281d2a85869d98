/** The precedence combinator: a factory for binary-operator rules parsed
    right-recursively (E ::= T op E), which re-associates the naive
    right-nested tree so that operators come out nested by precedence.

    A precedence table maps operators to integers; a lower number binds
    tighter. The wrapped factory is modelled as the Node constructor, and a
    value "has an operator" exactly when it is a Node.
 */
module Precedence {

  /** A binary-expression tree. */
  datatype Expr<T> = Leaf(value: T) | Node(first: Expr<T>, op: string, second: Expr<T>)

  /** An element of the in-order reading of a tree. */
  datatype Item<T> = Operand(value: T) | Operator(op: string)

  /** The tree read in order: operands and operators left to right. */
  function Flatten<T>(e: Expr<T>): seq<Item<T>> {
    match e
    case Leaf(v) => [Operand(v)]
    case Node(a, o, b) => Flatten(a) + [Operator(o)] + Flatten(b)
  }

  /** The table lookups combining first op second performs are all defined:
      none when second is a leaf; op and second's operator otherwise, and
      those of the recursive call when it rotates. */
  predicate Lookups<T>(prec: map<string, int>, op: string, second: Expr<T>) {
    match second
    case Leaf(_) => true
    case Node(a, o, _) =>
      op in prec && o in prec && (prec[op] < prec[o] ==> Lookups(prec, op, a))
  }

  /** Every node binds strictly looser than a Node on its left and no
      tighter than a Node on its right: the shape of a precedence-correct
      parse in which equal precedence groups to the right. */
  predicate Shaped<T>(prec: map<string, int>, e: Expr<T>) {
    match e
    case Leaf(_) => true
    case Node(a, o, b) =>
      && o in prec
      && Shaped(prec, a) && Shaped(prec, b)
      && (a.Node? ==> a.op in prec && prec[a.op] < prec[o])
      && (b.Node? ==> b.op in prec && prec[o] >= prec[b.op])
  }

  /** first binds tighter than op, or is a leaf. */
  predicate LeftBelow<T>(prec: map<string, int>, first: Expr<T>, op: string)
    requires op in prec
  {
    first.Node? ==> first.op in prec && prec[first.op] < prec[op]
  }

  /** The combining function precedence(prec, Node) returns. When second is
      a Node whose operator binds looser than op, op is pushed down into
      second's left operand and second's operator becomes the root;
      otherwise the node is built as given. */
  function Combine<T>(prec: map<string, int>, first: Expr<T>, op: string, second: Expr<T>): (r: Expr<T>)
    requires Lookups(prec, op, second)
    ensures r.Node?
    ensures Flatten(r) == Flatten(first) + [Operator(op)] + Flatten(second)
    ensures second.Leaf? || prec[op] >= prec[second.op] ==> r == Node(first, op, second)
    ensures second.Node? && prec[op] < prec[second.op] ==>
      r.op == second.op && r.second == second.second &&
      Flatten(r.first) == Flatten(first) + [Operator(op)] + Flatten(second.first)
    ensures op in prec && Shaped(prec, first) && Shaped(prec, second) && LeftBelow(prec, first, op) ==>
      Shaped(prec, r)
  {
    if second.Node? && prec[op] < prec[second.op] then
      var newNode := Combine(prec, first, op, second.first);
      Node(newNode, second.op, second.second)
    else
      Node(first, op, second)
  }

  /** A Shaped tree has all of its operators in the table, so combining onto
      it performs only defined lookups. */
  lemma {:induction false} ShapedLookups<T>(prec: map<string, int>, op: string, second: Expr<T>)
    requires op in prec && Shaped(prec, second)
    ensures Lookups(prec, op, second)
  {
    match second
    case Leaf(_) =>
    case Node(a, o, _) =>
      if prec[op] < prec[o] {
        ShapedLookups(prec, op, a);
      }
  }

  /** operands[0] ops[0] operands[1] ... ops[n-1] operands[n], in order. */
  function Interleave<T>(operands: seq<T>, ops: seq<string>): seq<Item<T>>
    requires |operands| == |ops| + 1
  {
    if |ops| == 0 then [Operand(operands[0])]
    else [Operand(operands[0]), Operator(ops[0])] + Interleave(operands[1..], ops[1..])
  }

  /** What a right-recursive rule E ::= T op E with the combinator as its
      factory builds from operands and operators: the rest is parsed (and
      combined) first, then the first operand is combined onto it. */
  function BuildRight<T>(prec: map<string, int>, operands: seq<T>, ops: seq<string>): (r: Expr<T>)
    requires |operands| == |ops| + 1
    requires forall i :: 0 <= i < |ops| ==> ops[i] in prec
    ensures Shaped(prec, r)
    ensures Flatten(r) == Interleave(operands, ops)
  {
    if |ops| == 0 then Leaf(operands[0])
    else
      var rest := BuildRight(prec, operands[1..], ops[1..]);
      ShapedLookups(prec, ops[0], rest);
      Combine(prec, Leaf(operands[0]), ops[0], rest)
  }

  // ---------------------------------------------------------------------
  // The precedence-correct tree of an expression is unique.
  // ---------------------------------------------------------------------

  /** Every operator in items is in the table with precedence at most p. */
  ghost predicate OpsAtMost<T>(prec: map<string, int>, items: seq<Item<T>>, p: int) {
    forall k :: 0 <= k < |items| && items[k].Operator? ==> items[k].op in prec && prec[items[k].op] <= p
  }

  /** Every operator in items is in the table with precedence below p. */
  ghost predicate OpsBelow<T>(prec: map<string, int>, items: seq<Item<T>>, p: int) {
    forall k :: 0 <= k < |items| && items[k].Operator? ==> items[k].op in prec && prec[items[k].op] < p
  }

  /** A leaf reads as one operand; a node reads as at least three items. */
  lemma FlattenLength<T>(e: Expr<T>)
    ensures e.Leaf? <==> |Flatten(e)| == 1
    ensures e.Leaf? ==> Flatten(e)[0] == Operand(e.value)
  {
    match e
    case Leaf(_) =>
    case Node(a, _, b) =>
      FlattenLength(a);
      FlattenLength(b);
  }

  /** In a Shaped tree the root operator binds loosest: no operator binds
      looser, and every operator left of it binds strictly tighter. */
  lemma {:induction false} ShapedBounds<T>(prec: map<string, int>, e: Expr<T>)
    requires Shaped(prec, e) && e.Node?
    ensures OpsAtMost(prec, Flatten(e), prec[e.op])
    ensures OpsBelow(prec, Flatten(e.first), prec[e.op])
  {
    var p := prec[e.op];
    var fa, fb := Flatten(e.first), Flatten(e.second);
    if e.first.Node? {
      ShapedBounds(prec, e.first);
    } else {
      FlattenLength(e.first);
    }
    assert OpsBelow(prec, fa, p);
    if e.second.Node? {
      ShapedBounds(prec, e.second);
    } else {
      FlattenLength(e.second);
    }
    assert OpsAtMost(prec, fb, p);
    var f := Flatten(e);
    assert f == fa + [Operator(e.op)] + fb;
    forall k | 0 <= k < |f| && f[k].Operator?
      ensures f[k].op in prec && prec[f[k].op] <= p
    {
      if k < |fa| {
        assert f[k] == fa[k];
      } else if k > |fa| {
        assert f[k] == fb[k - |fa| - 1];
      }
    }
  }

  /** Two Shaped trees that read the same are the same tree: the
      precedence-correct grouping of an expression is determined by the
      expression. */
  lemma {:induction false} ShapedUnique<T>(prec: map<string, int>, a: Expr<T>, b: Expr<T>)
    requires Shaped(prec, a) && Shaped(prec, b) && Flatten(a) == Flatten(b)
    ensures a == b
    decreases a
  {
    FlattenLength(a);
    FlattenLength(b);
    if a.Node? {
      ShapedBounds(prec, a);
      ShapedBounds(prec, b);
      var f := Flatten(a);
      var la, lb := |Flatten(a.first)|, |Flatten(b.first)|;
      assert f == Flatten(a.first) + [Operator(a.op)] + Flatten(a.second);
      assert f == Flatten(b.first) + [Operator(b.op)] + Flatten(b.second);
      assert f[la] == Operator(a.op);
      assert f[lb] == Operator(b.op);
      assert la == lb;
      assert Flatten(a.first) == f[..la] == Flatten(b.first);
      assert Flatten(a.second) == f[la + 1..] == Flatten(b.second);
      ShapedUnique(prec, a.first, b.first);
      ShapedUnique(prec, a.second, b.second);
    }
  }

  /** The right-recursive rule with the combinator as factory builds exactly
      the precedence-correct tree of the expression it reads. */
  lemma BuildRightIsPrecedenceParse<T>(prec: map<string, int>, operands: seq<T>, ops: seq<string>, e: Expr<T>)
    requires |operands| == |ops| + 1
    requires forall i :: 0 <= i < |ops| ==> ops[i] in prec
    requires Shaped(prec, e) && Flatten(e) == Interleave(operands, ops)
    ensures BuildRight(prec, operands, ops) == e
  {
    ShapedUnique(prec, BuildRight(prec, operands, ops), e);
  }

  // ---------------------------------------------------------------------
  // Examples with + at 2 and * at 1 (* binds tighter).
  // ---------------------------------------------------------------------

  const ArithPrec := map["+" := 2, "*" := 1]

  /** 1 + (2 * 3) is already correct and is left as it is. */
  lemma TighterOnRightKept()
    ensures Combine(ArithPrec, Leaf(1), "+", Node(Leaf(2), "*", Leaf(3))) ==
      Node(Leaf(1), "+", Node(Leaf(2), "*", Leaf(3)))
  {
  }

  /** 1 * (2 + 3) is rotated into (1 * 2) + 3. */
  lemma LooserOnRightRotated()
    ensures Combine(ArithPrec, Leaf(1), "*", Node(Leaf(2), "+", Leaf(3))) ==
      Node(Node(Leaf(1), "*", Leaf(2)), "+", Leaf(3))
  {
  }

  /** Equal precedence is not rotated: 1 + (2 + 3) stays right-nested. */
  lemma EqualPrecedenceStaysRight()
    ensures Combine(ArithPrec, Leaf(1), "+", Node(Leaf(2), "+", Leaf(3))) ==
      Node(Leaf(1), "+", Node(Leaf(2), "+", Leaf(3)))
  {
  }
}
