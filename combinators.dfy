// Builders shared by the boolean and the multi-valued front ends: the left
// fold behind And/Or (relibmss/bss.py:64-88, relibmss/mss.py:94-118), Not,
// ifelse and the binary operator node. The two front ends differ only in the
// operator symbols they pass in.
module Combinators {
  import opened Wrappers
  import opened Expressions

  /** The left-nested chain `(((first op r0) op r1) ... op rk)`. */
  function Chain(first: Expr, rest: seq<Expr>, op: string): Expr
  {
    if rest == [] then first
    else Node([Chain(first, rest[..|rest| - 1], op), rest[|rest| - 1], Leaf(op)])
  }

  /** What And/Or return for an argument list: an assertion failure on an
      empty list, otherwise the chain over the promoted arguments. */
  function FoldSpec(args: seq<Operand>, op: string): Result<Expr>
  {
    if |args| == 0 then Err(AssertionError)
    else Ok(Chain(Promote(args[0]), PromoteAll(args[1..]), op))
  }

  /** The body of And/Or: promote `args[0]` in the caller's list, then fold
      the copy `args[1:]`, each element promoted locally only. */
  method FoldPromote(args: array<Operand>, op: string) returns (r: Result<Expr>)
    modifies args
    ensures r == FoldSpec(old(args[..]), op)
    ensures args.Length > 0 ==> args[0] == Ex(Promote(old(args[0])))
    ensures forall i :: 1 <= i < args.Length ==> args[i] == old(args[i])
  {
    if args.Length == 0 {
      return Err(AssertionError);
    }
    if !args[0].Ex? {
      args[0] := Ex(Promote(args[0]));
    }
    if args.Length == 1 {
      return Ok(args[0].e);
    }
    var x := ChainOver(args[0].e, args[1..], op);
    r := Ok(x);
  }

  /** The loop `for y in args[1:]`: each element promoted and joined to the
      accumulated expression with the operator. */
  method ChainOver(first: Expr, rest: seq<Operand>, op: string) returns (x: Expr)
    ensures x == Chain(first, PromoteAll(rest), op)
  {
    x := first;
    for i := 0 to |rest|
      invariant x == Chain(first, PromoteAll(rest[..i]), op)
    {
      var y := Promote(rest[i]);
      assert rest[..i + 1] == rest[..i] + [rest[i]];
      PromoteAllSnoc(rest[..i], rest[i]);
      ChainSnoc(first, PromoteAll(rest[..i]), y, op);
      x := Node([x, y, Leaf(op)]);
    }
    assert rest[..|rest|] == rest;
  }

  lemma {:induction false} PromoteAllSnoc(os: seq<Operand>, o: Operand)
    ensures PromoteAll(os + [o]) == PromoteAll(os) + [Promote(o)]
  {
    var l, r := PromoteAll(os + [o]), PromoteAll(os) + [Promote(o)];
    assert |l| == |r|;
    forall i | 0 <= i < |l|
      ensures l[i] == r[i]
    {
      if i < |os| {
        assert (os + [o])[i] == os[i];
      }
    }
  }

  lemma {:induction false} ChainSnoc(first: Expr, es: seq<Expr>, e: Expr, op: string)
    ensures Chain(first, es + [e], op) == Node([Chain(first, es, op), e, Leaf(op)])
  {
    assert (es + [e])[..|es|] == es;
  }

  /** `(arg, '!')`. */
  function Not(arg: Operand): Expr
  {
    Node([Promote(arg), Leaf("!")])
  }

  /** `(condition, then_expr, else_expr, '?')`. */
  function IfElse(condition: Operand, thenExpr: Operand, elseExpr: Operand): Expr
  {
    Node([Promote(condition), Promote(thenExpr), Promote(elseExpr), Leaf("?")])
  }

  /** `(self, other, op)`: an overloaded operator applied to an expression. */
  function Binary(self: Expr, other: Operand, op: string): Expr
  {
    Node([self, Promote(other), Leaf(op)])
  }

  // ---------------------------------------------------------------------------
  // What the builders mean

  predicate AllWellFormed(es: seq<Expr>)
  {
    forall i :: 0 <= i < |es| ==> WellFormed(es[i])
  }

  /** `Not` yields a well-formed node whose value is `!` applied to its
      operand's value. */
  lemma {:induction false} NotPostfix<V>(a: Operand, leaf: string -> V, apply: (string, seq<V>) -> V)
    requires WellFormed(Promote(a))
    ensures WellFormed(Not(a)) && Eval(Not(a), leaf, apply) == apply("!", [Eval(Promote(a), leaf, apply)])
    ensures Frontier(Not(a)) == Frontier(Promote(a)) + ["!"]
  {
    var n := Not(a);
    assert n.kids[..1] == [Promote(a)];
    EvalAllAt(n.kids[..1], leaf, apply);
    assert EvalAll(n.kids[..1], leaf, apply) == [Eval(Promote(a), leaf, apply)];
    assert n.kids[1..] == [Leaf("!")];
    FrontierAllSingle(Promote(a));
    FrontierAllSingle(Leaf("!"));
    assert FrontierAll(n.kids) == Frontier(Promote(a)) + FrontierAll(n.kids[1..]);
  }

  /** `ifelse` yields a well-formed node whose value is `?` applied to its
      three operands' values, in argument order. */
  lemma {:induction false} IfElsePostfix<V>(a: Operand, b: Operand, c: Operand, leaf: string -> V, apply: (string, seq<V>) -> V)
    requires WellFormed(Promote(a)) && WellFormed(Promote(b)) && WellFormed(Promote(c))
    ensures WellFormed(IfElse(a, b, c))
    ensures Eval(IfElse(a, b, c), leaf, apply)
         == apply("?", [Eval(Promote(a), leaf, apply), Eval(Promote(b), leaf, apply), Eval(Promote(c), leaf, apply)])
  {
    var t := IfElse(a, b, c);
    assert t.kids[..3] == [Promote(a), Promote(b), Promote(c)];
    EvalAllTriple(Promote(a), Promote(b), Promote(c), leaf, apply);
  }

  /** A binary operator yields a well-formed node whose value is the operator
      applied to both operands' values, rendered as both operands' postfix
      and then the operator. */
  lemma {:induction false} BinaryPostfix<V>(self: Expr, b: Operand, op: string, leaf: string -> V, apply: (string, seq<V>) -> V)
    requires WellFormed(self) && WellFormed(Promote(b)) && Arity(op) == 2
    ensures WellFormed(Binary(self, b, op))
    ensures Eval(Binary(self, b, op), leaf, apply) == apply(op, [Eval(self, leaf, apply), Eval(Promote(b), leaf, apply)])
    ensures Frontier(Binary(self, b, op)) == Frontier(self) + Frontier(Promote(b)) + [op]
  {
    var x := Binary(self, b, op);
    assert x.kids[..2] == [self, Promote(b)];
    EvalAllPair(self, Promote(b), leaf, apply);
    FrontierOfTriple(self, Promote(b), Leaf(op));
  }

  /** Each builder yields a well-formed postfix node whose value is its
      operator applied to its operands' values, in argument order. */
  lemma {:induction false} BuildersArePostfix<V>(a: Operand, b: Operand, c: Operand, self: Expr, op: string, leaf: string -> V, apply: (string, seq<V>) -> V)
    requires WellFormed(Promote(a)) && WellFormed(Promote(b)) && WellFormed(Promote(c)) && WellFormed(self)
    requires Arity(op) == 2
    ensures WellFormed(Not(a)) && Eval(Not(a), leaf, apply) == apply("!", [Eval(Promote(a), leaf, apply)])
    ensures WellFormed(IfElse(a, b, c))
    ensures Eval(IfElse(a, b, c), leaf, apply)
         == apply("?", [Eval(Promote(a), leaf, apply), Eval(Promote(b), leaf, apply), Eval(Promote(c), leaf, apply)])
    ensures WellFormed(Binary(self, b, op))
    ensures Eval(Binary(self, b, op), leaf, apply) == apply(op, [Eval(self, leaf, apply), Eval(Promote(b), leaf, apply)])
    ensures Frontier(Binary(self, b, op)) == Frontier(self) + Frontier(Promote(b)) + [op]
  {
    NotPostfix(a, leaf, apply);
    IfElsePostfix(a, b, c, leaf, apply);
    BinaryPostfix(self, b, op, leaf, apply);
  }

  lemma {:induction false} ChainWellFormed(first: Expr, rest: seq<Expr>, op: string)
    requires WellFormed(first) && AllWellFormed(rest) && Arity(op) == 2
    ensures WellFormed(Chain(first, rest, op))
    decreases |rest|
  {
    if rest != [] {
      ChainWellFormed(first, rest[..|rest| - 1], op);
    }
  }

  /** Every expression of the list is true. */
  predicate AllTrue(es: seq<Expr>, env: string -> bool)
    requires AllWellFormed(es)
  {
    forall i :: 0 <= i < |es| ==> Truth(es[i], env)
  }

  /** Some expression of the list is true. */
  predicate SomeTrue(es: seq<Expr>, env: string -> bool)
    requires AllWellFormed(es)
  {
    exists i :: 0 <= i < |es| && Truth(es[i], env)
  }

  /** The last link of a chain: the operator applied to the shorter chain
      and the last expression. */
  lemma {:induction false} ChainStep(first: Expr, rest: seq<Expr>, op: string, env: string -> bool)
    requires rest != [] && WellFormed(first) && AllWellFormed(rest) && Arity(op) == 2
    ensures AllWellFormed(rest[..|rest| - 1])
    ensures WellFormed(Chain(first, rest[..|rest| - 1], op)) && WellFormed(Chain(first, rest, op))
    ensures Truth(Chain(first, rest, op), env)
         == BoolApply(op, [Truth(Chain(first, rest[..|rest| - 1], op), env), Truth(rest[|rest| - 1], env)])
  {
    var n := |rest|;
    var p := rest[..n - 1];
    assert forall i :: 0 <= i < n - 1 ==> p[i] == rest[i];
    ChainWellFormed(first, p, op);
    ChainWellFormed(first, rest, op);
    var c := Chain(first, rest, op);
    assert c.kids[..2] == [Chain(first, p, op), rest[n - 1]];
    EvalAllPair(Chain(first, p, op), rest[n - 1], env, BoolApply);
  }

  /** A chain of `&`/`&&` is true exactly when every chained expression is. */
  lemma {:induction false} ChainConjunction(first: Expr, rest: seq<Expr>, op: string, env: string -> bool)
    requires WellFormed(first) && AllWellFormed(rest) && (op == "&" || op == "&&")
    ensures WellFormed(Chain(first, rest, op))
    ensures Truth(Chain(first, rest, op), env) <==> Truth(first, env) && AllTrue(rest, env)
    decreases |rest|
  {
    ChainWellFormed(first, rest, op);
    if rest != [] {
      var n := |rest|;
      ChainStep(first, rest, op, env);
      ChainConjunction(first, rest[..n - 1], op, env);
      AllTrueSnoc(rest, env);
    }
  }

  /** A chain of `|`/`||` is true exactly when some chained expression is. */
  lemma {:induction false} ChainDisjunction(first: Expr, rest: seq<Expr>, op: string, env: string -> bool)
    requires WellFormed(first) && AllWellFormed(rest) && (op == "|" || op == "||")
    ensures WellFormed(Chain(first, rest, op))
    ensures Truth(Chain(first, rest, op), env) <==> Truth(first, env) || SomeTrue(rest, env)
    decreases |rest|
  {
    ChainWellFormed(first, rest, op);
    if rest != [] {
      var n := |rest|;
      ChainStep(first, rest, op, env);
      ChainDisjunction(first, rest[..n - 1], op, env);
      SomeTrueSnoc(rest, env);
    }
  }

  lemma {:induction false} AllTrueSnoc(es: seq<Expr>, env: string -> bool)
    requires es != [] && AllWellFormed(es)
    ensures AllWellFormed(es[..|es| - 1])
    ensures AllTrue(es, env) <==> AllTrue(es[..|es| - 1], env) && Truth(es[|es| - 1], env)
  {
    var p := es[..|es| - 1];
    assert forall i :: 0 <= i < |p| ==> p[i] == es[i];
  }

  lemma {:induction false} SomeTrueSnoc(es: seq<Expr>, env: string -> bool)
    requires es != [] && AllWellFormed(es)
    ensures AllWellFormed(es[..|es| - 1])
    ensures SomeTrue(es, env) <==> SomeTrue(es[..|es| - 1], env) || Truth(es[|es| - 1], env)
  {
    var p := es[..|es| - 1];
    assert forall i :: 0 <= i < |p| ==> p[i] == es[i];
    if SomeTrue(es, env) && !Truth(es[|es| - 1], env) {
      var j :| 0 <= j < |es| && Truth(es[j], env);
      assert Truth(p[j], env);
    }
  }

  /** The chain's postfix rendering: the first expression, then each further
      expression followed by the operator, in argument order. */
  lemma {:induction false} ChainFrontier(first: Expr, rest: seq<Expr>, op: string)
    ensures Frontier(Chain(first, rest, op)) == Frontier(first) + OpAfterEach(rest, op)
    decreases |rest|
  {
    if rest != [] {
      var n := |rest|;
      ChainFrontier(first, rest[..n - 1], op);
      FrontierOfTriple(Chain(first, rest[..n - 1], op), rest[n - 1], Leaf(op));
    }
  }

  /** `r0 op r1 op ... rk op` as a token list. */
  function OpAfterEach(rest: seq<Expr>, op: string): seq<string>
  {
    if rest == [] then [] else OpAfterEach(rest[..|rest| - 1], op) + Frontier(rest[|rest| - 1]) + [op]
  }

  /** The operator count: a chain over n expressions holds n - 1 operator
      nodes on its left spine. */
  function Spine(e: Expr, op: string): nat
  {
    match e
    case Leaf(_) => 0
    case Node(kids) =>
      if |kids| == 3 && kids[2] == Leaf(op) then 1 + Spine(kids[0], op) else 0
  }

  lemma {:induction false} ChainSpine(first: Expr, rest: seq<Expr>, op: string)
    requires Spine(first, op) == 0
    ensures Spine(Chain(first, rest, op), op) == |rest|
    decreases |rest|
  {
    if rest != [] {
      ChainSpine(first, rest[..|rest| - 1], op);
    }
  }
}
