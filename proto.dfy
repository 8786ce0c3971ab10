// The prototype multi-valued front end (tests/mss.py): the same tree and
// renderer as relibmss/mss.py, but module-level And/Or/Not/IfThenElse with
// no literal promotion and no emptiness check, and a context whose `var`
// records the domain.
module Prototype {
  import opened Wrappers
  import opened Expressions
  import opened Combinators
  import Mss

  /** The registry of the prototype: each declared name's domain. */
  class Context<D> {
    var vars: map<string, D>

    constructor()
      ensures vars == map[]
    {
      vars := map[];
    }

    /** `var(name, domain)`: records the domain, replacing any earlier one,
        and returns a leaf for the name. */
    method Var(name: string, domain: D) returns (e: Expr)
      modifies this
      ensures vars == old(vars)[name := domain]
      ensures e == Leaf(name)
    {
      vars := vars[name := domain];
      e := Leaf(name);
    }
  }

  /** The left fold of the prototype: a one-element list gives its element,
      an empty one fails on `args[0]`. */
  method Fold(args: seq<Expr>, op: string) returns (r: Result<Expr>)
    ensures r == if |args| == 0 then Err(IndexError) else Ok(Chain(args[0], args[1..], op))
  {
    if |args| == 1 {
      assert args[1..] == [];
      return Ok(args[0]);
    }
    if |args| == 0 {
      return Err(IndexError);
    }
    var x := args[0];
    for i := 1 to |args|
      invariant x == Chain(args[0], args[1..i], op)
    {
      assert args[1..i + 1][..i - 1] == args[1..i];
      x := Node([x, args[i], Leaf(op)]);
    }
    assert args[1..|args|] == args[1..];
    r := Ok(x);
  }

  /** `And(args)`: the `&&` fold. */
  method And(args: seq<Expr>) returns (r: Result<Expr>)
    ensures r == if |args| == 0 then Err(IndexError) else Ok(Chain(args[0], args[1..], "&&"))
  {
    r := Fold(args, "&&");
  }

  /** `Or(args)`: the `||` fold. */
  method Or(args: seq<Expr>) returns (r: Result<Expr>)
    ensures r == if |args| == 0 then Err(IndexError) else Ok(Chain(args[0], args[1..], "||"))
  {
    r := Fold(args, "||");
  }

  /** `Not(arg)`. */
  function Not(arg: Expr): Expr
  {
    Node([arg, Leaf("!")])
  }

  /** `IfThenElse(condition, then_expr, else_expr)`. */
  function IfThenElse(condition: Expr, thenExpr: Expr, elseExpr: Expr): Expr
  {
    Node([condition, thenExpr, elseExpr, Leaf("?")])
  }

  function ExAll(es: seq<Expr>): (os: seq<Operand>)
    ensures |os| == |es|
    ensures forall i :: 0 <= i < |es| ==> os[i] == Ex(es[i])
  {
    if es == [] then [] else [Ex(es[0])] + ExAll(es[1..])
  }

  lemma {:induction false} PromoteExAll(es: seq<Expr>)
    ensures PromoteAll(ExAll(es)) == es
  {
    if es != [] {
      PromoteExAll(es[1..]);
      assert ExAll(es)[1..] == ExAll(es[1..]);
    }
  }

  /** On expression operands the prototype builds the same trees as the
      library front end; the two differ only on an empty list (an index
      error here, an assertion failure there). */
  lemma {:induction false} AgreesWithLibrary(args: seq<Expr>, op: string, c: Expr, t: Expr, e: Expr)
    ensures args != [] ==> FoldSpec(ExAll(args), op) == Ok(Chain(args[0], args[1..], op))
    ensures args == [] ==> FoldSpec(ExAll(args), op) == Err(AssertionError)
    ensures Not(c) == Combinators.Not(Ex(c))
    ensures IfThenElse(c, t, e) == IfElse(Ex(c), Ex(t), Ex(e))
  {
    if args != [] {
      PromoteExAll(args);
      assert ExAll(args)[1..] == ExAll(args[1..]);
      PromoteExAll(args[1..]);
    }
  }

  /** `And([x >= 1, y <= 1, z == 0])` renders as "x 1 >= y 1 <= && z 0 == &&";
      its first seven tokens are the hand-written stream
      "x 1 >= y 1 <= &&" that the prototype also hands to the engine. */
  lemma {:induction false} ScenarioRendering(x: string, y: string, z: string)
    requires CleanToken(x) && CleanToken(y) && CleanToken(z)
    ensures var v := Chain(Mss.Apply(Leaf(x), Mss.Ge, Lit("1")),
                           [Mss.Apply(Leaf(y), Mss.Le, Lit("1")), Mss.Apply(Leaf(z), Mss.Eq, Lit("0"))], "&&");
            && Mss.Render(v) == Join([x, "1", ">=", y, "1", "<=", "&&", z, "0", "==", "&&"], " ")
            && SplitWs(Mss.Render(v)) == [x, "1", ">=", y, "1", "<=", "&&", z, "0", "==", "&&"]
            && SplitWs(Join([x, "1", ">=", y, "1", "<=", "&&"], " ")) <= SplitWs(Mss.Render(v))
  {
    var v := Chain(Mss.Apply(Leaf(x), Mss.Ge, Lit("1")),
                   [Mss.Apply(Leaf(y), Mss.Le, Lit("1")), Mss.Apply(Leaf(z), Mss.Eq, Lit("0"))], "&&");
    var toks := [x, "1", ">=", y, "1", "<=", "&&", z, "0", "==", "&&"];
    ScenarioFrontier(x, y, z);
    Mss.RenderIsFrontier(v);
    ScenarioClean(x, y, z);
    SplitJoin(toks);
    var head := toks[..7];
    assert head == [x, "1", ">=", y, "1", "<=", "&&"];
    assert forall i :: 0 <= i < |head| ==> CleanToken(head[i]) by {
      forall i | 0 <= i < |head|
        ensures CleanToken(head[i])
      {
        assert head[i] == toks[i];
      }
    }
    SplitJoin(head);
  }

  /** The scenario's postfix tokens, and it has no empty tuple. */
  lemma {:induction false} ScenarioFrontier(x: string, y: string, z: string)
    ensures var v := Chain(Mss.Apply(Leaf(x), Mss.Ge, Lit("1")),
                           [Mss.Apply(Leaf(y), Mss.Le, Lit("1")), Mss.Apply(Leaf(z), Mss.Eq, Lit("0"))], "&&");
            && Frontier(v) == [x, "1", ">=", y, "1", "<=", "&&", z, "0", "==", "&&"]
            && Mss.NoEmptyTuple(v)
  {
    var a := Mss.Apply(Leaf(x), Mss.Ge, Lit("1"));
    var b := Mss.Apply(Leaf(y), Mss.Le, Lit("1"));
    var c := Mss.Apply(Leaf(z), Mss.Eq, Lit("0"));
    var v := Chain(a, [b, c], "&&");
    assert [b, c][..1] == [b];
    assert [b][..0] == [];
    ChainFrontier(a, [b, c], "&&");
    FrontierOfTriple(Leaf(x), Leaf("1"), Leaf(">="));
    FrontierOfTriple(Leaf(y), Leaf("1"), Leaf("<="));
    FrontierOfTriple(Leaf(z), Leaf("0"), Leaf("=="));
    assert OpAfterEach([b], "&&") == Frontier(b) + ["&&"];
    assert Mss.NoEmptyTuple(a) && Mss.NoEmptyTuple(b) && Mss.NoEmptyTuple(c);
    assert Mss.NoEmptyTuple(Chain(a, [b], "&&"));
  }

  /** Every token of the scenario survives splitting on whitespace. */
  lemma {:induction false} ScenarioClean(x: string, y: string, z: string)
    requires CleanToken(x) && CleanToken(y) && CleanToken(z)
    ensures var toks := [x, "1", ">=", y, "1", "<=", "&&", z, "0", "==", "&&"];
            forall i :: 0 <= i < |toks| ==> CleanToken(toks[i])
  {
    assert CleanToken("0") && CleanToken("1") && CleanToken("&&");
    assert CleanToken(">=") && CleanToken("<=") && CleanToken("==");
  }
}
