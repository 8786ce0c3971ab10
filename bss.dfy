// The boolean-system front end (relibmss/bss.py): the iterative postfix
// compiler, the variable registry and the k-out-of-n combinator. And, Or,
// Not and ifelse are the shared builders of module Combinators, used with
// the connectives `&` and `|`.
module Bss {
  import opened Wrappers
  import opened Expressions
  import opened Combinators

  // ---------------------------------------------------------------------------
  // The postfix compiler

  /** The tokens still to be emitted for a work stack whose top is its last
      element: the top's frontier first, then the rest of the stack's. */
  function StackFrontier(stack: seq<Expr>): seq<string>
  {
    if stack == [] then [] else Frontier(stack[|stack| - 1]) + StackFrontier(stack[..|stack| - 1])
  }

  function StackSize(stack: seq<Expr>): nat
  {
    if stack == [] then 0 else Size(stack[|stack| - 1]) + StackSize(stack[..|stack| - 1])
  }

  lemma {:induction false} StackPush(stack: seq<Expr>, e: Expr)
    ensures StackFrontier(stack + [e]) == Frontier(e) + StackFrontier(stack)
    ensures StackSize(stack + [e]) == Size(e) + StackSize(stack)
  {
    assert (stack + [e])[..|stack|] == stack;
  }

  /** `_to_rpn`: pop a node; a tuple pushes its children in reverse so that
      they are popped left to right, a scalar is emitted with `str`. The
      result is the space-joined frontier of the tree, which is a postfix
      stream (`Expressions.PostfixRoundTrip`). */
  method ToRpn(expr: Expr) returns (s: string)
    ensures s == Join(Frontier(expr), " ")
  {
    var stack := [expr];
    var rpn: seq<string> := [];
    StackPush([], expr);
    assert [] + [expr] == [expr];
    while |stack| > 0
      invariant rpn + StackFrontier(stack) == Frontier(expr)
      decreases StackSize(stack)
    {
      var node := stack[|stack| - 1];
      stack := stack[..|stack| - 1];
      match node
      case Node(kids) =>
        stack := PushReversed(stack, kids);
      case Leaf(t) =>
        rpn := rpn + [t];
    }
    assert rpn + [] == rpn;
    s := Join(rpn, " ");
  }

  /** The inner loop of `_to_rpn`: the children pushed last to first, so
      that the first child ends on top. */
  method PushReversed(base: seq<Expr>, kids: seq<Expr>) returns (stack: seq<Expr>)
    ensures StackFrontier(stack) == FrontierAll(kids) + StackFrontier(base)
    ensures StackSize(stack) == SizeAll(kids) + StackSize(base)
  {
    stack := base;
    for i := |kids| downto 0
      invariant StackFrontier(stack) == FrontierAll(kids[i..]) + StackFrontier(base)
      invariant StackSize(stack) == SizeAll(kids[i..]) + StackSize(base)
    {
      assert kids[i..][1..] == kids[i + 1..];
      StackPush(stack, kids[i]);
      stack := stack + [kids[i]];
    }
    assert kids[0..] == kids;
  }

  // ---------------------------------------------------------------------------
  // The context

  /** The registry of a boolean system: the declared names, and the names
      handed to the diagram engine (`self.bdd.defvar`) in call order. */
  class Context {
    var vars: set<string>
    var engine: seq<string>

    constructor()
      ensures vars == {} && engine == []
    {
      vars := {};
      engine := [];
    }

    /** Adds the name to the set and returns a leaf for it. */
    method Defvar(name: string) returns (e: Expr)
      modifies this
      ensures vars == old(vars) + {name}
      ensures engine == old(engine)
      ensures e == Leaf(name) && Frontier(e) == [name]
    {
      vars := vars + {name};
      e := Leaf(name);
    }

    /** Registers each name with the engine, in list order. */
    method SetVarorder(x: seq<string>)
      modifies this
      ensures engine == old(engine) + x
      ensures vars == old(vars)
    {
      for i := 0 to |x|
        invariant engine == old(engine) + x[..i]
        invariant vars == old(vars)
      {
        assert x[..i + 1] == x[..i] + [x[i]];
        engine := engine + [x[i]];
      }
      assert x[..|x|] == x;
    }

    /** `And(args)`: the left fold with `&`, writing the promoted first
        argument back into the caller's list. */
    method And(args: array<Operand>) returns (r: Result<Expr>)
      modifies args
      ensures r == FoldSpec(old(args[..]), "&")
      ensures args.Length > 0 ==> args[0] == Ex(Promote(old(args[0])))
      ensures forall i :: 1 <= i < args.Length ==> args[i] == old(args[i])
    {
      r := FoldPromote(args, "&");
    }

    /** `Or(args)`: the left fold with `|`. */
    method Or(args: array<Operand>) returns (r: Result<Expr>)
      modifies args
      ensures r == FoldSpec(old(args[..]), "|")
      ensures args.Length > 0 ==> args[0] == Ex(Promote(old(args[0])))
      ensures forall i :: 1 <= i < args.Length ==> args[i] == old(args[i])
    {
      r := FoldPromote(args, "|");
    }

    /** `kofn(k, args)`: the k = 1 and k = n arms hand the caller's own list
        to Or and And, which write a promoted first argument back into it;
        the recursive arm gives each recursive call its own copy `args[1:]`,
        so the caller's list keeps its contents. */
    method Kofn(k: int, args: array<Operand>) returns (r: Result<Expr>)
      modifies args
      ensures r == KofN(k, old(args[..]))
      ensures KofNWritesBack(k, args.Length) ==> args[0] == Ex(Promote(old(args[0])))
      ensures !KofNWritesBack(k, args.Length) ==> args[..] == old(args[..])
      ensures forall i :: 1 <= i < args.Length ==> args[i] == old(args[i])
      decreases args.Length
    {
      if k > args.Length {
        return Err(AssertionError);
      }
      if k == 1 {
        r := Or(args);
        return;
      }
      if k == args.Length {
        r := And(args);
        return;
      }
      if args.Length == 0 {
        return Err(IndexError);
      }
      var first := args[0];
      var rest := Tail(args);
      var t := Kofn(k - 1, rest);
      if t.Err? {
        return Err(t.error);
      }
      rest := Tail(args);
      var f := Kofn(k, rest);
      if f.Err? {
        return Err(f.error);
      }
      r := Ok(IfElse(first, Ex(t.value), Ex(f.value)));
    }
  }

  /** Whether `kofn(k, args)` on a list of length n ends in a top-level
      And or Or that gets past its assertion, and so writes `args[0]`
      back. */
  predicate KofNWritesBack(k: int, n: int)
  {
    0 < n && k <= n && (k == 1 || k == n)
  }

  /** The slice `args[1:]`: a new list holding all but the first element. */
  method Tail(args: array<Operand>) returns (rest: array<Operand>)
    requires args.Length > 0
    ensures fresh(rest) && rest[..] == args[1..]
  {
    var s := args[1..];
    rest := new Operand[|s|](i requires 0 <= i < |s| => s[i]);
    assert rest[..] == s;
  }

  /** `const(value)`: a leaf for the value. */
  function Const(value: string): (e: Expr)
    ensures Frontier(e) == [value]
    ensures WellFormed(e) <==> Arity(value) == 0
  {
    Leaf(value)
  }

  /** `a & b` and `a | b` on an expression: a new three-child node, the
      other operand promoted, the left operand unchanged. */
  lemma {:induction false} OperatorsBuildConnectives(self: Expr, other: Operand, env: string -> bool)
    requires WellFormed(self) && WellFormed(Promote(other))
    ensures WellFormed(Binary(self, other, "&")) && WellFormed(Binary(self, other, "|"))
    ensures Truth(Binary(self, other, "&"), env) == (Truth(self, env) && Truth(Promote(other), env))
    ensures Truth(Binary(self, other, "|"), env) == (Truth(self, env) || Truth(Promote(other), env))
    ensures Join(Frontier(Binary(self, other, "&")), " ")
         == Join(Frontier(self) + Frontier(Promote(other)) + ["&"], " ")
  {
    BinaryPostfix(self, other, "&", env, BoolApply);
    BinaryPostfix(self, other, "|", env, BoolApply);
  }

  // ---------------------------------------------------------------------------
  // k out of n

  /** `kofn(k, args)`, with the failures of the Python code: the assertion
      `k <= len(args)`, the empty-list assertion of And/Or, and the index
      error of `args[0]` on an empty list. The k = 1 test comes first. */
  function KofN(k: int, args: seq<Operand>): (r: Result<Expr>)
    ensures r.Ok? ==> 1 <= k <= |args|
    decreases |args|
  {
    if k > |args| then Err(AssertionError)
    else if k == 1 then FoldSpec(args, "|")
    else if k == |args| then FoldSpec(args, "&")
    else if |args| == 0 then Err(IndexError)
    else
      match KofN(k - 1, args[1..])
      case Err(e) => Err(e)
      case Ok(t) =>
        match KofN(k, args[1..])
        case Err(e) => Err(e)
        case Ok(f) => Ok(IfElse(args[0], Ex(t), Ex(f)))
  }

  /** How many of the expressions are true. */
  function CountTrue(es: seq<Expr>, env: string -> bool): nat
    requires AllWellFormed(es)
  {
    if es == [] then 0 else (if Truth(es[0], env) then 1 else 0) + CountTrue(es[1..], env)
  }

  /** All n expressions are true exactly when n of them are counted. */
  lemma {:induction false} CountTrueAll(es: seq<Expr>, env: string -> bool)
    requires AllWellFormed(es)
    ensures CountTrue(es, env) <= |es|
    ensures CountTrue(es, env) == |es| <==> AllTrue(es, env)
  {
    if es != [] {
      CountTrueAll(es[1..], env);
      AllTrueCons(es, env);
    }
  }

  /** Some expression is true exactly when at least one is counted. */
  lemma {:induction false} CountTrueSome(es: seq<Expr>, env: string -> bool)
    requires AllWellFormed(es)
    ensures CountTrue(es, env) >= 1 <==> SomeTrue(es, env)
  {
    if es != [] {
      CountTrueSome(es[1..], env);
      SomeTrueCons(es, env);
    }
  }

  lemma {:induction false} CountTrueCons(args: seq<Operand>, env: string -> bool)
    requires args != [] && AllWellFormed(PromoteAll(args))
    ensures AllWellFormed(PromoteAll(args[1..]))
    ensures CountTrue(PromoteAll(args), env)
         == (if Truth(Promote(args[0]), env) then 1 else 0) + CountTrue(PromoteAll(args[1..]), env)
  {
    assert PromoteAll(args)[1..] == PromoteAll(args[1..]);
  }

  lemma {:induction false} SomeTrueCons(es: seq<Expr>, env: string -> bool)
    requires es != [] && AllWellFormed(es)
    ensures SomeTrue(es, env) <==> Truth(es[0], env) || SomeTrue(es[1..], env)
  {
    if exists i :: 0 <= i < |es[1..]| && Truth(es[1..][i], env) {
      var j :| 0 <= j < |es[1..]| && Truth(es[1..][j], env);
      assert Truth(es[j + 1], env);
    }
    if exists i :: 0 <= i < |es| && Truth(es[i], env) {
      var j :| 0 <= j < |es| && Truth(es[j], env);
      if j > 0 {
        assert es[1..][j - 1] == es[j];
      }
    }
  }

  lemma {:induction false} AllTrueCons(es: seq<Expr>, env: string -> bool)
    requires es != [] && AllWellFormed(es)
    ensures AllTrue(es, env) <==> Truth(es[0], env) && AllTrue(es[1..], env)
  {
    if Truth(es[0], env) && forall i :: 0 <= i < |es[1..]| ==> Truth(es[1..][i], env) {
      forall i | 0 <= i < |es|
        ensures Truth(es[i], env)
      {
        if i > 0 {
          assert es[i] == es[1..][i - 1];
        }
      }
    }
  }

  /** The k = 1 arm: the `|` fold is true exactly when some argument is. */
  lemma {:induction false} FoldOrCounts(args: seq<Operand>, env: string -> bool)
    requires args != [] && AllWellFormed(PromoteAll(args))
    ensures FoldSpec(args, "|").Ok? && WellFormed(FoldSpec(args, "|").value)
    ensures Truth(FoldSpec(args, "|").value, env) <==> CountTrue(PromoteAll(args), env) >= 1
  {
    var es := PromoteAll(args);
    var rest := es[1..];
    assert rest == PromoteAll(args[1..]);
    assert FoldSpec(args, "|") == Ok(Chain(es[0], rest, "|"));
    ChainDisjunction(es[0], rest, "|", env);
    SomeTrueCons(es, env);
    CountTrueSome(es, env);
  }

  /** The k = n arm: the `&` fold is true exactly when every argument is. */
  lemma {:induction false} FoldAndCounts(args: seq<Operand>, env: string -> bool)
    requires args != [] && AllWellFormed(PromoteAll(args))
    ensures FoldSpec(args, "&").Ok? && WellFormed(FoldSpec(args, "&").value)
    ensures Truth(FoldSpec(args, "&").value, env) <==> CountTrue(PromoteAll(args), env) >= |args|
  {
    var es := PromoteAll(args);
    var rest := es[1..];
    assert rest == PromoteAll(args[1..]);
    assert FoldSpec(args, "&") == Ok(Chain(es[0], rest, "&"));
    ChainConjunction(es[0], rest, "&", env);
    AllTrueCons(es, env);
    CountTrueAll(es, env);
    var counted := CountTrue(es, env);
    assert |es| == |args| && counted <= |args|;
    assert (counted >= |args|) == AllTrue(es, env);
  }

  /** For 1 <= k <= n the result exists, is well formed, and is true exactly
      when at least k of the arguments are true. */
  lemma {:induction false} KofNAtLeast(k: int, args: seq<Operand>, env: string -> bool)
    requires 1 <= k <= |args|
    requires AllWellFormed(PromoteAll(args))
    ensures KofN(k, args).Ok? && WellFormed(KofN(k, args).value)
    ensures Truth(KofN(k, args).value, env) <==> CountTrue(PromoteAll(args), env) >= k
    decreases |args|, 1
  {
    if k == 1 {
      KofNOne(args, env);
    } else if k == |args| {
      KofNAll(args, env);
    } else {
      KofNRecurse(k, args, env);
    }
  }

  /** The recursive arm of `KofNAtLeast`: the claim for the arguments after
      the first, at k - 1 and at k, carried over by `KofNStep`. */
  lemma {:induction false} KofNRecurse(k: int, args: seq<Operand>, env: string -> bool)
    requires 1 < k < |args|
    requires AllWellFormed(PromoteAll(args))
    ensures KofN(k, args).Ok? && WellFormed(KofN(k, args).value)
    ensures Truth(KofN(k, args).value, env) <==> CountTrue(PromoteAll(args), env) >= k
    decreases |args|, 0
  {
    CountTrueCons(args, env);
    KofNAtLeast(k - 1, args[1..], env);
    KofNAtLeast(k, args[1..], env);
    KofNStep(k, args, env);
  }

  /** The k = 1 arm of `kofn`: the `|` fold. */
  lemma {:induction false} KofNOne(args: seq<Operand>, env: string -> bool)
    requires 1 <= |args| && AllWellFormed(PromoteAll(args))
    ensures KofN(1, args).Ok? && WellFormed(KofN(1, args).value)
    ensures Truth(KofN(1, args).value, env) <==> CountTrue(PromoteAll(args), env) >= 1
  {
    assert KofN(1, args) == FoldSpec(args, "|");
    FoldOrCounts(args, env);
  }

  /** The k = n arm of `kofn` for n > 1: the `&` fold. */
  lemma {:induction false} KofNAll(args: seq<Operand>, env: string -> bool)
    requires 1 < |args| && AllWellFormed(PromoteAll(args))
    ensures KofN(|args|, args).Ok? && WellFormed(KofN(|args|, args).value)
    ensures Truth(KofN(|args|, args).value, env) <==> CountTrue(PromoteAll(args), env) >= |args|
  {
    assert KofN(|args|, args) == FoldSpec(args, "&");
    FoldAndCounts(args, env);
  }

  /** The recursive arm of `kofn`: given the claim for k - 1 and for k of
      the arguments after the first, it holds for k of all of them. */
  lemma {:induction false} KofNStep(k: int, args: seq<Operand>, env: string -> bool)
    requires 1 < k < |args|
    requires AllWellFormed(PromoteAll(args)) && AllWellFormed(PromoteAll(args[1..]))
    requires KofN(k - 1, args[1..]).Ok? && WellFormed(KofN(k - 1, args[1..]).value)
    requires Truth(KofN(k - 1, args[1..]).value, env) <==> CountTrue(PromoteAll(args[1..]), env) >= k - 1
    requires KofN(k, args[1..]).Ok? && WellFormed(KofN(k, args[1..]).value)
    requires Truth(KofN(k, args[1..]).value, env) <==> CountTrue(PromoteAll(args[1..]), env) >= k
    ensures KofN(k, args).Ok? && WellFormed(KofN(k, args).value)
    ensures Truth(KofN(k, args).value, env) <==> CountTrue(PromoteAll(args), env) >= k
  {
    var rest := args[1..];
    CountTrueCons(args, env);
    var t := KofN(k - 1, rest).value;
    var f := KofN(k, rest).value;
    assert KofN(k, args) == Ok(IfElse(args[0], Ex(t), Ex(f)));
    assert WellFormed(Promote(args[0])) by {
      assert PromoteAll(args)[0] == Promote(args[0]);
    }
    IfElseTruth(args[0], t, f, env);
  }

  /** The boolean reading of `ifelse`: the then-branch where the condition
      holds, the else-branch elsewhere. */
  lemma {:induction false} IfElseTruth(c: Operand, t: Expr, f: Expr, env: string -> bool)
    requires WellFormed(Promote(c)) && WellFormed(t) && WellFormed(f)
    ensures WellFormed(IfElse(c, Ex(t), Ex(f)))
    ensures Truth(IfElse(c, Ex(t), Ex(f)), env) == if Truth(Promote(c), env) then Truth(t, env) else Truth(f, env)
  {
    IfElsePostfix(c, Ex(t), Ex(f), env, BoolApply);
  }

  /** A non-positive k never yields an expression: the recursion runs the
      list down to an empty And or an index error. */
  lemma {:induction false} KofNNonPositive(k: int, args: seq<Operand>)
    requires k <= 0
    ensures KofN(k, args).Err?
    decreases |args|
  {
    if |args| > 0 {
      KofNNonPositive(k - 1, args[1..]);
    }
  }

  /** The scenario `kofn(2, [x, y, z])`: true exactly when at least two of
      the three variables are. */
  lemma {:induction false} TwoOutOfThree(env: string -> bool)
    ensures KofN(2, [Lit("x"), Lit("y"), Lit("z")]).Ok?
    ensures Truth(KofN(2, [Lit("x"), Lit("y"), Lit("z")]).value, env)
        <==> (env("x") && env("y")) || (env("x") && env("z")) || (env("y") && env("z"))
  {
    var args := [Lit("x"), Lit("y"), Lit("z")];
    var es := PromoteAll(args);
    assert es == [Leaf("x"), Leaf("y"), Leaf("z")];
    KofNAtLeast(2, args, env);
    assert es[1..] == [Leaf("y"), Leaf("z")];
    assert es[1..][1..] == [Leaf("z")];
    assert es[1..][1..][1..] == [];
    assert Truth(Leaf("x"), env) == env("x");
    assert Truth(Leaf("y"), env) == env("y");
    assert Truth(Leaf("z"), env) == env("z");
    assert CountTrue(es[1..][1..], env) == (if env("z") then 1 else 0);
    assert CountTrue(es[1..], env) == (if env("y") then 1 else 0) + (if env("z") then 1 else 0);
  }
}
