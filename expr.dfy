// The expression tree shared by the boolean (relibmss/bss.py) and the
// multi-valued (relibmss/mss.py) front ends, its postfix rendering, the
// whitespace tokenizer of the consumer, and a reference stack evaluator that
// gives the postfix stream its meaning.
module Expressions {
  import opened Wrappers

  /** An `_Expression`: a leaf holds the `str` rendering of its scalar (a
      variable name, an integer, a bool, `None` or an operator symbol); a node
      holds the tuple of its children. Every combinator puts its operator leaf
      last. */
  datatype Expr = Leaf(tok: string) | Node(kids: seq<Expr>)

  /** A combinator argument: an `_Expression`, or a bare Python value given by
      its `str` rendering. */
  datatype Operand = Ex(e: Expr) | Lit(text: string)

  /** Literal promotion: an `_Expression` is used as it is, any other value is
      wrapped in a leaf. */
  function Promote(o: Operand): Expr
  {
    match o
    case Ex(e) => e
    case Lit(t) => Leaf(t)
  }

  function PromoteAll(os: seq<Operand>): (es: seq<Expr>)
    ensures |es| == |os|
    ensures forall i :: 0 <= i < |os| ==> es[i] == Promote(os[i])
  {
    if os == [] then [] else [Promote(os[0])] + PromoteAll(os[1..])
  }

  /** Number of tree nodes, leaves included. */
  function Size(e: Expr): nat
  {
    match e
    case Leaf(_) => 1
    case Node(kids) => 1 + SizeAll(kids)
  }

  function SizeAll(es: seq<Expr>): nat
  {
    if es == [] then 0 else Size(es[0]) + SizeAll(es[1..])
  }

  // ---------------------------------------------------------------------------
  // Frontier and rendering

  /** The leaves of a tree, left to right. */
  function Frontier(e: Expr): seq<string>
  {
    match e
    case Leaf(t) => [t]
    case Node(kids) => FrontierAll(kids)
  }

  function FrontierAll(es: seq<Expr>): seq<string>
  {
    if es == [] then [] else Frontier(es[0]) + FrontierAll(es[1..])
  }

  lemma {:induction false} FrontierAllAppend(a: seq<Expr>, b: seq<Expr>)
    ensures FrontierAll(a + b) == FrontierAll(a) + FrontierAll(b)
  {
    if a == [] {
      assert a + b == b;
    } else {
      assert (a + b)[1..] == a[1..] + b;
      FrontierAllAppend(a[1..], b);
    }
  }

  lemma {:induction false} FrontierAllSingle(e: Expr)
    ensures FrontierAll([e]) == Frontier(e)
  {
    assert [e][1..] == [];
  }

  lemma {:induction false} FrontierOfTriple(a: Expr, b: Expr, c: Expr)
    ensures FrontierAll([a, b, c]) == Frontier(a) + Frontier(b) + Frontier(c)
  {
    assert [a, b, c][1..] == [b, c];
    assert [b, c][1..] == [c];
    FrontierAllSingle(c);
  }

  /** `sep.join(toks)`. */
  function Join(toks: seq<string>, sep: string): string
  {
    if |toks| == 0 then ""
    else if |toks| == 1 then toks[0]
    else toks[0] + sep + Join(toks[1..], sep)
  }

  lemma {:induction false} JoinAppend(a: seq<string>, b: seq<string>, sep: string)
    requires a != [] && b != []
    ensures Join(a + b, sep) == Join(a, sep) + sep + Join(b, sep)
  {
    if |a| == 1 {
      assert (a + b)[1..] == b;
    } else {
      assert (a + b)[1..] == a[1..] + b;
      JoinAppend(a[1..], b, sep);
    }
  }

  // ---------------------------------------------------------------------------
  // The consumer's tokenizer (Rust `str::split_whitespace`)

  /** The Unicode White_Space property, on which `char::is_whitespace` and so `split_whitespace` split. */
  predicate IsSpace(c: char)
  {
    ('\t' <= c <= '\r') || c == ' ' || c == '\U{85}' || c == '\U{A0}' || c == '\U{1680}'
    || ('\U{2000}' <= c <= '\U{200A}') || c == '\U{2028}' || c == '\U{2029}' || c == '\U{202F}'
    || c == '\U{205F}' || c == '\U{3000}'
  }

  /** A token that survives a round trip through `Join` and `SplitWs`. */
  predicate CleanToken(t: string)
  {
    t != [] && forall i :: 0 <= i < |t| ==> !IsSpace(t[i])
  }

  /** Maximal runs of non-space characters, in order. */
  function SplitWs(s: string): seq<string>
  {
    SplitFrom(s, "")
  }

  function SplitFrom(s: string, cur: string): seq<string>
    decreases |s|
  {
    if s == [] then (if cur == [] then [] else [cur])
    else if IsSpace(s[0]) then (if cur == [] then SplitFrom(s[1..], []) else [cur] + SplitFrom(s[1..], []))
    else SplitFrom(s[1..], cur + [s[0]])
  }

  /** Non-ASCII white space separates tokens as ASCII white space does. */
  lemma {:induction false} SplitsUnicodeSpace()
    ensures SplitWs("a\U{A0}b\U{3000}c") == ["a", "b", "c"]
  {
    var s := "a\U{A0}b\U{3000}c";
    var e: string := [];
    assert e + [s[0]] == "a" && e + [s[2]] == "b" && e + [s[4]] == "c";
    assert IsSpace(s[1]) && IsSpace(s[3]) && !IsSpace(s[0]) && !IsSpace(s[2]) && !IsSpace(s[4]);
    assert SplitFrom(s[5..], "c") == ["c"];
    assert SplitFrom(s[4..], e) == SplitFrom(s[5..], "c");
    assert SplitFrom(s[3..], "b") == ["b"] + SplitFrom(s[4..], e);
    assert SplitFrom(s[2..], e) == SplitFrom(s[3..], "b");
    assert SplitFrom(s[1..], "a") == ["a"] + SplitFrom(s[2..], e);
    assert SplitFrom(s, e) == SplitFrom(s[1..], "a");
  }

  lemma {:induction false} SplitFromWord(t: string, rest: string, cur: string)
    requires forall i :: 0 <= i < |t| ==> !IsSpace(t[i])
    ensures SplitFrom(t + rest, cur) == SplitFrom(rest, cur + t)
    decreases |t|
  {
    if t == [] {
      assert t + rest == rest;
      assert cur + t == cur;
    } else {
      assert (t + rest)[0] == t[0];
      assert (t + rest)[1..] == t[1..] + rest;
      assert cur + [t[0]] + t[1..] == cur + t;
      SplitFromWord(t[1..], rest, cur + [t[0]]);
    }
  }

  /** The tokenizer gives back exactly the tokens that were space-joined. */
  lemma {:induction false} SplitJoin(toks: seq<string>)
    requires forall i :: 0 <= i < |toks| ==> CleanToken(toks[i])
    ensures SplitWs(Join(toks, " ")) == toks
  {
    SplitJoinFrom(toks);
  }

  lemma {:induction false} SplitJoinFrom(toks: seq<string>)
    requires forall i :: 0 <= i < |toks| ==> CleanToken(toks[i])
    ensures SplitFrom(Join(toks, " "), "") == toks
  {
    if |toks| == 0 {
    } else if |toks| == 1 {
      SplitFromWord(toks[0], "", "");
      assert toks[0] + "" == toks[0];
      assert "" + toks[0] == toks[0];
    } else {
      var rest := Join(toks[1..], " ");
      assert Join(toks, " ") == toks[0] + (" " + rest);
      SplitFromWord(toks[0], " " + rest, "");
      assert "" + toks[0] == toks[0];
      assert (" " + rest)[1..] == rest;
      SplitJoinFrom(toks[1..]);
    }
  }

  // ---------------------------------------------------------------------------
  // Postfix meaning

  /** The operator tokens the diagram engines accept and their arities: the
      fourteen spellings of the multi-valued consumer plus the `&` and `|` of
      the boolean one. Every other token is an operand. */
  function Arity(tok: string): nat
  {
    if tok in {"&", "|", "&&", "||", "+", "-", "*", "/", "==", "!=", "<", "<=", ">", ">="} then 2
    else if tok == "!" then 1
    else if tok == "?" then 3
    else 0
  }

  /** The numerals the scenarios use are operands, not operators. */
  lemma {:induction false} NumeralsAreOperands()
    ensures Arity("0") == 0 && Arity("1") == 0 && Arity("2") == 0
  {
    assert "0"[0] == '0' && "1"[0] == '1' && "2"[0] == '2';
  }

  /** A tree the combinators can build: operand leaves, and nodes whose last
      child is an operator leaf taking exactly the other children. */
  predicate WellFormed(e: Expr)
  {
    match e
    case Leaf(t) => Arity(t) == 0
    case Node(kids) =>
      && |kids| >= 2
      && kids[|kids| - 1].Leaf?
      && Arity(kids[|kids| - 1].tok) == |kids| - 1
      && forall i :: 0 <= i < |kids| - 1 ==> WellFormed(kids[i])
  }

  /** Every leaf renders as a non-empty token without spaces. */
  predicate CleanTokens(e: Expr)
  {
    match e
    case Leaf(t) => CleanToken(t)
    case Node(kids) => forall i :: 0 <= i < |kids| ==> CleanTokens(kids[i])
  }

  /** Direct evaluation of a well-formed tree, for any meaning of the operand
      leaves and of the operators. */
  function Eval<V>(e: Expr, leaf: string -> V, apply: (string, seq<V>) -> V): V
    requires WellFormed(e)
  {
    match e
    case Leaf(t) => leaf(t)
    case Node(kids) => apply(kids[|kids| - 1].tok, EvalAll(kids[..|kids| - 1], leaf, apply))
  }

  function EvalAll<V>(es: seq<Expr>, leaf: string -> V, apply: (string, seq<V>) -> V): (vs: seq<V>)
    requires forall i :: 0 <= i < |es| ==> WellFormed(es[i])
    ensures |vs| == |es|
  {
    if es == [] then [] else [Eval(es[0], leaf, apply)] + EvalAll(es[1..], leaf, apply)
  }

  lemma {:induction false} EvalAllAt<V>(es: seq<Expr>, leaf: string -> V, apply: (string, seq<V>) -> V)
    requires forall i :: 0 <= i < |es| ==> WellFormed(es[i])
    ensures forall i :: 0 <= i < |es| ==> EvalAll(es, leaf, apply)[i] == Eval(es[i], leaf, apply)
  {
    if es != [] {
      EvalAllAt(es[1..], leaf, apply);
    }
  }

  lemma {:induction false} EvalAllPair<V>(a: Expr, b: Expr, leaf: string -> V, apply: (string, seq<V>) -> V)
    requires WellFormed(a) && WellFormed(b)
    ensures EvalAll([a, b], leaf, apply) == [Eval(a, leaf, apply), Eval(b, leaf, apply)]
  {
    assert [a, b][1..] == [b];
    assert [b][1..] == [];
  }

  lemma {:induction false} EvalAllTriple<V>(a: Expr, b: Expr, c: Expr, leaf: string -> V, apply: (string, seq<V>) -> V)
    requires WellFormed(a) && WellFormed(b) && WellFormed(c)
    ensures EvalAll([a, b, c], leaf, apply) == [Eval(a, leaf, apply), Eval(b, leaf, apply), Eval(c, leaf, apply)]
  {
    assert [a, b, c][1..] == [b, c];
    EvalAllPair(b, c, leaf, apply);
  }

  /** The reference postfix machine: an operand pushes its value, an operator
      of arity n pops n values and pushes its result; None when the stack runs
      short. */
  function Run<V>(toks: seq<string>, st: seq<V>, leaf: string -> V, apply: (string, seq<V>) -> V): Option<seq<V>>
  {
    if toks == [] then Some(st)
    else
      var a := Arity(toks[0]);
      if a == 0 then Run(toks[1..], st + [leaf(toks[0])], leaf, apply)
      else if |st| < a then None
      else Run(toks[1..], st[..|st| - a] + [apply(toks[0], st[|st| - a..])], leaf, apply)
  }

  lemma {:induction false} RunFrontier<V>(e: Expr, rest: seq<string>, st: seq<V>, leaf: string -> V, apply: (string, seq<V>) -> V)
    requires WellFormed(e)
    ensures Run(Frontier(e) + rest, st, leaf, apply) == Run(rest, st + [Eval(e, leaf, apply)], leaf, apply)
    decreases e, 1
  {
    match e
    case Leaf(t) =>
      assert ([t] + rest)[1..] == rest;
    case Node(kids) =>
      var n := |kids|;
      var args := kids[..n - 1];
      var op := kids[n - 1].tok;
      assert kids == args + [kids[n - 1]];
      FrontierAllAppend(args, [kids[n - 1]]);
      FrontierAllSingle(kids[n - 1]);
      assert Frontier(e) + rest == FrontierAll(args) + ([op] + rest);
      RunFrontierAll(args, [op] + rest, st, leaf, apply);
      var vs := EvalAll(args, leaf, apply);
      var st' := st + vs;
      assert st'[..|st'| - (n - 1)] == st;
      assert st'[|st'| - (n - 1)..] == vs;
      assert ([op] + rest)[1..] == rest;
  }

  lemma {:induction false} RunFrontierAll<V>(es: seq<Expr>, rest: seq<string>, st: seq<V>, leaf: string -> V, apply: (string, seq<V>) -> V)
    requires forall i :: 0 <= i < |es| ==> WellFormed(es[i])
    ensures Run(FrontierAll(es) + rest, st, leaf, apply) == Run(rest, st + EvalAll(es, leaf, apply), leaf, apply)
    decreases es, 0
  {
    if es == [] {
      assert FrontierAll(es) + rest == rest;
      assert st + EvalAll(es, leaf, apply) == st;
    } else {
      var v := Eval(es[0], leaf, apply);
      var mid := FrontierAll(es[1..]) + rest;
      assert FrontierAll(es) + rest == Frontier(es[0]) + mid;
      RunFrontier(es[0], mid, st, leaf, apply);
      RunFrontierAll(es[1..], rest, st + [v], leaf, apply);
      assert EvalAll(es, leaf, apply) == [v] + EvalAll(es[1..], leaf, apply);
      assert st + [v] + EvalAll(es[1..], leaf, apply) == st + EvalAll(es, leaf, apply);
    }
  }

  /** The frontier of a well-formed tree is postfix: running it leaves exactly
      one value on the stack, the tree's own value. */
  lemma {:induction false} PostfixRoundTrip<V>(e: Expr, leaf: string -> V, apply: (string, seq<V>) -> V)
    requires WellFormed(e)
    ensures Run(Frontier(e), [], leaf, apply) == Some([Eval(e, leaf, apply)])
  {
    RunFrontier(e, [], [], leaf, apply);
    assert Frontier(e) + [] == Frontier(e);
    assert [] + [Eval(e, leaf, apply)] == [Eval(e, leaf, apply)];
  }

  lemma {:induction false} CleanFrontier(e: Expr)
    requires CleanTokens(e)
    ensures forall i :: 0 <= i < |Frontier(e)| ==> CleanToken(Frontier(e)[i])
    decreases e, 1
  {
    match e
    case Leaf(t) =>
    case Node(kids) => CleanFrontierAll(kids);
  }

  lemma {:induction false} CleanFrontierAll(es: seq<Expr>)
    requires forall i :: 0 <= i < |es| ==> CleanTokens(es[i])
    ensures forall i :: 0 <= i < |FrontierAll(es)| ==> CleanToken(FrontierAll(es)[i])
    decreases es, 0
  {
    if es != [] {
      CleanFrontier(es[0]);
      CleanFrontierAll(es[1..]);
    }
  }

  /** The whole wire contract: the space-joined frontier, split on whitespace
      by the consumer and run on the stack machine, yields the tree's value. */
  lemma {:induction false} RenderedRoundTrip<V>(e: Expr, leaf: string -> V, apply: (string, seq<V>) -> V)
    requires WellFormed(e) && CleanTokens(e)
    ensures Run(SplitWs(Join(Frontier(e), " ")), [], leaf, apply) == Some([Eval(e, leaf, apply)])
  {
    CleanFrontier(e);
    SplitJoin(Frontier(e));
    PostfixRoundTrip(e, leaf, apply);
  }

  // ---------------------------------------------------------------------------
  // Boolean reading of the connectives

  /** `&`/`&&` as and, `|`/`||` as or, `!` as not, `?` as if-then-else; the
      arithmetic and comparison operators have no boolean reading here. */
  function BoolApply(op: string, args: seq<bool>): bool
  {
    if (op == "&" || op == "&&") && |args| == 2 then args[0] && args[1]
    else if (op == "|" || op == "||") && |args| == 2 then args[0] || args[1]
    else if op == "!" && |args| == 1 then !args[0]
    else if op == "?" && |args| == 3 then (if args[0] then args[1] else args[2])
    else false
  }

  function Truth(e: Expr, env: string -> bool): bool
    requires WellFormed(e)
  {
    Eval(e, env, BoolApply)
  }
}
