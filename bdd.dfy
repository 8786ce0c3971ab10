// Binary decision diagrams as the algorithms of src/bdd_algo.rs, src/algo.rs
// and dd/src/ft.rs see them. The engine hash-conses its nodes, so the identity
// `id()` of a node is modelled by equality of these values, and the engine's
// node constructor is the `NT` constructor (no reduction is applied). The
// engine's `and`, `or`, `not` and `ite` are given their Boolean-function
// meaning by the ordered `Apply` below.
module Bdd {

  /** A node: a terminal, or a non-terminal with its header (level and
      variable label) and its low (0) and high (1) children. */
  datatype Node = Zero | One | NT(level: nat, name: string, lo: Node, hi: Node)

  /** The level of a node's header, -1 for a terminal: the root of a diagram
      sits at the highest level. */
  function Rank(n: Node): int
  {
    if n.NT? then n.level else -1
  }

  function Max(a: int, b: int): int
  {
    if a >= b then a else b
  }

  /** Every child sits at a strictly lower level than its parent. */
  predicate Ordered(n: Node)
  {
    match n
    case NT(l, _, lo, hi) => Rank(lo) < l && Rank(hi) < l && Ordered(lo) && Ordered(hi)
    case _ => true
  }

  function Size(n: Node): nat
  {
    match n
    case NT(_, _, lo, hi) => 1 + Size(lo) + Size(hi)
    case _ => 1
  }

  /** The Boolean function of a node, under an assignment of the levels. */
  predicate Eval(n: Node, env: nat -> bool)
  {
    match n
    case Zero => false
    case One => true
    case NT(l, _, lo, hi) => if env(l) then Eval(hi, env) else Eval(lo, env)
  }

  function Constant(b: bool): (n: Node)
    ensures forall env :: Eval(n, env) == b
    ensures Rank(n) == -1
  {
    if b then One else Zero
  }

  /** `not`: the terminals swapped. */
  function Not(n: Node): (r: Node)
    ensures Rank(r) == Rank(n)
    ensures Ordered(n) ==> Ordered(r)
  {
    match n
    case Zero => One
    case One => Zero
    case NT(l, x, lo, hi) => NT(l, x, Not(lo), Not(hi))
  }

  lemma {:induction false} NotEval(n: Node, env: nat -> bool)
    ensures Eval(Not(n), env) == !Eval(n, env)
  {
    match n
    case Zero =>
    case One =>
    case NT(l, _, lo, hi) =>
      NotEval(lo, env);
      NotEval(hi, env);
  }

  datatype Connective = Conj | Disj

  predicate Combine(c: Connective, a: bool, b: bool)
  {
    match c
    case Conj => a && b
    case Disj => a || b
  }

  /** The child a node follows when level `l` takes value `high`; a node
      whose header is at another level does not read `l` first. */
  function Cofactor(n: Node, l: nat, high: bool): (r: Node)
    ensures Size(r) <= Size(n)
    ensures n.NT? && n.level == l ==> Size(r) < Size(n)
    ensures Ordered(n) && Rank(n) <= l ==> Ordered(r) && Rank(r) < l
  {
    if n.NT? && n.level == l then (if high then n.hi else n.lo) else n
  }

  lemma {:induction false} CofactorEval(n: Node, l: nat, env: nat -> bool)
    ensures Eval(Cofactor(n, l, env(l)), env) == Eval(n, env)
  {
  }

  /** The combination of two diagrams by a connective, splitting on the
      higher of the two top levels. */
  function Apply(c: Connective, f: Node, g: Node): (r: Node)
    ensures Rank(r) <= Max(Rank(f), Rank(g))
    ensures Ordered(f) && Ordered(g) ==> Ordered(r)
    decreases Size(f) + Size(g)
  {
    if !f.NT? && !g.NT? then Constant(Combine(c, f == One, g == One))
    else
      var t := if Rank(f) >= Rank(g) then f else g;
      NT(t.level, t.name,
         Apply(c, Cofactor(f, t.level, false), Cofactor(g, t.level, false)),
         Apply(c, Cofactor(f, t.level, true), Cofactor(g, t.level, true)))
  }

  lemma {:induction false} ApplyEval(c: Connective, f: Node, g: Node, env: nat -> bool)
    ensures Eval(Apply(c, f, g), env) == Combine(c, Eval(f, env), Eval(g, env))
    decreases Size(f) + Size(g)
  {
    if f.NT? || g.NT? {
      var l := if Rank(f) >= Rank(g) then f.level else g.level;
      CofactorEval(f, l, env);
      CofactorEval(g, l, env);
      ApplyEval(c, Cofactor(f, l, env(l)), Cofactor(g, l, env(l)), env);
    }
  }

  /** `ite(c, t, e)`: (c and t) or (not c and e). */
  function Ite(c: Node, t: Node, e: Node): (r: Node)
    ensures Ordered(c) && Ordered(t) && Ordered(e) ==> Ordered(r)
  {
    Apply(Disj, Apply(Conj, c, t), Apply(Conj, Not(c), e))
  }

  lemma {:induction false} IteEval(c: Node, t: Node, e: Node, env: nat -> bool)
    ensures Eval(Ite(c, t, e), env) == if Eval(c, env) then Eval(t, env) else Eval(e, env)
  {
    ApplyEval(Conj, c, t, env);
    ApplyEval(Conj, Not(c), e, env);
    NotEval(c, env);
    ApplyEval(Disj, Apply(Conj, c, t), Apply(Conj, Not(c), e), env);
  }

  /** The Boolean function of a node under the assignment that sets exactly
      the levels of `s`. */
  predicate Sat(n: Node, s: set<nat>)
  {
    match n
    case Zero => false
    case One => true
    case NT(l, _, lo, hi) => if l in s then Sat(hi, s) else Sat(lo, s)
  }

  /** It is `Eval` under that assignment. */
  lemma {:induction false} SatIsEval(n: Node, s: set<nat>, env: nat -> bool)
    requires forall l :: env(l) == (l in s)
    ensures Sat(n, s) == Eval(n, env)
  {
    match n
    case Zero =>
    case One =>
    case NT(_, _, lo, hi) =>
      SatIsEval(lo, s, env);
      SatIsEval(hi, s, env);
  }

  /** A level above an ordered diagram's root does not matter to it. */
  lemma {:induction false} SatAbove(n: Node, s: set<nat>, l: nat)
    requires Ordered(n) && Rank(n) < l
    ensures Sat(n, s - {l}) == Sat(n, s)
  {
    match n
    case Zero =>
    case One =>
    case NT(_, _, lo, hi) =>
      SatAbove(lo, s, l);
      SatAbove(hi, s, l);
  }

  /** `s` is the set of levels at which some path of `n` to One takes the
      high edge, and that path takes no other: the reading in which the
      lists of `extract` are the solutions a diagram holds. */
  predicate IsPath(n: Node, s: set<nat>)
  {
    match n
    case Zero => false
    case One => s == {}
    case NT(l, _, lo, hi) => if l in s then IsPath(hi, s - {l}) else IsPath(lo, s)
  }

  /** Setting exactly the high levels of a path satisfies the diagram. */
  lemma {:induction false} IsPathSat(n: Node, s: set<nat>)
    requires Ordered(n) && IsPath(n, s)
    ensures Sat(n, s)
  {
    match n
    case One =>
    case NT(l, _, lo, hi) =>
      if l in s {
        IsPathSat(hi, s - {l});
        SatAbove(hi, s, l);
      } else {
        IsPathSat(lo, s);
      }
  }

  /** A path of an ordered diagram takes no high edge above its root. */
  lemma {:induction false} IsPathBelow(n: Node, s: set<nat>, l: nat)
    requires Ordered(n) && IsPath(n, s) && Rank(n) < l
    ensures l !in s
  {
    match n
    case One =>
    case NT(k, _, lo, hi) =>
      if k in s {
        IsPathBelow(hi, s - {k}, l);
      } else {
        IsPathBelow(lo, s, l);
      }
  }

  /** The labels of a diagram's non-terminals. */
  function Labels(n: Node): set<string>
  {
    match n
    case NT(_, x, lo, hi) => {x} + Labels(lo) + Labels(hi)
    case _ => {}
  }
}
