// dd/src/ft.rs: the fault-tree algorithms on binary decision diagrams —
// k-out-of-n gates, the AND/OR folds, minimal solutions through `without`,
// and path extraction. The `without` here differs from the one in
// src/bdd_algo.rs: it is the Boolean difference f and not g, with `not(g)`
// when f is One.
module Ft {
  import opened Wrappers
  import opened Bdd
  import BddAlgo

  // ---------------------------------------------------------------------------
  // `_and`, `_or` and `kofn`

  /** The left fold the loops of `_and` and `_or` compute: the accumulator
      combined with each node in turn. */
  function Fold(c: Connective, acc: Node, nodes: seq<Node>): Node
    decreases |nodes|
  {
    if nodes == [] then acc else Fold(c, Apply(c, acc, nodes[0]), nodes[1..])
  }

  /** How many of the nodes hold under an assignment. */
  function CountTrue(nodes: seq<Node>, env: nat -> bool): (r: nat)
    ensures r <= |nodes|
  {
    if nodes == [] then 0 else (if Eval(nodes[0], env) then 1 else 0) + CountTrue(nodes[1..], env)
  }

  /** A conjunction fold holds exactly when the accumulator and every node
      hold. */
  lemma {:induction false} FoldConj(acc: Node, nodes: seq<Node>, env: nat -> bool)
    ensures Eval(Fold(Conj, acc, nodes), env) == (Eval(acc, env) && CountTrue(nodes, env) == |nodes|)
    decreases |nodes|
  {
    if nodes != [] {
      ApplyEval(Conj, acc, nodes[0], env);
      FoldConj(Apply(Conj, acc, nodes[0]), nodes[1..], env);
    }
  }

  /** A disjunction fold holds exactly when the accumulator or some node
      holds. */
  lemma {:induction false} FoldDisj(acc: Node, nodes: seq<Node>, env: nat -> bool)
    ensures Eval(Fold(Disj, acc, nodes), env) == (Eval(acc, env) || CountTrue(nodes, env) >= 1)
    decreases |nodes|
  {
    if nodes != [] {
      ApplyEval(Disj, acc, nodes[0], env);
      FoldDisj(Apply(Disj, acc, nodes[0]), nodes[1..], env);
    }
  }

  predicate AllOrdered(nodes: seq<Node>)
  {
    forall i :: 0 <= i < |nodes| ==> Ordered(nodes[i])
  }

  lemma {:induction false} FoldOrdered(c: Connective, acc: Node, nodes: seq<Node>)
    requires Ordered(acc) && AllOrdered(nodes)
    ensures Ordered(Fold(c, acc, nodes))
    decreases |nodes|
  {
    if nodes != [] {
      FoldOrdered(c, Apply(c, acc, nodes[0]), nodes[1..]);
    }
  }

  /** `_and`: folds the nodes into `one` by conjunction, so the result holds
      exactly when every node does (one for no nodes). */
  method And(nodes: seq<Node>) returns (res: Node)
    ensures res == Fold(Conj, One, nodes)
    ensures forall env :: Eval(res, env) <==> CountTrue(nodes, env) == |nodes|
  {
    res := One;
    for i := 0 to |nodes|
      invariant Fold(Conj, res, nodes[i..]) == Fold(Conj, One, nodes)
    {
      assert nodes[i..][1..] == nodes[i + 1..];
      res := Apply(Conj, res, nodes[i]);
    }
    assert nodes[|nodes|..] == [];
    forall env {
      FoldConj(One, nodes, env);
    }
  }

  /** `_or`: folds the nodes into `zero` by disjunction, so the result holds
      exactly when some node does (zero for no nodes). */
  method Or(nodes: seq<Node>) returns (res: Node)
    ensures res == Fold(Disj, Zero, nodes)
    ensures forall env :: Eval(res, env) <==> CountTrue(nodes, env) >= 1
  {
    res := Zero;
    for i := 0 to |nodes|
      invariant Fold(Disj, res, nodes[i..]) == Fold(Disj, Zero, nodes)
    {
      assert nodes[i..][1..] == nodes[i + 1..];
      res := Apply(Disj, res, nodes[i]);
    }
    assert nodes[|nodes|..] == [];
    forall env {
      FoldDisj(Zero, nodes, env);
    }
  }

  /** `kofn(k, nodes)`: k = 1 is tested first and gives the OR fold, k equal
      to the length gives the AND fold, and otherwise the first node chooses
      between kofn(k-1, rest) and kofn(k, rest), the first of them built
      first. The `usize` arithmetic panics on k - 1 when k is 0, and the
      slice `nodes[1..]` panics on an empty list. */
  function KofN(k: nat, nodes: seq<Node>): Result<Node>
    decreases |nodes|
  {
    if k == 1 then Ok(Fold(Disj, Zero, nodes))
    else if |nodes| == k then Ok(Fold(Conj, One, nodes))
    else if k == 0 then Err(Panic("attempt to subtract with overflow"))
    else if nodes == [] then Err(Panic("range start index 1 out of range for slice of length 0"))
    else
      match KofN(k - 1, nodes[1..])
      case Err(e) => Err(e)
      case Ok(tmp1) =>
        match KofN(k, nodes[1..])
        case Err(e) => Err(e)
        case Ok(tmp2) => Ok(Ite(nodes[0], tmp1, tmp2))
  }

  /** For 1 <= k <= n the gate builds, and it holds exactly when at least k of
      its inputs hold. */
  lemma {:induction false} KofNAtLeast(k: nat, nodes: seq<Node>, env: nat -> bool)
    requires 1 <= k <= |nodes|
    ensures KofN(k, nodes).Ok?
    ensures Eval(KofN(k, nodes).value, env) <==> CountTrue(nodes, env) >= k
    decreases |nodes|
  {
    if k == 1 {
      KofNOne(nodes, env);
    } else if |nodes| == k {
      KofNAll(nodes, env);
    } else {
      KofNAtLeast(k - 1, nodes[1..], env);
      KofNAtLeast(k, nodes[1..], env);
      KofNStep(k, nodes, env);
    }
  }

  /** The k = 1 arm of `kofn`: the OR fold from `zero`. */
  lemma {:induction false} KofNOne(nodes: seq<Node>, env: nat -> bool)
    ensures KofN(1, nodes) == Ok(Fold(Disj, Zero, nodes))
    ensures Eval(KofN(1, nodes).value, env) <==> CountTrue(nodes, env) >= 1
  {
    FoldDisj(Zero, nodes, env);
  }

  /** The k = n arm of `kofn` for n other than 1: the AND fold from `one`. */
  lemma {:induction false} KofNAll(nodes: seq<Node>, env: nat -> bool)
    requires |nodes| != 1
    ensures KofN(|nodes|, nodes) == Ok(Fold(Conj, One, nodes))
    ensures Eval(KofN(|nodes|, nodes).value, env) <==> CountTrue(nodes, env) >= |nodes|
  {
    FoldConj(One, nodes, env);
  }

  /** The recursive arm of `kofn`: given the claim for k - 1 and for k of
      the nodes after the first, it holds for k of all of them. */
  lemma {:induction false} KofNStep(k: nat, nodes: seq<Node>, env: nat -> bool)
    requires 1 < k < |nodes|
    requires KofN(k - 1, nodes[1..]).Ok?
    requires Eval(KofN(k - 1, nodes[1..]).value, env) <==> CountTrue(nodes[1..], env) >= k - 1
    requires KofN(k, nodes[1..]).Ok?
    requires Eval(KofN(k, nodes[1..]).value, env) <==> CountTrue(nodes[1..], env) >= k
    ensures KofN(k, nodes).Ok?
    ensures Eval(KofN(k, nodes).value, env) <==> CountTrue(nodes, env) >= k
  {
    var rest := nodes[1..];
    var t := KofN(k - 1, rest).value;
    var f := KofN(k, rest).value;
    assert KofN(k, nodes) == Ok(Ite(nodes[0], t, f));
    IteEval(nodes[0], t, f, env);
    assert CountTrue(nodes, env) == (if Eval(nodes[0], env) then 1 else 0) + CountTrue(rest, env);
  }

  /** Exactly when the gate builds: k = 1, k = n, or 0 < k < n; a zero k
      with inputs, or a k above n other than 1, panics. */
  lemma {:induction false} KofNBuilds(k: nat, nodes: seq<Node>)
    ensures KofN(k, nodes).Ok? <==> (k == 1 || k == |nodes| || 0 < k < |nodes|)
    decreases |nodes|
  {
    if k != 1 && |nodes| != k && k != 0 && nodes != [] {
      KofNBuilds(k - 1, nodes[1..]);
      KofNBuilds(k, nodes[1..]);
    }
  }

  lemma {:induction false} KofNSplit(k: nat, nodes: seq<Node>)
    requires k != 1 && |nodes| != k && k != 0 && nodes != [] && KofN(k, nodes).Ok?
    ensures KofN(k - 1, nodes[1..]).Ok? && KofN(k, nodes[1..]).Ok?
    ensures KofN(k, nodes).value == Ite(nodes[0], KofN(k - 1, nodes[1..]).value, KofN(k, nodes[1..]).value)
  {
  }

  lemma {:induction false} AllOrderedTail(nodes: seq<Node>)
    requires nodes != [] && AllOrdered(nodes)
    ensures Ordered(nodes[0]) && AllOrdered(nodes[1..])
  {
    var rest := nodes[1..];
    forall i | 0 <= i < |rest| ensures Ordered(rest[i]) {
      assert rest[i] == nodes[i + 1];
    }
  }

  /** Built from ordered diagrams, the gate is ordered. */
  lemma {:induction false} KofNOrdered(k: nat, nodes: seq<Node>)
    requires AllOrdered(nodes) && KofN(k, nodes).Ok?
    ensures Ordered(KofN(k, nodes).value)
    decreases |nodes|
  {
    if k == 1 {
      FoldOrdered(Disj, Zero, nodes);
    } else if |nodes| == k {
      FoldOrdered(Conj, One, nodes);
    } else {
      KofNSplit(k, nodes);
      AllOrderedTail(nodes);
      KofNOrdered(k - 1, nodes[1..]);
      KofNOrdered(k, nodes[1..]);
    }
  }

  // ---------------------------------------------------------------------------
  // `without`

  /** `without(f, g)` exactly as written: f = Zero, g = One, g = Zero and
      f = One are tested in that order; for two non-terminals, f above g
      splits f, f below g splits g but rebuilds under f's header, and equal
      levels pair the children. */
  function WithoutAsWritten(f: Node, g: Node): Node
    decreases f, g
  {
    if f == Zero then Zero
    else if g == One then Zero
    else if g == Zero then f
    else if f == One then Not(g)
    else if f.level > g.level then NT(f.level, f.name, WithoutAsWritten(f.lo, g), WithoutAsWritten(f.hi, g))
    else if f.level < g.level then NT(f.level, f.name, WithoutAsWritten(f, g.lo), WithoutAsWritten(f, g.hi))
    else NT(f.level, f.name, WithoutAsWritten(f.lo, g.lo), WithoutAsWritten(f.hi, g.hi))
  }

  /** Two ordered single-variable diagrams, f = a at level 1 below g = b at
      level 2: the result as written has a child at its own level, and under
      a = 1, b = 0 it is false although f holds and g does not. */
  lemma {:induction false} WithoutAsWrittenBreaksOrder()
    ensures var f, g := NT(1, "a", Zero, One), NT(2, "b", Zero, One);
            var env := (l: nat) => l == 1;
            Ordered(f) && Ordered(g) && !Ordered(WithoutAsWritten(f, g)) &&
            Eval(f, env) && !Eval(g, env) && !Eval(WithoutAsWritten(f, g), env)
  {
    var f, g := NT(1, "a", Zero, One), NT(2, "b", Zero, One);
    var env := (l: nat) => l == 1;
    assert WithoutAsWritten(f, g) == NT(1, "a", f, Zero);
  }

  /** `without(f, g)` with the f-below-g arm rebuilding under g's header, as
      the other arms' Boolean difference requires. */
  function Without(f: Node, g: Node): (r: Node)
    ensures Ordered(f) && Ordered(g) ==> Ordered(r) && Rank(r) <= Max(Rank(f), Rank(g))
    decreases f, g
  {
    if f == Zero then Zero
    else if g == One then Zero
    else if g == Zero then f
    else if f == One then Not(g)
    else if f.level > g.level then NT(f.level, f.name, Without(f.lo, g), Without(f.hi, g))
    else if f.level < g.level then NT(g.level, g.name, Without(f, g.lo), Without(f, g.hi))
    else NT(f.level, f.name, Without(f.lo, g.lo), Without(f.hi, g.hi))
  }

  /** The result holds exactly when f holds and g does not. */
  lemma {:induction false} WithoutEval(f: Node, g: Node, env: nat -> bool)
    ensures Eval(Without(f, g), env) == (Eval(f, env) && !Eval(g, env))
    decreases f, g
  {
    if f == Zero || g == One || g == Zero {
    } else if f == One {
      NotEval(g, env);
    } else if f.level > g.level {
      WithoutEval(f.lo, g, env);
      WithoutEval(f.hi, g, env);
    } else if f.level < g.level {
      WithoutEval(f, g.lo, env);
      WithoutEval(f, g.hi, env);
    } else {
      WithoutEval(f.lo, g.lo, env);
      WithoutEval(f.hi, g.hi, env);
    }
  }

  predicate WithoutCache(cache: map<(Node, Node), Node>)
  {
    forall k :: k in cache ==> cache[k] == Without(k.0, k.1)
  }

  /** `without` with its cache keyed by the pair of nodes. */
  method WithoutMemo(f: Node, g: Node, cache: map<(Node, Node), Node>) returns (r: Node, cache': map<(Node, Node), Node>)
    requires WithoutCache(cache)
    ensures r == Without(f, g)
    ensures WithoutCache(cache') && (f, g) in cache' && cache.Keys <= cache'.Keys
    decreases f, g
  {
    if (f, g) in cache {
      return cache[(f, g)], cache;
    }
    cache' := cache;
    var result: Node;
    if f == Zero {
      result := Zero;
    } else if g == One {
      result := Zero;
    } else if g == Zero {
      result := f;
    } else if f == One {
      result := Not(g);
    } else if f.level > g.level {
      var low, high;
      low, cache' := WithoutMemo(f.lo, g, cache');
      high, cache' := WithoutMemo(f.hi, g, cache');
      result := NT(f.level, f.name, low, high);
    } else if f.level < g.level {
      var low, high;
      low, cache' := WithoutMemo(f, g.lo, cache');
      high, cache' := WithoutMemo(f, g.hi, cache');
      result := NT(g.level, g.name, low, high);
    } else {
      var low, high;
      low, cache' := WithoutMemo(f.lo, g.lo, cache');
      high, cache' := WithoutMemo(f.hi, g.hi, cache');
      result := NT(f.level, f.name, low, high);
    }
    cache' := cache'[(f, g) := result];
    r := result;
  }

  // ---------------------------------------------------------------------------
  // Minimal solutions

  /** `_minsol`: terminals stay; a node keeps its header over the minimal
      solutions of its low child and those of its high child without its
      low child. */
  function MinSol(n: Node): (r: Node)
    ensures Rank(r) <= Rank(n)
    ensures Ordered(n) ==> Ordered(r)
  {
    match n
    case Zero => Zero
    case One => One
    case NT(l, x, lo, hi) => NT(l, x, MinSol(lo), Without(MinSol(hi), lo))
  }

  /** The levels an assignment reads on its way down a diagram. */
  function Tested(n: Node, env: nat -> bool): set<nat>
  {
    match n
    case NT(l, _, lo, hi) => {l} + (if env(l) then Tested(hi, env) else Tested(lo, env))
    case _ => {}
  }

  /** The assignment with level `l` set to false. */
  function Lower(env: nat -> bool, l: nat): nat -> bool
  {
    (k: nat) => if k == l then false else env(k)
  }

  /** An ordered diagram does not read levels above its root. */
  lemma {:induction false} EvalAbove(n: Node, env: nat -> bool, l: nat)
    requires Ordered(n) && Rank(n) < l
    ensures Eval(n, Lower(env, l)) == Eval(n, env)
  {
    match n
    case Zero =>
    case One =>
    case NT(_, _, lo, hi) =>
      EvalAbove(lo, env, l);
      EvalAbove(hi, env, l);
  }

  /** The minimal solutions are solutions. */
  lemma {:induction false} MinSolImplies(n: Node, env: nat -> bool)
    requires Eval(MinSol(n), env)
    ensures Eval(n, env)
  {
    match n
    case Zero =>
    case One =>
    case NT(l, _, lo, hi) =>
      if env(l) {
        WithoutEval(MinSol(hi), lo, env);
        MinSolImplies(hi, env);
      } else {
        MinSolImplies(lo, env);
      }
  }

  /** And they are minimal: on an ordered diagram, turning off any level the
      assignment reads as true falsifies the diagram. */
  lemma {:induction false} MinSolMinimal(n: Node, env: nat -> bool, l: nat)
    requires Ordered(n) && Eval(MinSol(n), env)
    requires l in Tested(n, env) && env(l)
    ensures !Eval(n, Lower(env, l))
  {
    match n
    case NT(top, _, lo, hi) =>
      if env(top) {
        WithoutEval(MinSol(hi), lo, env);
        if l == top {
          EvalAbove(lo, env, l);
        } else {
          MinSolMinimal(hi, env, l);
        }
      } else {
        MinSolMinimal(lo, env, l);
      }
  }

  /** Minimality does not extend to the paths of the result: for c ∨ (a ∧ b),
      with c at level 3, b at 2 and a at 1, the path that sets c and b
      reaches One, yet c alone satisfies the diagram. `not(g)` in the f = One
      arm keeps every path of not(a ∧ b). */
  lemma {:induction false} MinSolKeepsSuperset()
    ensures var n := NT(3, "c", NT(2, "b", Zero, NT(1, "a", Zero, One)), One);
            Ordered(n) && IsPath(MinSol(n), {2, 3}) && Sat(n, {2, 3}) && Sat(n, {3})
  {
    var ab := NT(2, "b", Zero, NT(1, "a", Zero, One));
    var n := NT(3, "c", ab, One);
    var notAb := NT(2, "b", One, NT(1, "a", One, Zero));
    assert Without(One, ab) == notAb;
    assert MinSol(n) == NT(3, "c", MinSol(ab), notAb);
    assert {2, 3} - {3} == {2};
    assert {2} - {2} == {};
    assert IsPath(NT(1, "a", One, Zero), {});
    assert IsPath(notAb, {2});
  }

  predicate MinSolCache(cache: map<Node, Node>)
  {
    forall k :: k in cache ==> cache[k] == MinSol(k)
  }

  /** `_minsol` with its two caches, in the source's call order: the high
      child, then `without`, then the low child. */
  method MinSolMemo(n: Node, cache1: map<Node, Node>, cache2: map<(Node, Node), Node>)
    returns (r: Node, cache1': map<Node, Node>, cache2': map<(Node, Node), Node>)
    requires MinSolCache(cache1) && WithoutCache(cache2)
    ensures r == MinSol(n)
    ensures MinSolCache(cache1') && n in cache1' && cache1.Keys <= cache1'.Keys
    ensures WithoutCache(cache2') && cache2.Keys <= cache2'.Keys
    decreases n
  {
    if n in cache1 {
      return cache1[n], cache1, cache2;
    }
    cache1', cache2' := cache1, cache2;
    var result: Node;
    match n {
      case Zero =>
        result := Zero;
      case One =>
        result := One;
      case NT(l, x, lo, hi) =>
        var x1, high, low;
        x1, cache1', cache2' := MinSolMemo(hi, cache1', cache2');
        high, cache2' := WithoutMemo(x1, lo, cache2');
        low, cache1', cache2' := MinSolMemo(lo, cache1', cache2');
        result := NT(l, x, low, high);
    }
    cache1' := cache1'[n := result];
    r := result;
  }

  /** `minsol(node)`: fresh caches; the result is ordered when the input
      is, every assignment it accepts satisfies the input, and on an ordered
      input it is minimal over the levels the input reads under it: turning
      off any of those that it sets falsifies the input. */
  method MinimalSolutions(n: Node) returns (r: Node)
    ensures r == MinSol(n)
    ensures Ordered(n) ==> Ordered(r)
    ensures forall env :: Eval(r, env) ==> Eval(n, env)
    ensures Ordered(n) ==>
              forall env: nat -> bool, l: nat :: Eval(r, env) && l in Tested(n, env) && env(l) ==> !Eval(n, Lower(env, l))
  {
    var c1, c2;
    r, c1, c2 := MinSolMemo(n, map[], map[]);
    forall env | Eval(r, env) {
      MinSolImplies(n, env);
    }
    if Ordered(n) {
      forall env: nat -> bool, l: nat | Eval(r, env) && l in Tested(n, env) && env(l)
        ensures !Eval(n, Lower(env, l))
      {
        MinSolMinimal(n, env, l);
      }
    }
  }

  // ---------------------------------------------------------------------------
  // `extract`

  /** `extract(node)`: one list per path to One, holding the labels where
      the high edge is taken, high branch first; there are `count_set` of
      them and they hold only labels of the diagram. */
  method Extract(n: Node) returns (pathset: seq<seq<string>>)
    ensures pathset == BddAlgo.Paths(n, [])
    ensures |pathset| == BddAlgo.CountSet(n)
    ensures forall i, j :: 0 <= i < |pathset| && 0 <= j < |pathset[i]| ==> pathset[i][j] in Labels(n)
  {
    var collector := new BddAlgo.PathCollector();
    collector.Extract(n);
    pathset := collector.pathset;
    BddAlgo.PathsCount(n, []);
    forall i | 0 <= i < |pathset| {
      BddAlgo.PathsExtendPrefix(n, [], i);
    }
  }
}
