// The generic BDD algorithms of src/bdd_algo.rs: the top-event probability,
// path counting and path extraction, and the minimal-solution construction
// with its `without` operation in a recursive and an explicit-stack form.
// The generic number type `T` is modelled by `real` (probabilities) and
// `nat` (path counts); the caches keyed by node id become maps keyed by
// nodes, threaded in and out of the methods.
module BddAlgo {
  import opened Wrappers
  import opened Bdd

  // ---------------------------------------------------------------------------
  // Probability

  /** The probability of a label, 0 when the map lacks it. */
  function P(pv: map<string, real>, x: string): real
  {
    if x in pv then pv[x] else 0.0
  }

  /** The probability recurrence: Zero is 0, One is 1, and a node labelled x
      weighs its low child by 1 - p(x) and its high child by p(x). */
  function Prob(n: Node, pv: map<string, real>): real
  {
    match n
    case Zero => 0.0
    case One => 1.0
    case NT(_, x, lo, hi) => Weigh(P(pv, x), Prob(lo, pv), Prob(hi, pv))
  }

  /** The recurrence's combination of the low and high values. */
  function Weigh(p: real, low: real, high: real): real
  {
    (1.0 - p) * low + p * high
  }

  predicate IsProbabilities(pv: map<string, real>)
  {
    forall x :: x in pv ==> 0.0 <= pv[x] <= 1.0
  }

  lemma {:induction false} Convex(p: real, a: real, b: real)
    requires 0.0 <= p <= 1.0 && 0.0 <= a <= 1.0 && 0.0 <= b <= 1.0
    ensures 0.0 <= Weigh(p, a, b) <= 1.0
  {
    var q := 1.0 - p;
    MulBounds(q, a);
    MulBounds(p, b);
    var qa, pb := q * a, p * b;
    assert qa <= q;
    assert pb <= p;
    assert 0.0 <= qa + pb <= q + p;
  }

  lemma {:induction false} MulBounds(x: real, y: real)
    requires 0.0 <= x && 0.0 <= y <= 1.0
    ensures 0.0 <= x * y <= x
  {
    assert x * y <= x * 1.0;
  }

  /** With probabilities in [0, 1] the result is a probability. */
  lemma {:induction false} ProbBounds(n: Node, pv: map<string, real>)
    requires IsProbabilities(pv)
    ensures 0.0 <= Prob(n, pv) <= 1.0
  {
    match n
    case Zero =>
    case One =>
    case NT(_, x, lo, hi) =>
      ProbBounds(lo, pv);
      ProbBounds(hi, pv);
      var p, a, b := P(pv, x), Prob(lo, pv), Prob(hi, pv);
      assert 0.0 <= p <= 1.0;
      Convex(p, a, b);
  }

  /** The complement has the complementary probability. */
  lemma {:induction false} ProbNot(n: Node, pv: map<string, real>)
    ensures Prob(Not(n), pv) == 1.0 - Prob(n, pv)
  {
    match n
    case Zero =>
    case One =>
    case NT(_, x, lo, hi) =>
      ProbNot(lo, pv);
      ProbNot(hi, pv);
      var p, a, b := P(pv, x), Prob(lo, pv), Prob(hi, pv);
      var na, nb := Prob(Not(lo), pv), Prob(Not(hi), pv);
      Complement(p, a, b, na, nb);
  }

  lemma {:induction false} Complement(p: real, a: real, b: real, na: real, nb: real)
    requires na == 1.0 - a && nb == 1.0 - b
    ensures Weigh(p, na, nb) == 1.0 - Weigh(p, a, b)
  {
    var q := 1.0 - p;
    assert q * na == q - q * a;
    assert p * nb == p - p * b;
  }

  /** Every cached entry equals the uncached value. */
  predicate ProbCache(cache: map<Node, real>, pv: map<string, real>)
  {
    forall k :: k in cache ==> cache[k] == Prob(k, pv)
  }

  /** `prob` with its cache: the uncached value, and a cache that keeps its
      invariant, keeps its entries and now holds the node. */
  method ProbMemo(n: Node, pv: map<string, real>, cache: map<Node, real>) returns (r: real, cache': map<Node, real>)
    requires ProbCache(cache, pv)
    ensures r == Prob(n, pv)
    ensures ProbCache(cache', pv) && n in cache' && cache.Keys <= cache'.Keys
    decreases n
  {
    if n in cache {
      return cache[n], cache;
    }
    var result: real;
    cache' := cache;
    match n {
      case Zero =>
        result := 0.0;
      case One =>
        result := 1.0;
      case NT(_, x, lo, hi) =>
        var fp := if x in pv then pv[x] else 0.0;
        var low, high;
        low, cache' := ProbMemo(lo, pv, cache');
        high, cache' := ProbMemo(hi, pv, cache');
        result := (1.0 - fp) * low + fp * high;
    }
    cache' := cache'[n := result];
    r := result;
  }

  // ---------------------------------------------------------------------------
  // Paths to One

  /** `count_set`: One is 1, Zero is 0, a node adds its children's counts. */
  function CountSet(n: Node): nat
  {
    match n
    case Zero => 0
    case One => 1
    case NT(_, _, lo, hi) => CountSet(lo) + CountSet(hi)
  }

  predicate CountCache(cache: map<Node, nat>)
  {
    forall k :: k in cache ==> cache[k] == CountSet(k)
  }

  method CountSetMemo(n: Node, cache: map<Node, nat>) returns (r: nat, cache': map<Node, nat>)
    requires CountCache(cache)
    ensures r == CountSet(n)
    ensures CountCache(cache') && n in cache' && cache.Keys <= cache'.Keys
    decreases n
  {
    if n in cache {
      return cache[n], cache;
    }
    var result: nat;
    cache' := cache;
    match n {
      case One =>
        result := 1;
      case Zero =>
        result := 0;
      case NT(_, _, lo, hi) =>
        var a, b;
        a, cache' := CountSetMemo(lo, cache');
        b, cache' := CountSetMemo(hi, cache');
        result := a + b;
    }
    cache' := cache'[n := result];
    r := result;
  }

  /** The lists `extract` appends below a node reached along `prefix`: one
      per path to One, holding the labels where the high edge is taken,
      top-down, paths through the high child first. */
  function Paths(n: Node, prefix: seq<string>): seq<seq<string>>
  {
    match n
    case Zero => []
    case One => [prefix]
    case NT(_, x, lo, hi) => Paths(hi, prefix + [x]) + Paths(lo, prefix)
  }

  /** There are exactly `count_set` of them. */
  lemma {:induction false} PathsCount(n: Node, prefix: seq<string>)
    ensures |Paths(n, prefix)| == CountSet(n)
  {
    match n
    case Zero =>
    case One =>
    case NT(_, x, lo, hi) =>
      PathsCount(hi, prefix + [x]);
      PathsCount(lo, prefix);
  }

  /** Each of them extends the prefix by labels of the diagram. */
  lemma {:induction false} PathsExtendPrefix(n: Node, prefix: seq<string>, i: nat)
    requires i < |Paths(n, prefix)|
    ensures prefix <= Paths(n, prefix)[i]
    ensures forall j :: |prefix| <= j < |Paths(n, prefix)[i]| ==> Paths(n, prefix)[i][j] in Labels(n)
  {
    match n
    case Zero =>
    case One =>
    case NT(_, x, lo, hi) =>
      var k := |Paths(hi, prefix + [x])|;
      if i < k {
        PathsExtendPrefix(hi, prefix + [x], i);
        assert Paths(n, prefix)[i] == Paths(hi, prefix + [x])[i];
      } else {
        PathsExtendPrefix(lo, prefix, i - k);
        assert Paths(n, prefix)[i] == Paths(lo, prefix)[i - k];
      }
  }

  /** The `path` and `pathset` vectors `extract` works on. */
  class PathCollector {
    var path: seq<string>
    var pathset: seq<seq<string>>

    constructor()
      ensures path == [] && pathset == []
    {
      path := [];
      pathset := [];
    }

    /** `extract(node, path, pathset)`: appends the node's paths and leaves
        `path` as it found it. */
    method Extract(n: Node)
      modifies this
      ensures path == old(path)
      ensures pathset == old(pathset) + Paths(n, old(path))
      decreases n
    {
      match n {
        case Zero =>
        case One =>
          pathset := pathset + [path];
        case NT(_, x, lo, hi) =>
          path := path + [x];
          Extract(hi);
          path := path[..|path| - 1];
          Extract(lo);
      }
    }
  }

  // ---------------------------------------------------------------------------
  // Minimal solutions

  /** `bdd_without(f, g)` exactly as written, its arms in the source's
      order: for non-terminals the root is the highest level, `f` below `g`
      follows only g's low child, and f = One against a non-terminal g
      rebuilds g's header over both of g's children. */
  function WithoutAsWritten(f: Node, g: Node): (r: Node)
    ensures Ordered(f) && Ordered(g) ==> Ordered(r) && Rank(r) <= Max(Rank(f), Rank(g))
    decreases f, g
  {
    if f == Zero then Zero
    else if g == Zero then f
    else if g == One then Zero
    else if f == One then NT(g.level, g.name, WithoutAsWritten(f, g.lo), WithoutAsWritten(f, g.hi))
    else if f == g then Zero
    else if f.level > g.level then NT(f.level, f.name, WithoutAsWritten(f.lo, g), WithoutAsWritten(f.hi, g))
    else if f.level < g.level then WithoutAsWritten(f, g.lo)
    else NT(f.level, f.name, WithoutAsWritten(f.lo, g.lo), WithoutAsWritten(f.hi, g.hi))
  }

  /** `minsol` over the `without` as written. */
  function MinSolAsWritten(n: Node): (r: Node)
    ensures Rank(r) <= Rank(n)
    ensures Ordered(n) ==> Ordered(r)
  {
    match n
    case Zero => Zero
    case One => One
    case NT(l, x, lo, hi) => NT(l, x, MinSolAsWritten(lo), WithoutAsWritten(MinSolAsWritten(hi), lo))
  }

  /** For c ∨ (a ∧ b), with c at level 3, b at 2 and a at 1, `minsol` as
      written keeps the solution {c, b} although {c} alone satisfies the
      diagram: the One arm adds the paths of not(a ∧ b) that take b's high
      edge. */
  lemma {:induction false} MinSolAsWrittenKeepsSuperset()
    ensures var n := NT(3, "c", NT(2, "b", Zero, NT(1, "a", Zero, One)), One);
            Ordered(n) && IsPath(MinSolAsWritten(n), {2, 3}) && Sat(n, {2, 3}) && Sat(n, {3})
  {
    var ab := NT(2, "b", Zero, NT(1, "a", Zero, One));
    var n := NT(3, "c", ab, One);
    var notAb := NT(2, "b", One, NT(1, "a", One, Zero));
    assert WithoutAsWritten(One, ab) == notAb;
    assert MinSolAsWritten(n) == NT(3, "c", MinSolAsWritten(ab), notAb);
    assert {2, 3} - {3} == {2};
    assert {2} - {2} == {};
    assert IsPath(NT(1, "a", One, Zero), {});
    assert IsPath(notAb, {2});
  }

  /** `bdd_without(f, g)` with f = One against a non-terminal g following
      g's low child, as the arm for `f` below `g` does: One holds only the
      empty solution, which contains a solution of g only when g's all-low
      path reaches One. The other arms are as written. */
  function Without(f: Node, g: Node): (r: Node)
    ensures Ordered(f) && Ordered(g) ==> Ordered(r) && Rank(r) <= Max(Rank(f), Rank(g))
    decreases f, g
  {
    if f == Zero then Zero
    else if g == Zero then f
    else if g == One then Zero
    else if f == One then Without(f, g.lo)
    else if f == g then Zero
    else if f.level > g.level then NT(f.level, f.name, Without(f.lo, g), Without(f.hi, g))
    else if f.level < g.level then Without(f, g.lo)
    else NT(f.level, f.name, Without(f.lo, g.lo), Without(f.hi, g.hi))
  }

  /** The solutions of `without(f, g)` are those of f that do not satisfy
      g: on ordered diagrams, a path of the result is a path of f whose set
      of high levels does not satisfy g, and every such path of f is one of
      the result. */
  lemma {:induction false} WithoutPaths(f: Node, g: Node, s: set<nat>)
    requires Ordered(f) && Ordered(g)
    ensures IsPath(Without(f, g), s) <==> IsPath(f, s) && !Sat(g, s)
    decreases f, g
  {
    if f == Zero || g == Zero || g == One {
    } else if f == One {
      WithoutPaths(f, g.lo, s);
    } else if f == g {
      if IsPath(f, s) {
        IsPathSat(f, s);
      }
    } else if f.level > g.level {
      if f.level in s {
        WithoutPaths(f.hi, g, s - {f.level});
        SatAbove(g, s, f.level);
      } else {
        WithoutPaths(f.lo, g, s);
      }
    } else if f.level < g.level {
      WithoutPaths(f, g.lo, s);
      if IsPath(f, s) {
        IsPathBelow(f, s, g.level);
      }
    } else {
      if f.level in s {
        WithoutPaths(f.hi, g.hi, s - {f.level});
        SatAbove(g.hi, s, f.level);
      } else {
        WithoutPaths(f.lo, g.lo, s);
      }
    }
  }

  /** Removal only removes: whatever satisfies the result satisfies `f`. */
  lemma {:induction false} WithoutImplies(f: Node, g: Node, env: nat -> bool)
    requires Eval(Without(f, g), env)
    ensures Eval(f, env)
    decreases f, g
  {
    if f == Zero || g == Zero || g == One || f == One || f == g {
    } else if f.level > g.level {
      if env(f.level) { WithoutImplies(f.hi, g, env); } else { WithoutImplies(f.lo, g, env); }
    } else if f.level < g.level {
      WithoutImplies(f, g.lo, env);
    } else {
      if env(f.level) { WithoutImplies(f.hi, g.hi, env); } else { WithoutImplies(f.lo, g.lo, env); }
    }
  }

  predicate WithoutCache(cache: map<(Node, Node), Node>)
  {
    forall k :: k in cache ==> cache[k] == WithoutAsWritten(k.0, k.1)
  }

  /** `bdd_without` as written, with its cache keyed by the pair of nodes:
      the cache is transparent, every entry being the value of the pair. */
  method WithoutMemo(f: Node, g: Node, cache: map<(Node, Node), Node>) returns (r: Node, cache': map<(Node, Node), Node>)
    requires WithoutCache(cache)
    ensures r == WithoutAsWritten(f, g)
    ensures WithoutCache(cache') && (f, g) in cache' && cache.Keys <= cache'.Keys
    decreases f, g
  {
    if (f, g) in cache {
      return cache[(f, g)], cache;
    }
    cache' := cache;
    var node: Node;
    if f == Zero {
      node := Zero;
    } else if g == Zero {
      node := f;
    } else if g == One {
      node := Zero;
    } else if f == One {
      var low, high;
      low, cache' := WithoutMemo(f, g.lo, cache');
      high, cache' := WithoutMemo(f, g.hi, cache');
      node := NT(g.level, g.name, low, high);
    } else if f == g {
      node := Zero;
    } else if f.level > g.level {
      var low, high;
      low, cache' := WithoutMemo(f.lo, g, cache');
      high, cache' := WithoutMemo(f.hi, g, cache');
      node := NT(f.level, f.name, low, high);
    } else if f.level < g.level {
      node, cache' := WithoutMemo(f, g.lo, cache');
    } else {
      var low, high;
      low, cache' := WithoutMemo(f.lo, g.lo, cache');
      high, cache' := WithoutMemo(f.hi, g.hi, cache');
      node := NT(f.level, f.name, low, high);
    }
    cache' := cache'[(f, g) := node];
    r := node;
  }

  /** `minsol`: terminals stay; a node keeps its header over the minimal
      solutions of its low child and those of its high child without its
      low child. */
  function MinSol(n: Node): (r: Node)
    ensures Rank(r) <= Rank(n)
    ensures Ordered(n) ==> Ordered(r)
  {
    match n
    case Zero => Zero
    case One => One
    case NT(l, x, lo, hi) => NT(l, x, MinSol(lo), Without(MinSol(hi), lo))
  }

  /** `s` satisfies `n`, and dropping any one of its levels falsifies it. */
  predicate MinimalSat(n: Node, s: set<nat>)
  {
    Sat(n, s) && forall x :: x in s ==> !Sat(n, s - {x})
  }

  /** On an ordered diagram the paths of `minsol` are exactly the minimal
      solutions: setting the high levels of a path satisfies the diagram,
      dropping any one of them falsifies it, and every such set is a path. */
  lemma {:induction false} MinSolPaths(n: Node, s: set<nat>)
    requires Ordered(n)
    ensures IsPath(MinSol(n), s) <==> MinimalSat(n, s)
  {
    match n
    case Zero =>
    case One =>
      if s != {} {
        var x := Member(s);
        assert Sat(One, s - {x});
      }
    case NT(l, _, lo, hi) =>
      if l in s {
        MinSolPaths(hi, s - {l});
        MinSolHigh(n, s);
      } else {
        MinSolPaths(lo, s);
        MinSolLow(n, s);
      }
  }

  /** A set without the root's level: the paths through the low child. */
  lemma {:induction false} MinSolLow(n: Node, s: set<nat>)
    requires n.NT? && Ordered(n) && n.level !in s
    requires IsPath(MinSol(n.lo), s) <==> MinimalSat(n.lo, s)
    ensures IsPath(MinSol(n), s) <==> MinimalSat(n, s)
  {
    forall x | x in s
      ensures Sat(n, s - {x}) == Sat(n.lo, s - {x})
    {
    }
  }

  /** A set with the root's level: the paths through the high child, with
      `without` removing those that satisfy the low child. */
  lemma {:induction false} MinSolHigh(n: Node, s: set<nat>)
    requires n.NT? && Ordered(n) && n.level in s
    requires IsPath(MinSol(n.hi), s - {n.level}) <==> MinimalSat(n.hi, s - {n.level})
    ensures IsPath(MinSol(n), s) <==> MinimalSat(n, s)
  {
    var l, s' := n.level, s - {n.level};
    WithoutPaths(MinSol(n.hi), n.lo, s');
    SatAbove(n.hi, s, l);
    assert Sat(n, s - {l}) == Sat(n.lo, s');
    forall x | x in s'
      ensures Sat(n, s - {x}) == Sat(n.hi, s' - {x})
    {
      SatAbove(n.hi, s - {x}, l);
      assert s - {x} - {l} == s' - {x};
    }
    if MinimalSat(n.hi, s') && !Sat(n.lo, s') {
      forall x | x in s
        ensures !Sat(n, s - {x})
      {
      }
    }
    if MinimalSat(n, s) {
      forall x | x in s'
        ensures !Sat(n.hi, s' - {x})
      {
        assert !Sat(n, s - {x});
      }
    }
  }

  /** The minimal solutions are solutions. */
  lemma {:induction false} MinSolImplies(n: Node, env: nat -> bool)
    requires Eval(MinSol(n), env)
    ensures Eval(n, env)
  {
    match n
    case Zero =>
    case One =>
    case NT(l, _, lo, hi) =>
      if env(l) {
        WithoutImplies(MinSol(hi), lo, env);
        MinSolImplies(hi, env);
      } else {
        MinSolImplies(lo, env);
      }
  }

  predicate MinSolCache(cache: map<Node, Node>)
  {
    forall k :: k in cache ==> cache[k] == MinSolAsWritten(k)
  }

  /** `minsol` as written with its two caches, in the source's call order:
      the high child, then `without`, then the low child. */
  method MinSolMemo(n: Node, cache1: map<Node, Node>, cache2: map<(Node, Node), Node>)
    returns (r: Node, cache1': map<Node, Node>, cache2': map<(Node, Node), Node>)
    requires MinSolCache(cache1) && WithoutCache(cache2)
    ensures r == MinSolAsWritten(n)
    ensures MinSolCache(cache1') && n in cache1' && cache1.Keys <= cache1'.Keys
    ensures WithoutCache(cache2') && cache2.Keys <= cache2'.Keys
    decreases n
  {
    if n in cache1 {
      return cache1[n], cache1, cache2;
    }
    cache1', cache2' := cache1, cache2;
    var result: Node;
    match n {
      case Zero =>
        result := Zero;
      case One =>
        result := One;
      case NT(l, x, lo, hi) =>
        var tmp, high, low;
        tmp, cache1', cache2' := MinSolMemo(hi, cache1', cache2');
        high, cache2' := WithoutMemo(tmp, lo, cache2');
        low, cache1', cache2' := MinSolMemo(lo, cache1', cache2');
        result := NT(l, x, low, high);
    }
    cache1' := cache1'[n := result];
    r := result;
  }

  // ---------------------------------------------------------------------------
  // `without` on explicit stacks

  /** An entry of the work stack: a pair still to process, or the header
      under which the two results on top of the result stack are joined. */
  datatype Item = Pair(f: Node, g: Node) | Header(key: (Node, Node), level: nat, name: string)

  /** What the rest of the loop does with a work stack (top last) and a
      result stack, given that every pair leaves its `Without` value: the
      final result stack, or None when a header finds fewer than two results
      or would join them into something other than its key's value. */
  function Exec(stack: seq<Item>, results: seq<Node>): Option<seq<Node>>
    decreases |stack|
  {
    if stack == [] then Some(results)
    else
      var rest := stack[..|stack| - 1];
      match stack[|stack| - 1]
      case Pair(f, g) => Exec(rest, results + [WithoutAsWritten(f, g)])
      case Header(key, l, x) =>
        if |results| < 2 then None
        else
          var node := NT(l, x, results[|results| - 2], results[|results| - 1]);
          if node == WithoutAsWritten(key.0, key.1) then Exec(rest, results[..|results| - 2] + [node]) else None
  }

  /** The number of loop iterations a pair costs. */
  function Calls(f: Node, g: Node): nat
    decreases f, g
  {
    if f == Zero || g == Zero || g == One then 1
    else if f == One then 2 + Calls(f, g.lo) + Calls(f, g.hi)
    else if f == g then 1
    else if f.level > g.level then 2 + Calls(f.lo, g) + Calls(f.hi, g)
    else if f.level < g.level then 1 + Calls(f, g.lo)
    else 2 + Calls(f.lo, g.lo) + Calls(f.hi, g.hi)
  }

  function Cost(it: Item): nat
  {
    match it
    case Pair(f, g) => Calls(f, g)
    case Header(_, _, _) => 1
  }

  function StackCost(stack: seq<Item>): nat
  {
    if stack == [] then 0 else StackCost(stack[..|stack| - 1]) + Cost(stack[|stack| - 1])
  }

  lemma {:induction false} StackCostPush(stack: seq<Item>, it: Item)
    ensures StackCost(stack + [it]) == StackCost(stack) + Cost(it)
  {
    assert (stack + [it])[..|stack|] == stack;
  }

  lemma {:induction false} ExecPush(stack: seq<Item>, it: Item, results: seq<Node>)
    ensures it.Pair? ==> Exec(stack + [it], results) == Exec(stack, results + [WithoutAsWritten(it.f, it.g)])
    ensures it.Header? && |results| < 2 ==> Exec(stack + [it], results) == None
    ensures it.Header? && |results| >= 2 ==>
              var node := NT(it.level, it.name, results[|results| - 2], results[|results| - 1]);
              Exec(stack + [it], results)
              == if node == WithoutAsWritten(it.key.0, it.key.1) then Exec(stack, results[..|results| - 2] + [node]) else None
  {
    assert (stack + [it])[..|stack|] == stack;
  }

  /** Pushing a header and the two pairs of its children leaves the same
      work as a pair whose value the header rebuilds. */
  lemma {:induction false} ExecSplit(stack: seq<Item>, key: (Node, Node), l: nat, x: string, a: (Node, Node), b: (Node, Node), results: seq<Node>)
    requires NT(l, x, WithoutAsWritten(a.0, a.1), WithoutAsWritten(b.0, b.1)) == WithoutAsWritten(key.0, key.1)
    ensures Exec(stack + [Header(key, l, x), Pair(b.0, b.1), Pair(a.0, a.1)], results)
         == Exec(stack, results + [WithoutAsWritten(key.0, key.1)])
  {
    var s1 := stack + [Header(key, l, x)];
    var s2 := s1 + [Pair(b.0, b.1)];
    assert stack + [Header(key, l, x), Pair(b.0, b.1), Pair(a.0, a.1)] == s2 + [Pair(a.0, a.1)];
    ExecPush(s2, Pair(a.0, a.1), results);
    var r1 := results + [WithoutAsWritten(a.0, a.1)];
    ExecPush(s1, Pair(b.0, b.1), r1);
    var r2 := r1 + [WithoutAsWritten(b.0, b.1)];
    ExecPush(stack, Header(key, l, x), r2);
    assert r2[..|r2| - 2] == results;
  }

  /** `bdd_without_stack`: the loop over a work stack and a result stack.
      It returns the value of the recursive `bdd_without` as written, the
      loop ends with exactly one result (so the final panic cannot happen),
      and every entry it writes into the cache is the recursive value. */
  method WithoutStack(f0: Node, g0: Node, cache0: map<(Node, Node), Node>) returns (r: Node, cache: map<(Node, Node), Node>)
    requires WithoutCache(cache0)
    ensures r == WithoutAsWritten(f0, g0)
    ensures WithoutCache(cache) && cache0.Keys <= cache.Keys
  {
    cache := cache0;
    var next: seq<Item> := [Pair(f0, g0)];
    var results: seq<Node> := [];
    assert Exec(next, results) == Some([WithoutAsWritten(f0, g0)]) by {
      assert next == [] + [Pair(f0, g0)];
      ExecPush([], Pair(f0, g0), []);
      assert results + [WithoutAsWritten(f0, g0)] == [WithoutAsWritten(f0, g0)];
    }
    while next != []
      invariant Exec(next, results) == Some([WithoutAsWritten(f0, g0)])
      invariant WithoutCache(cache) && cache0.Keys <= cache.Keys
      decreases StackCost(next)
    {
      var top := next[|next| - 1];
      ghost var prev := next;
      next := next[..|next| - 1];
      assert next + [top] == prev;
      StackCostPush(next, top);
      ExecPush(next, top, results);
      match top {
        case Header(key, l, x) =>
          var high := results[|results| - 1];
          var low := results[|results| - 2];
          var result := NT(l, x, low, high);
          cache := cache[key := result];
          results := results[..|results| - 2] + [result];
        case Pair(f, g) =>
          next, results, cache := WithoutPair(next, f, g, results, cache);
      }
    }
    r := results[0];
  }

  /** One work pair of `bdd_without_stack`: a cache hit or a terminal case
      pushes its result; otherwise the pair is replaced by the header and
      the child pairs (only the low pair when f lies below g; both of g's
      children under g's header when f is One). */
  method WithoutPair(next0: seq<Item>, f: Node, g: Node, results0: seq<Node>, cache0: map<(Node, Node), Node>)
    returns (next: seq<Item>, results: seq<Node>, cache: map<(Node, Node), Node>)
    requires WithoutCache(cache0)
    ensures Exec(next, results) == Exec(next0, results0 + [WithoutAsWritten(f, g)])
    ensures StackCost(next) < StackCost(next0) + Calls(f, g)
    ensures WithoutCache(cache) && cache0.Keys <= cache.Keys
  {
    next, results, cache := next0, results0, cache0;
    var key := (f, g);
    if key in cache {
      results := results + [cache[key]];
    } else if f == Zero {
      cache := cache[key := Zero];
      results := results + [Zero];
    } else if g == Zero {
      cache := cache[key := f];
      results := results + [f];
    } else if g == One {
      cache := cache[key := Zero];
      results := results + [Zero];
    } else if f == One {
      ExecSplit(next, key, g.level, g.name, (f, g.lo), (f, g.hi), results);
      next := next + [Header(key, g.level, g.name), Pair(f, g.hi), Pair(f, g.lo)];
      StackCostPush3(next0, Header(key, g.level, g.name), Pair(f, g.hi), Pair(f, g.lo));
    } else if f == g {
      cache := cache[key := Zero];
      results := results + [Zero];
    } else if f.level > g.level {
      ExecSplit(next, key, f.level, f.name, (f.lo, g), (f.hi, g), results);
      next := next + [Header(key, f.level, f.name), Pair(f.hi, g), Pair(f.lo, g)];
      StackCostPush3(next0, Header(key, f.level, f.name), Pair(f.hi, g), Pair(f.lo, g));
    } else if f.level < g.level {
      ExecPush(next, Pair(f, g.lo), results);
      StackCostPush(next, Pair(f, g.lo));
      next := next + [Pair(f, g.lo)];
    } else {
      ExecSplit(next, key, f.level, f.name, (f.lo, g.lo), (f.hi, g.hi), results);
      next := next + [Header(key, f.level, f.name), Pair(f.hi, g.hi), Pair(f.lo, g.lo)];
      StackCostPush3(next0, Header(key, f.level, f.name), Pair(f.hi, g.hi), Pair(f.lo, g.lo));
    }
  }

  lemma {:induction false} StackCostPush3(stack: seq<Item>, a: Item, b: Item, c: Item)
    ensures StackCost(stack + [a, b, c]) == StackCost(stack) + Cost(a) + Cost(b) + Cost(c)
  {
    StackCostPush(stack, a);
    StackCostPush(stack + [a], b);
    StackCostPush(stack + [a, b], c);
    assert stack + [a] + [b] == stack + [a, b];
    assert stack + [a, b] + [c] == stack + [a, b, c];
  }
}
