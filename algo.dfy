// The algorithms of src/algo.rs: the probability of reaching Zero on a BDD
// (dual to the recurrence of src/bdd_algo.rs), path extraction, and the
// probability map of a multi-valued decision diagram (`_vmddprob`), whose
// panics are modelled as `Err(Panic(..))`.
module Algo {
  import opened Wrappers
  import opened Bdd
  import BddAlgo

  // ---------------------------------------------------------------------------
  // BDDs

  /** `_prob`: Zero is 1, One is 0, and a node labelled x weighs its low
      child by p(x) and its high child by 1 - p(x), p(x) = 0 when missing. */
  function ZeroProb(n: Node, pv: map<string, real>): real
  {
    match n
    case Zero => 1.0
    case One => 0.0
    case NT(_, x, lo, hi) => Weigh(BddAlgo.P(pv, x), ZeroProb(lo, pv), ZeroProb(hi, pv))
  }

  /** The recurrence's combination of the low and high values. */
  function Weigh(p: real, low: real, high: real): real
  {
    p * low + (1.0 - p) * high
  }

  /** Every probability replaced by its complement. */
  function Complemented(pv: map<string, real>): (q: map<string, real>)
    ensures q.Keys == pv.Keys
    ensures forall x :: x in pv ==> q[x] == 1.0 - pv[x]
  {
    map x | x in pv :: 1.0 - pv[x]
  }

  lemma {:induction false} DualStep(p: real, pq: real, a: real, b: real, za: real, zb: real)
    requires pq == 1.0 - p && za == 1.0 - a && zb == 1.0 - b
    ensures Weigh(p, za, zb) == 1.0 - BddAlgo.Weigh(pq, a, b)
  {
    assert p * za == p - p * a;
    assert pq * zb == pq - pq * b;
  }

  /** When every label has a probability, this recurrence is one minus the
      recurrence of src/bdd_algo.rs on the complemented probabilities. */
  lemma {:induction false} ZeroProbDual(n: Node, pv: map<string, real>)
    requires Labels(n) <= pv.Keys
    ensures ZeroProb(n, pv) == 1.0 - BddAlgo.Prob(n, Complemented(pv))
  {
    match n
    case Zero =>
    case One =>
    case NT(_, x, lo, hi) =>
      var q := Complemented(pv);
      var p, pq := BddAlgo.P(pv, x), BddAlgo.P(q, x);
      var a, b := BddAlgo.Prob(lo, q), BddAlgo.Prob(hi, q);
      var za, zb := ZeroProb(lo, pv), ZeroProb(hi, pv);
      ProbNode(n, q);
      ZeroProbNode(n, pv);
      assert x in pv && Labels(lo) <= pv.Keys && Labels(hi) <= pv.Keys;
      ZeroProbDual(lo, pv);
      ZeroProbDual(hi, pv);
      DualStep(p, pq, a, b, za, zb);
  }

  lemma {:induction false} ProbNode(n: Node, q: map<string, real>)
    requires n.NT?
    ensures BddAlgo.Prob(n, q) == BddAlgo.Weigh(BddAlgo.P(q, n.name), BddAlgo.Prob(n.lo, q), BddAlgo.Prob(n.hi, q))
  {
  }

  lemma {:induction false} ZeroProbNode(n: Node, pv: map<string, real>)
    requires n.NT?
    ensures ZeroProb(n, pv) == Weigh(BddAlgo.P(pv, n.name), ZeroProb(n.lo, pv), ZeroProb(n.hi, pv))
  {
  }

  predicate ZeroProbCache(cache: map<Node, real>, pv: map<string, real>)
  {
    forall k :: k in cache ==> cache[k] == ZeroProb(k, pv)
  }

  /** `_prob` with its cache. */
  method ZeroProbMemo(n: Node, pv: map<string, real>, cache: map<Node, real>) returns (r: real, cache': map<Node, real>)
    requires ZeroProbCache(cache, pv)
    ensures r == ZeroProb(n, pv)
    ensures ZeroProbCache(cache', pv) && n in cache' && cache.Keys <= cache'.Keys
    decreases n
  {
    if n in cache {
      return cache[n], cache;
    }
    var result: real;
    cache' := cache;
    match n {
      case Zero =>
        result := 1.0;
      case One =>
        result := 0.0;
      case NT(_, x, lo, hi) =>
        var fp := if x in pv then pv[x] else 0.0;
        var low, high;
        low, cache' := ZeroProbMemo(lo, pv, cache');
        high, cache' := ZeroProbMemo(hi, pv, cache');
        result := fp * low + (1.0 - fp) * high;
    }
    cache' := cache'[n := result];
    r := result;
  }

  /** `prob(bdd, node, pv)`: `_prob` from an empty cache. */
  method Prob(n: Node, pv: map<string, real>) returns (r: real)
    ensures r == ZeroProb(n, pv)
  {
    var cache;
    r, cache := ZeroProbMemo(n, pv, map[]);
  }

  /** `extract(bdd, node)`: the paths of the node from an empty path. */
  method Extract(n: Node) returns (pathset: seq<seq<string>>)
    ensures pathset == BddAlgo.Paths(n, [])
    ensures |pathset| == BddAlgo.CountSet(n)
  {
    var c := new BddAlgo.PathCollector();
    c.Extract(n);
    pathset := c.pathset;
    BddAlgo.PathsCount(n, []);
  }

  // ---------------------------------------------------------------------------
  // Multi-valued diagrams

  /** A multi-valued node: a terminal value, the undetermined terminal, or a
      non-terminal with its header and one child per value of its variable. */
  datatype MNode = Terminal(value: int) | Undet | MNT(level: nat, name: string, kids: seq<MNode>)

  /** A root of the two-sorted diagram: a value diagram, or any other kind. */
  datatype Root = ValueRoot(node: MNode) | OtherRoot

  function Get(m: map<int, real>, k: int): real
  {
    if k in m then m[k] else 0.0
  }

  /** `m` plus `c` times `t`, key by key: the keys of `t` are added to `m`. */
  function AddScaled(m: map<int, real>, c: real, t: map<int, real>): (r: map<int, real>)
    ensures r.Keys == m.Keys + t.Keys
    ensures forall k :: k in r ==> r[k] == Get(m, k) + Times(c, Get(t, k))
  {
    map k | k in m.Keys + t.Keys :: Get(m, k) + Times(c, Get(t, k))
  }

  function Times(c: real, v: real): real
  {
    c * v
  }

  /** `_vmddprob`: a terminal v gives {v: 1}, Undet gives {}, and a
      non-terminal looks its label up (panicking when absent) and adds
      fp[i] times the map of child i into the result, for each child in
      order; fp[i] is read only for a child whose map has entries. */
  function VProb(n: MNode, pv: map<string, seq<real>>): Result<map<int, real>>
    decreases n, 1
  {
    match n
    case Terminal(v) => Ok(map[v := 1.0])
    case Undet => Ok(map[])
    case MNT(_, x, kids) =>
      if x !in pv then Err(Panic("called `Option::unwrap()` on a `None` value"))
      else Children(n, pv, 0, map[])
  }

  /** The loop over the children of `n` from child `i` on, with `acc` the
      map built from the earlier children. */
  function Children(n: MNode, pv: map<string, seq<real>>, i: nat, acc: map<int, real>): Result<map<int, real>>
    requires n.MNT? && n.name in pv && i <= |n.kids|
    decreases n, 0, |n.kids| - i
  {
    if i == |n.kids| then Ok(acc)
    else
      match VProb(n.kids[i], pv)
      case Err(e) => Err(e)
      case Ok(tmp) =>
        if tmp == map[] then Children(n, pv, i + 1, acc)
        else if i >= |pv[n.name]| then Err(Panic("index out of bounds"))
        else Children(n, pv, i + 1, AddScaled(acc, pv[n.name][i], tmp))
  }

  predicate VCache(cache: map<MNode, map<int, real>>, pv: map<string, seq<real>>)
  {
    forall k :: k in cache ==> VProb(k, pv) == Ok(cache[k])
  }

  function Restrict(t: map<int, real>, s: set<int>): (r: map<int, real>)
    ensures r.Keys == t.Keys * s
  {
    map k | k in t.Keys && k in s :: t[k]
  }

  /** `_vmddprob` with its cache: on success the cache keeps its invariant
      and holds the node; a panic ends the program, so the cache it leaves
      then is of no interest. */
  method VmddProbMemo(n: MNode, pv: map<string, seq<real>>, cache: map<MNode, map<int, real>>)
    returns (r: Result<map<int, real>>, cache': map<MNode, map<int, real>>)
    requires VCache(cache, pv)
    ensures r == VProb(n, pv)
    ensures r.Ok? ==> VCache(cache', pv) && n in cache'
    decreases n
  {
    if n in cache {
      return Ok(cache[n]), cache;
    }
    cache' := cache;
    var result: map<int, real>;
    match n {
      case Terminal(v) =>
        result := map[v := 1.0];
      case Undet =>
        result := map[];
      case MNT(_, x, kids) =>
        if x !in pv {
          return Err(Panic("called `Option::unwrap()` on a `None` value")), cache';
        }
        var fp := pv[x];
        var acc: map<int, real> := map[];
        for i := 0 to |kids|
          invariant VCache(cache', pv)
          invariant Children(n, pv, 0, map[]) == Children(n, pv, i, acc)
        {
          var sub;
          sub, cache' := VmddProbMemo(kids[i], pv, cache');
          if sub.Err? {
            return Err(sub.error), cache';
          }
          var added := AddInto(acc, fp, i, sub.value);
          ChildrenStep(n, pv, i, acc);
          if added.Err? {
            return Err(added.error), cache';
          }
          acc := added.value;
        }
        result := acc;
    }
    cache' := cache'[n := result];
    r := Ok(result);
  }

  /** The inner loop of `_vmddprob`: the entries of a child's map, in
      the map's own order, each added into the accumulator scaled by fp[i];
      the first entry panics when fp has no element i. */
  method AddInto(acc: map<int, real>, fp: seq<real>, i: nat, tmp: map<int, real>) returns (r: Result<map<int, real>>)
    ensures r == if tmp == map[] then Ok(acc)
                 else if i >= |fp| then Err(Panic("index out of bounds"))
                 else Ok(AddScaled(acc, fp[i], tmp))
  {
    var m := acc;
    var keys := tmp.Keys;
    ghost var c := if i < |fp| then fp[i] else 0.0;
    AddScaledEmpty(acc, c);
    assert Restrict(tmp, {}) == map[];
    while keys != {}
      invariant keys <= tmp.Keys
      invariant keys != tmp.Keys ==> i < |fp|
      invariant m == AddScaled(acc, c, Restrict(tmp, tmp.Keys - keys))
      decreases keys
    {
      ghost var w := Member(keys);
      var k :| k in keys;
      if i >= |fp| {
        assert k in tmp;
        return Err(Panic("index out of bounds"));
      }
      ghost var done := tmp.Keys - keys;
      AddScaledStep(acc, c, tmp, done, k);
      m := m[k := Get(m, k) + Times(fp[i], tmp[k])];
      assert tmp.Keys - (keys - {k}) == done + {k};
      keys := keys - {k};
    }
    RestrictAll(tmp);
    assert tmp.Keys - keys == tmp.Keys;
    assert m == AddScaled(acc, c, tmp);
    if tmp == map[] {
      assert m == AddScaled(acc, c, map[]);
    } else {
      assert i < |fp| && c == fp[i];
    }
    r := Ok(m);
  }

  /** Restricting a map to all of its keys leaves it unchanged. */
  lemma {:induction false} RestrictAll(t: map<int, real>)
    ensures Restrict(t, t.Keys) == t
  {
  }

  lemma {:induction false} AddScaledEmpty(m: map<int, real>, c: real)
    ensures AddScaled(m, c, map[]) == m
  {
    assert Times(c, 0.0) == 0.0;
  }

  lemma {:induction false} ChildrenStep(n: MNode, pv: map<string, seq<real>>, i: nat, acc: map<int, real>)
    requires n.MNT? && n.name in pv && i < |n.kids|
    ensures VProb(n.kids[i], pv).Err? ==> Children(n, pv, i, acc) == Err(VProb(n.kids[i], pv).error)
    ensures VProb(n.kids[i], pv).Ok? ==>
              var tmp := VProb(n.kids[i], pv).value;
              var fp := pv[n.name];
              Children(n, pv, i, acc)
              == if tmp == map[] then Children(n, pv, i + 1, acc)
                 else if i >= |fp| then Err(Panic("index out of bounds"))
                 else Children(n, pv, i + 1, AddScaled(acc, fp[i], tmp))
  {
  }

  /** One more key of `t` folded into the accumulator. */
  lemma {:induction false} AddScaledStep(acc0: map<int, real>, c: real, t: map<int, real>, done: set<int>, k: int)
    requires k in t && k !in done
    ensures var acc := AddScaled(acc0, c, Restrict(t, done));
            acc[k := Get(acc, k) + Times(c, t[k])] == AddScaled(acc0, c, Restrict(t, done + {k}))
  {
    var t0, t1 := Restrict(t, done), Restrict(t, done + {k});
    var acc := AddScaled(acc0, c, t0);
    var lhs := acc[k := Get(acc, k) + Times(c, t[k])];
    var rhs := AddScaled(acc0, c, t1);
    assert lhs.Keys == rhs.Keys;
    forall j | j in lhs
      ensures lhs[j] == rhs[j]
    {
      if j == k {
        assert Get(t0, k) == 0.0 && Get(t1, k) == t[k];
        assert Times(c, 0.0) == 0.0;
        assert Get(acc, k) == Get(acc0, k);
      } else {
        assert Get(t0, j) == Get(t1, j);
      }
    }
  }

  // ---------------------------------------------------------------------------
  // What the probability map holds

  /** The terminal values reachable from a node. */
  function Values(n: MNode): set<int>
    decreases n, 1
  {
    match n
    case Terminal(v) => {v}
    case Undet => {}
    case MNT(_, _, kids) => ValuesFrom(n, 0)
  }

  function ValuesFrom(n: MNode, i: nat): set<int>
    requires n.MNT? && i <= |n.kids|
    decreases n, 0, |n.kids| - i
  {
    if i == |n.kids| then {} else Values(n.kids[i]) + ValuesFrom(n, i + 1)
  }

  /** The keys of the map are the terminal values reachable from the node:
      each child's keys are added, and only those. */
  lemma {:induction false} VProbKeys(n: MNode, pv: map<string, seq<real>>)
    ensures VProb(n, pv).Ok? ==> VProb(n, pv).value.Keys == Values(n)
    decreases n, 1
  {
    if n.MNT? && n.name in pv {
      ChildrenKeys(n, pv, 0, map[]);
    }
  }

  lemma {:induction false} ChildrenKeys(n: MNode, pv: map<string, seq<real>>, i: nat, acc: map<int, real>)
    requires n.MNT? && n.name in pv && i <= |n.kids|
    ensures Children(n, pv, i, acc).Ok? ==> Children(n, pv, i, acc).value.Keys == acc.Keys + ValuesFrom(n, i)
    decreases n, 0, |n.kids| - i
  {
    if i < |n.kids| {
      VProbKeys(n.kids[i], pv);
      ChildrenStep(n, pv, i, acc);
      var sub := VProb(n.kids[i], pv);
      if sub.Ok? {
        if sub.value == map[] {
          ChildrenKeys(n, pv, i + 1, acc);
        } else if i < |pv[n.name]| {
          ChildrenKeys(n, pv, i + 1, AddScaled(acc, pv[n.name][i], sub.value));
        }
      }
    }
  }

  /** Every reachable label has a vector with an entry for each child. */
  ghost predicate Covered(n: MNode, pv: map<string, seq<real>>)
    decreases n
  {
    match n
    case MNT(_, x, kids) => x in pv && |pv[x]| >= |kids| && forall k :: k in kids ==> Covered(k, pv)
    case _ => true
  }

  /** Then nothing panics. */
  lemma {:induction false} CoveredOk(n: MNode, pv: map<string, seq<real>>)
    requires Covered(n, pv)
    ensures VProb(n, pv).Ok?
    decreases n, 1
  {
    if n.MNT? {
      CoveredChildrenOk(n, pv, 0, map[]);
    }
  }

  lemma {:induction false} CoveredChildrenOk(n: MNode, pv: map<string, seq<real>>, i: nat, acc: map<int, real>)
    requires n.MNT? && Covered(n, pv) && i <= |n.kids|
    ensures Children(n, pv, i, acc).Ok?
    decreases n, 0, |n.kids| - i
  {
    if i < |n.kids| {
      assert n.kids[i] in n.kids;
      CoveredOk(n.kids[i], pv);
      ChildrenStep(n, pv, i, acc);
      var tmp := VProb(n.kids[i], pv).value;
      if tmp == map[] {
        CoveredChildrenOk(n, pv, i + 1, acc);
      } else {
        CoveredChildrenOk(n, pv, i + 1, AddScaled(acc, pv[n.name][i], tmp));
      }
    }
  }

  function SeqSum(s: seq<real>): real
  {
    if s == [] then 0.0 else s[0] + SeqSum(s[1..])
  }

  /** Every reachable label has one probability per child, summing to 1, and
      no undetermined terminal is reachable. */
  ghost predicate Proper(n: MNode, pv: map<string, seq<real>>)
    decreases n
  {
    match n
    case Terminal(_) => true
    case Undet => false
    case MNT(_, x, kids) =>
      x in pv && |pv[x]| == |kids| && SeqSum(pv[x]) == 1.0 && forall k :: k in kids ==> Proper(k, pv)
  }

  /** The sum of a map's entries over a finite set of keys, absent keys
      counting 0. */
  ghost function SumOver(m: map<int, real>, s: set<int>): real
    decreases s
  {
    if s == {} then 0.0
    else
      assert exists x :: x in s by { var x := Member(s); }
      var k :| k in s;
      Get(m, k) + SumOver(m, s - {k})
  }

  ghost function Total(m: map<int, real>): real
  {
    SumOver(m, m.Keys)
  }

  lemma {:induction false} SumOverRemove(m: map<int, real>, s: set<int>, k: int)
    requires k in s
    ensures SumOver(m, s) == Get(m, k) + SumOver(m, s - {k})
    decreases s
  {
    var w := Member(s);
    var j :| j in s && SumOver(m, s) == Get(m, j) + SumOver(m, s - {j});
    if j != k {
      SumOverRemove(m, s - {j}, k);
      SumOverRemove(m, s - {k}, j);
      assert s - {j} - {k} == s - {k} - {j};
    }
  }

  /** Summing over extra keys absent from the map adds nothing. */
  lemma {:induction false} SumOverSuperset(m: map<int, real>, s: set<int>)
    requires m.Keys <= s
    ensures SumOver(m, s) == Total(m)
    decreases s
  {
    if forall y :: y in s ==> y in m.Keys {
      assert s == m.Keys;
    } else {
      var k :| k in s && k !in m.Keys;
      SumOverRemove(m, s, k);
      SumOverSuperset(m, s - {k});
    }
  }

  lemma {:induction false} TimesDistributes(c: real, x: real, y: real)
    ensures Times(c, x) + Times(c, y) == Times(c, x + y)
  {
  }

  lemma {:induction false} GetAddScaled(a: map<int, real>, c: real, t: map<int, real>, k: int)
    ensures Get(AddScaled(a, c, t), k) == Get(a, k) + Times(c, Get(t, k))
  {
    if k !in a && k !in t {
      assert Times(c, 0.0) == 0.0;
    }
  }

  lemma {:induction false} SumOverLinear(a: map<int, real>, c: real, t: map<int, real>, s: set<int>)
    ensures SumOver(AddScaled(a, c, t), s) == SumOver(a, s) + Times(c, SumOver(t, s))
    decreases s
  {
    var r := AddScaled(a, c, t);
    if s == {} {
      assert Times(c, 0.0) == 0.0;
    } else {
      var k := Member(s);
      SumOverRemove(r, s, k);
      SumOverRemove(a, s, k);
      SumOverRemove(t, s, k);
      SumOverLinear(a, c, t, s - {k});
      GetAddScaled(a, c, t, k);
      TimesDistributes(c, Get(t, k), SumOver(t, s - {k}));
    }
  }

  /** Adding `c` times `t` adds `c` times its total. */
  lemma {:induction false} AddScaledTotal(a: map<int, real>, c: real, t: map<int, real>)
    ensures Total(AddScaled(a, c, t)) == Total(a) + Times(c, Total(t))
  {
    var u := a.Keys + t.Keys;
    SumOverLinear(a, c, t, u);
    SumOverSuperset(a, u);
    SumOverSuperset(t, u);
  }

  lemma {:induction false} TotalEmpty()
    ensures Total(map[]) == 0.0
  {
  }

  /** If every reachable label's vector sums to 1 and has one entry per
      child, and no undetermined terminal is reachable, the map's entries
      sum to 1. */
  lemma {:induction false} VProbTotal(n: MNode, pv: map<string, seq<real>>)
    requires Proper(n, pv)
    ensures VProb(n, pv).Ok? && Total(VProb(n, pv).value) == 1.0
    decreases n, 1
  {
    match n
    case Terminal(v) =>
      var m := map[v := 1.0];
      assert m.Keys == {v};
      SumOverRemove(m, {v}, v);
      assert {v} - {v} == {};
    case MNT(_, x, kids) =>
      TotalEmpty();
      ChildrenTotal(n, pv, 0, map[]);
      assert pv[x][0..] == pv[x];
  }

  lemma {:induction false} ChildrenTotal(n: MNode, pv: map<string, seq<real>>, i: nat, acc: map<int, real>)
    requires n.MNT? && Proper(n, pv) && i <= |n.kids|
    ensures Children(n, pv, i, acc).Ok?
    ensures Total(Children(n, pv, i, acc).value) == Total(acc) + SeqSum(pv[n.name][i..])
    decreases n, 0, |n.kids| - i
  {
    var fp := pv[n.name];
    if i == |n.kids| {
      assert fp[i..] == [];
    } else {
      assert n.kids[i] in n.kids;
      VProbTotal(n.kids[i], pv);
      ChildrenStep(n, pv, i, acc);
      var tmp := VProb(n.kids[i], pv).value;
      if tmp == map[] {
        TotalEmpty();
        assert false;
      }
      var acc' := AddScaled(acc, fp[i], tmp);
      AddScaledTotal(acc, fp[i], tmp);
      assert Times(fp[i], 1.0) == fp[i];
      ChildrenTotal(n, pv, i + 1, acc');
      assert fp[i..][1..] == fp[i + 1..];
    }
  }

  /** `vmddprob(mdd, node, pv)`: `_vmddprob` from an empty cache. */
  method VmddProb(n: MNode, pv: map<string, seq<real>>) returns (r: Result<map<int, real>>)
    ensures r == VProb(n, pv)
  {
    var cache;
    r, cache := VmddProbMemo(n, pv, map[]);
  }

  /** `mddprob`: a value root is handed to `vmddprob`; any other root
      panics. */
  method MddProb(root: Root, pv: map<string, seq<real>>) returns (r: Result<map<int, real>>)
    ensures root.ValueRoot? ==> r == VProb(root.node, pv)
    ensures root.OtherRoot? ==> r == Err(Panic("Not implemented yet"))
  {
    match root {
      case ValueRoot(node) =>
        r := VmddProb(node, pv);
      case OtherRoot =>
        r := Err(Panic("Not implemented yet"));
    }
  }
}
