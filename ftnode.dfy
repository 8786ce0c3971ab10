// dd/src/ftnode.rs: the fault-tree manager. Builders stamp nodes with a
// counter; `create` compiles a tree into a decision diagram, naming each
// occurrence of a basic event apart ("n_0", "n_1", ...), sharing repeated
// events under their own name, and caching each gate's diagram by its id.
// The engine's variable lookup `var(name)` is the parameter `bddVar`, None for
// a name the engine does not know, and its `and`, `or` and `kofn` are those of
// dd/src/ft.rs.
module FaultTree {
  import opened Wrappers
  import opened Bdd
  import Ft
  import Decimal
  import Expressions

  /** An `FTNode`: a basic or repeated event, or a gate over its arguments.
      The node's link back to its manager is not modelled. */
  datatype FTNode =
    | Basic(id: nat, name: string)
    | Repeat(id: nat, name: string)
    | And(id: nat, args: seq<FTNode>)
    | Or(id: nat, args: seq<FTNode>)
    | KofN(id: nat, k: nat, args: seq<FTNode>)
  {
    predicate IsGate()
    {
      And? || Or? || KofN?
    }
  }

  /** The manager's two maps: the variable names issued per event, and the
      diagram compiled per gate id. */
  datatype Tables = Tables(events: map<string, seq<string>>, bddnode: map<nat, Node>)

  /** The variable name of the `u`-th occurrence of basic event `name`. */
  function BasicName(name: string, u: nat): string
  {
    name + "_" + Decimal.NatStr(u)
  }

  /** The panic of `unwrap` on a variable the engine does not know. */
  const UnwrapNone := "called `Option::unwrap()` on a `None` value"

  /** The engine's combination of a gate's compiled arguments. */
  function Gate(t: FTNode, nodes: seq<Node>): Result<Node>
    requires t.IsGate()
  {
    match t
    case And(_, _) => Ok(Ft.Fold(Conj, One, nodes))
    case Or(_, _) => Ok(Ft.Fold(Disj, Zero, nodes))
    case KofN(_, k, _) => Ft.KofN(k, nodes)
  }

  /** `create(top)` on the manager's maps: the diagram (or the panic of an
      unknown variable or of a k-out-of-n gate) and the maps afterwards. An
      event's variable is looked up before its name is recorded. */
  function Compile(t: FTNode, s: Tables, bddVar: string -> Option<Node>): (Result<Node>, Tables)
    decreases t, 1
  {
    match t
    case Basic(_, name) =>
      if name in s.events then
        var name' := BasicName(name, |s.events[name]|);
        if bddVar(name').None? then (Err(Panic(UnwrapNone)), s)
        else (Ok(bddVar(name').value), s.(events := s.events[name := s.events[name] + [name']]))
      else
        var name' := BasicName(name, 0);
        if bddVar(name').None? then (Err(Panic(UnwrapNone)), s)
        else (Ok(bddVar(name').value), s.(events := s.events[name := [name']]))
    case Repeat(_, name) =>
      if bddVar(name).None? then (Err(Panic(UnwrapNone)), s)
      else if name in s.events then (Ok(bddVar(name).value), s)
      else (Ok(bddVar(name).value), s.(events := s.events[name := [name]]))
    case _ =>
      if t.id in s.bddnode then (Ok(s.bddnode[t.id]), s)
      else
        var (b, s1) := CompileArgs(t, 0, [], s, bddVar);
        if b.Err? then (Err(b.error), s1)
        else
          var x := Gate(t, b.value);
          if x.Err? then (x, s1)
          else (x, s1.(bddnode := s1.bddnode[t.id := x.value]))
  }

  /** The gate's arguments from the `i`-th on, compiled in order onto `acc`. */
  function CompileArgs(t: FTNode, i: nat, acc: seq<Node>, s: Tables, bddVar: string -> Option<Node>): (Result<seq<Node>>, Tables)
    requires t.IsGate() && i <= |t.args|
    decreases t, 0, |t.args| - i
  {
    if i == |t.args| then (Ok(acc), s)
    else
      var (r, s1) := Compile(t.args[i], s, bddVar);
      if r.Err? then (Err(r.error), s1)
      else CompileArgs(t, i + 1, acc + [r.value], s1, bddVar)
  }

  /** The variable an event is compiled to: its next basic name, or the
      repeated event's own name. */
  function EventVar(t: FTNode, s: Tables): string
    requires !t.IsGate()
  {
    if t.Repeat? then t.name
    else if t.name in s.events then BasicName(t.name, |s.events[t.name]|)
    else BasicName(t.name, 0)
  }

  /** An event compiles to the engine's variable of that name; a name the
      engine does not know panics and records nothing. A basic event appends
      its new name to its list; a repeated event records itself only when it
      has no list yet. */
  lemma {:induction false} CompileEvent(t: FTNode, s: Tables, bddVar: string -> Option<Node>)
    requires !t.IsGate()
    ensures var (r, s') := Compile(t, s, bddVar);
            && (bddVar(EventVar(t, s)).None? <==> r == Err(Panic(UnwrapNone)))
            && (bddVar(EventVar(t, s)).None? ==> s' == s)
            && (bddVar(EventVar(t, s)).Some? ==>
                  && r == Ok(bddVar(EventVar(t, s)).value) && s'.bddnode == s.bddnode
                  && s'.events.Keys == s.events.Keys + {t.name}
                  && (t.Basic? ==> s'.events[t.name] == (if t.name in s.events then s.events[t.name] else []) + [EventVar(t, s)])
                  && (t.Repeat? ==> s'.events == if t.name in s.events then s.events else s.events[t.name := [t.name]]))
  {
  }

  // ---------------------------------------------------------------------------
  // What compiling keeps

  /** `after` keeps every gate entry of `before` and extends every event's
      list of names. */
  ghost predicate Extends(before: Tables, after: Tables)
  {
    && before.bddnode.Keys <= after.bddnode.Keys
    && (forall g :: g in before.bddnode ==> after.bddnode[g] == before.bddnode[g])
    && before.events.Keys <= after.events.Keys
    && (forall n :: n in before.events ==> before.events[n] <= after.events[n])
  }

  lemma {:induction false} ExtendsTrans(a: Tables, b: Tables, c: Tables)
    requires Extends(a, b) && Extends(b, c)
    ensures Extends(a, c)
  {
    forall n | n in a.events
      ensures a.events[n] <= c.events[n]
    {
      assert a.events[n] <= b.events[n] <= c.events[n];
    }
  }

  /** Compiling only adds: cached gates keep their diagrams and recorded
      names stay recorded. */
  lemma {:induction false} CompileExtends(t: FTNode, s: Tables, bddVar: string -> Option<Node>)
    ensures Extends(s, Compile(t, s, bddVar).1)
    decreases t, 1
  {
    if t.IsGate() && t.id !in s.bddnode {
      CompileArgsExtends(t, 0, [], s, bddVar);
    }
  }

  lemma {:induction false} CompileArgsExtends(t: FTNode, i: nat, acc: seq<Node>, s: Tables, bddVar: string -> Option<Node>)
    requires t.IsGate() && i <= |t.args|
    ensures Extends(s, CompileArgs(t, i, acc, s, bddVar).1)
    decreases t, 0, |t.args| - i
  {
    if i < |t.args| {
      var (r, s1) := Compile(t.args[i], s, bddVar);
      CompileExtends(t.args[i], s, bddVar);
      if r.Ok? {
        CompileArgsExtends(t, i + 1, acc + [r.value], s1, bddVar);
        ExtendsTrans(s, s1, CompileArgs(t, i + 1, acc + [r.value], s1, bddVar).1);
      }
    }
  }

  /** Recompiling a gate that compiled returns the cached diagram and changes
      nothing: no new names are issued. */
  lemma {:induction false} CompileCached(t: FTNode, s: Tables, bddVar: string -> Option<Node>)
    requires t.IsGate() && Compile(t, s, bddVar).0.Ok?
    ensures Compile(t, Compile(t, s, bddVar).1, bddVar) == Compile(t, s, bddVar)
  {
  }

  /** Every name recorded for an event is the event itself (a repeated event,
      first) or its basic name with its own position as suffix. */
  ghost predicate WellNamed(events: map<string, seq<string>>)
  {
    forall n, i :: n in events && 0 <= i < |events[n]| ==>
      events[n][i] == BasicName(n, i) || (i == 0 && events[n][i] == n)
  }

  lemma {:induction false} BasicNameInjective(name: string, i: nat, u: nat)
    requires BasicName(name, i) == BasicName(name, u)
    ensures i == u
  {
    var p := |name| + 1;
    assert BasicName(name, i)[p..] == Decimal.NatStr(i);
    assert BasicName(name, u)[p..] == Decimal.NatStr(u);
    Decimal.NatStrInjective(i, u);
  }

  /** A basic event gets a name that was not recorded for it before. */
  lemma {:induction false} BasicNameFresh(events: map<string, seq<string>>, name: string)
    requires WellNamed(events) && name in events
    ensures BasicName(name, |events[name]|) !in events[name]
  {
    var u := |events[name]|;
    forall i | 0 <= i < u
      ensures events[name][i] != BasicName(name, u)
    {
      if events[name][i] == BasicName(name, i) {
        if BasicName(name, i) == BasicName(name, u) {
          BasicNameInjective(name, i, u);
        }
      } else {
        assert |events[name][i]| < |BasicName(name, u)|;
      }
    }
  }

  /** Compiling keeps the names well formed. */
  lemma {:induction false} CompileWellNamed(t: FTNode, s: Tables, bddVar: string -> Option<Node>)
    requires WellNamed(s.events)
    ensures WellNamed(Compile(t, s, bddVar).1.events)
    decreases t, 1
  {
    match t
    case Basic(_, name) =>
      var e := Compile(t, s, bddVar).1.events;
      forall n, i | n in e && 0 <= i < |e[n]|
        ensures e[n][i] == BasicName(n, i) || (i == 0 && e[n][i] == n)
      {
        if n == name && name in s.events && i < |s.events[name]| {
          assert e[n][i] == s.events[name][i];
        }
      }
    case Repeat(_, name) =>
    case _ =>
      if t.id !in s.bddnode {
        CompileArgsWellNamed(t, 0, [], s, bddVar);
      }
  }

  lemma {:induction false} CompileArgsWellNamed(t: FTNode, i: nat, acc: seq<Node>, s: Tables, bddVar: string -> Option<Node>)
    requires t.IsGate() && i <= |t.args| && WellNamed(s.events)
    ensures WellNamed(CompileArgs(t, i, acc, s, bddVar).1.events)
    decreases t, 0, |t.args| - i
  {
    if i < |t.args| {
      var (r, s1) := Compile(t.args[i], s, bddVar);
      CompileWellNamed(t.args[i], s, bddVar);
      if r.Ok? {
        CompileArgsWellNamed(t, i + 1, acc + [r.value], s1, bddVar);
      }
    }
  }

  // ---------------------------------------------------------------------------
  // `__repr__`

  function Repr(t: FTNode): string
    decreases t, 1
  {
    match t
    case Basic(_, name) => name
    case Repeat(_, name) => name
    case And(_, _) => Expressions.Join(ReprArgs(t, 0), " & ")
    case Or(_, _) => Expressions.Join(ReprArgs(t, 0), " | ")
    case KofN(_, k, _) => Decimal.NatStr(k) + " of " + Expressions.Join(ReprArgs(t, 0), " | ")
  }

  /** The renderings of the gate's arguments from the `i`-th on. */
  function ReprArgs(t: FTNode, i: nat): (r: seq<string>)
    requires t.IsGate() && i <= |t.args|
    ensures |r| == |t.args| - i
    decreases t, 0, |t.args| - i
  {
    if i == |t.args| then [] else [Repr(t.args[i])] + ReprArgs(t, i + 1)
  }

  /** A two-argument gate renders as its operands around the operator. */
  lemma {:induction false} ReprPair(id: nat, a: FTNode, b: FTNode)
    ensures Repr(And(id, [a, b])) == Repr(a) + " & " + Repr(b)
    ensures Repr(Or(id, [a, b])) == Repr(a) + " | " + Repr(b)
  {
    assert ReprArgs(And(id, [a, b]), 0) == [Repr(a), Repr(b)];
    assert ReprArgs(Or(id, [a, b]), 0) == [Repr(a), Repr(b)];
    var toks := [Repr(a), Repr(b)];
    assert toks[1..] == [Repr(b)];
    assert Expressions.Join(toks, " & ") == Repr(a) + " & " + Expressions.Join([Repr(b)], " & ");
    assert Expressions.Join(toks, " | ") == Repr(a) + " | " + Expressions.Join([Repr(b)], " | ");
  }

  /** The engine's `and`, `or` or `kofn` on the compiled arguments. */
  method GateOf(t: FTNode, nodes: seq<Node>) returns (x: Result<Node>)
    requires t.IsGate()
    ensures x == Gate(t, nodes)
  {
    match t {
      case And(_, _) =>
        var v := Ft.And(nodes);
        x := Ok(v);
      case Or(_, _) =>
        var v := Ft.Or(nodes);
        x := Ok(v);
      case KofN(_, k, _) =>
        x := Ft.KofN(k, nodes);
    }
  }

  // ---------------------------------------------------------------------------
  // The manager

  /** `FTMgr`: the id counter and the two maps; `made` is the ghost record of
      the nodes built so far. */
  class FTMgr {
    var id: nat
    var events: map<string, seq<string>>
    var bddnode: map<nat, Node>
    ghost var made: seq<FTNode>

    /** Each node built carries its position in creation order as its id, and
      the counter is the next id. */
    ghost predicate Valid()
      reads this
    {
      id == |made| && forall i :: 0 <= i < |made| ==> made[i].id == i
    }

    constructor()
      ensures Valid()
      ensures id == 0 && events == map[] && bddnode == map[]
    {
      id := 0;
      events := map[];
      bddnode := map[];
      made := [];
    }

    method Basic(name: string) returns (n: FTNode)
      requires Valid()
      modifies this
      ensures Valid() && made == old(made) + [n]
      ensures n == FTNode.Basic(old(id), name) && id == old(id) + 1
      ensures events == old(events) && bddnode == old(bddnode)
    {
      n := FTNode.Basic(id, name);
      id := id + 1;
      made := made + [n];
    }

    method Repeat(name: string) returns (n: FTNode)
      requires Valid()
      modifies this
      ensures Valid() && made == old(made) + [n]
      ensures n == FTNode.Repeat(old(id), name) && id == old(id) + 1
      ensures events == old(events) && bddnode == old(bddnode)
    {
      n := FTNode.Repeat(id, name);
      id := id + 1;
      made := made + [n];
    }

    method And(args: seq<FTNode>) returns (n: FTNode)
      requires Valid()
      modifies this
      ensures Valid() && made == old(made) + [n]
      ensures n == FTNode.And(old(id), args) && id == old(id) + 1
      ensures events == old(events) && bddnode == old(bddnode)
    {
      n := FTNode.And(id, args);
      id := id + 1;
      made := made + [n];
    }

    method Or(args: seq<FTNode>) returns (n: FTNode)
      requires Valid()
      modifies this
      ensures Valid() && made == old(made) + [n]
      ensures n == FTNode.Or(old(id), args) && id == old(id) + 1
      ensures events == old(events) && bddnode == old(bddnode)
    {
      n := FTNode.Or(id, args);
      id := id + 1;
      made := made + [n];
    }

    method KofN(k: nat, args: seq<FTNode>) returns (n: FTNode)
      requires Valid()
      modifies this
      ensures Valid() && made == old(made) + [n]
      ensures n == FTNode.KofN(old(id), k, args) && id == old(id) + 1
      ensures events == old(events) && bddnode == old(bddnode)
    {
      n := FTNode.KofN(id, k, args);
      id := id + 1;
      made := made + [n];
    }

    /** `a & b`: a new two-argument AND gate, rendered as the operands around
        " & ". */
    method AndOp(a: FTNode, b: FTNode) returns (n: FTNode)
      requires Valid()
      modifies this
      ensures Valid() && made == old(made) + [n]
      ensures n == FTNode.And(old(id), [a, b]) && id == old(id) + 1
      ensures Repr(n) == Repr(a) + " & " + Repr(b)
      ensures events == old(events) && bddnode == old(bddnode)
    {
      n := And([a, b]);
      ReprPair(n.id, a, b);
    }

    /** `a | b`: a new two-argument OR gate, rendered as the operands around
        " | ". */
    method OrOp(a: FTNode, b: FTNode) returns (n: FTNode)
      requires Valid()
      modifies this
      ensures Valid() && made == old(made) + [n]
      ensures n == FTNode.Or(old(id), [a, b]) && id == old(id) + 1
      ensures Repr(n) == Repr(a) + " | " + Repr(b)
      ensures events == old(events) && bddnode == old(bddnode)
    {
      n := Or([a, b]);
      ReprPair(n.id, a, b);
    }

    /** `ftkofn(k, args)`: the manager is taken from the first argument, so
        an empty list panics before anything is built. */
    method FtKofn(k: nat, args: seq<FTNode>) returns (r: Result<FTNode>)
      requires Valid()
      modifies this
      ensures Valid()
      ensures args == [] ==> r == Err(Panic("index out of bounds: the len is 0 but the index is 0")) && id == old(id) && made == old(made)
      ensures args != [] ==> r == Ok(FTNode.KofN(old(id), k, args)) && id == old(id) + 1 && made == old(made) + [r.value]
      ensures events == old(events) && bddnode == old(bddnode)
    {
      if args == [] {
        return Err(Panic("index out of bounds: the len is 0 but the index is 0"));
      }
      var n := KofN(k, args);
      r := Ok(n);
    }

    /** `create(top)`: compiles the tree, recording event names and caching
        gate diagrams; the counter is untouched. */
    method Create(t: FTNode, bddVar: string -> Option<Node>) returns (r: Result<Node>)
      modifies this
      ensures (r, Tables(events, bddnode)) == Compile(t, old(Tables(events, bddnode)), bddVar)
      ensures id == old(id) && made == old(made)
      decreases t, 1
    {
      match t {
        case Basic(_, name) =>
          if name in events {
            var name' := BasicName(name, |events[name]|);
            var x := bddVar(name');
            if x.None? {
              return Err(Panic(UnwrapNone));
            }
            events := events[name := events[name] + [name']];
            r := Ok(x.value);
          } else {
            var name' := BasicName(name, 0);
            var x := bddVar(name');
            if x.None? {
              return Err(Panic(UnwrapNone));
            }
            events := events[name := [name']];
            r := Ok(x.value);
          }
        case Repeat(_, name) =>
          var x := bddVar(name);
          if x.None? {
            return Err(Panic(UnwrapNone));
          }
          if name !in events {
            events := events[name := [name]];
          }
          r := Ok(x.value);
        case And(_, _) =>
          r := CreateGate(t, bddVar);
        case Or(_, _) =>
          r := CreateGate(t, bddVar);
        case KofN(_, _, _) =>
          r := CreateGate(t, bddVar);
      }
    }

    /** A gate: the cached diagram for its id, or its arguments compiled in
        order, combined, and cached. */
    method CreateGate(t: FTNode, bddVar: string -> Option<Node>) returns (r: Result<Node>)
      requires t.IsGate()
      modifies this
      ensures (r, Tables(events, bddnode)) == Compile(t, old(Tables(events, bddnode)), bddVar)
      ensures id == old(id) && made == old(made)
      decreases t, 0
    {
      if t.id in bddnode {
        return Ok(bddnode[t.id]);
      }
      var b: seq<Node> := [];
      for i := 0 to |t.args|
        invariant CompileArgs(t, i, b, Tables(events, bddnode), bddVar) == CompileArgs(t, 0, [], old(Tables(events, bddnode)), bddVar)
        invariant id == old(id) && made == old(made)
      {
        var tmp := Create(t.args[i], bddVar);
        if tmp.Err? {
          return Err(tmp.error);
        }
        b := b + [tmp.value];
      }
      var x := GateOf(t, b);
      if x.Ok? {
        bddnode := bddnode[t.id := x.value];
      }
      r := x;
    }
  }
}
