// The multi-valued front end (relibmss/mss.py): the recursive postfix
// renderer, the overloaded arithmetic and comparison operators, the
// registry of named domains, and the case/switch combinator. And and Or are
// the shared left folds, used with the connectives `&&` and `||`.
module Mss {
  import opened Wrappers
  import opened Expressions
  import opened Combinators

  // ---------------------------------------------------------------------------
  // Rendering

  /** `to_rpn` (and `__str__`): a scalar renders with `str`, a tuple as the
      space-join of its children's renderings. */
  function Render(e: Expr): string
  {
    match e
    case Leaf(t) => t
    case Node(kids) => Join(RenderAll(kids), " ")
  }

  function RenderAll(es: seq<Expr>): (rs: seq<string>)
    ensures |rs| == |es|
  {
    if es == [] then [] else [Render(es[0])] + RenderAll(es[1..])
  }

  /** No tuple is empty: true of every tree the combinators build. */
  predicate NoEmptyTuple(e: Expr)
  {
    match e
    case Leaf(_) => true
    case Node(kids) => kids != [] && forall i :: 0 <= i < |kids| ==> NoEmptyTuple(kids[i])
  }

  lemma {:induction false} FrontierNonEmpty(e: Expr)
    requires NoEmptyTuple(e)
    ensures Frontier(e) != []
  {
    match e
    case Leaf(_) =>
    case Node(kids) =>
      FrontierNonEmpty(kids[0]);
  }

  /** The recursive rendering is the space-joined frontier: the same string
      the iterative compiler of the boolean front end produces. */
  lemma {:induction false} RenderIsFrontier(e: Expr)
    requires NoEmptyTuple(e)
    ensures Render(e) == Join(Frontier(e), " ")
    decreases e, 1
  {
    match e
    case Leaf(t) =>
    case Node(kids) =>
      RenderAllIsFrontier(kids);
  }

  lemma {:induction false} RenderAllIsFrontier(es: seq<Expr>)
    requires es != []
    requires forall i :: 0 <= i < |es| ==> NoEmptyTuple(es[i])
    ensures FrontierAll(es) != []
    ensures Join(RenderAll(es), " ") == Join(FrontierAll(es), " ")
    decreases es, 0
  {
    RenderIsFrontier(es[0]);
    FrontierNonEmpty(es[0]);
    if |es| > 1 {
      RenderAllIsFrontier(es[1..]);
      JoinAppend(Frontier(es[0]), FrontierAll(es[1..]), " ");
      assert RenderAll(es) == [Render(es[0])] + RenderAll(es[1..]);
    } else {
      assert es[1..] == [];
      assert Frontier(es[0]) + [] == Frontier(es[0]);
    }
  }

  /** A well-formed tree renders to a postfix stream whose stack evaluation
      is the tree's value. */
  lemma {:induction false} RenderedPostfix<V>(e: Expr, leaf: string -> V, apply: (string, seq<V>) -> V)
    requires WellFormed(e) && CleanTokens(e)
    ensures Run(SplitWs(Render(e)), [], leaf, apply) == Some([Eval(e, leaf, apply)])
  {
    WellFormedNoEmptyTuple(e);
    RenderIsFrontier(e);
    RenderedRoundTrip(e, leaf, apply);
  }

  lemma {:induction false} WellFormedNoEmptyTuple(e: Expr)
    requires WellFormed(e)
    ensures NoEmptyTuple(e)
  {
    match e
    case Leaf(_) =>
    case Node(kids) =>
      forall i | 0 <= i < |kids|
        ensures NoEmptyTuple(kids[i])
      {
        if i < |kids| - 1 {
          WellFormedNoEmptyTuple(kids[i]);
        }
      }
  }

  // ---------------------------------------------------------------------------
  // Overloaded operators

  datatype Op = Add | Sub | Mul | TrueDiv | Eq | Ne | Lt | Le | Gt | Ge

  /** The operator leaf each overloaded Python operator appends. */
  function Symbol(op: Op): string
  {
    match op
    case Add => "+"
    case Sub => "-"
    case Mul => "*"
    case TrueDiv => "/"
    case Eq => "=="
    case Ne => "!="
    case Lt => "<"
    case Le => "<="
    case Gt => ">"
    case Ge => ">="
  }

  /** `self <op> other`. */
  function Apply(self: Expr, op: Op, other: Operand): Expr
  {
    Binary(self, other, Symbol(op))
  }

  /** Every operator yields a three-child node holding `self` unchanged, the
      promoted operand and the operator leaf, which the consumer reads as a
      binary operator; distinct operators give distinct leaves. */
  lemma {:induction false} OperatorsBuildNodes(self: Expr, op: Op, op': Op, other: Operand)
    ensures Apply(self, op, other).Node? && |Apply(self, op, other).kids| == 3
    ensures Apply(self, op, other).kids[0] == self
    ensures Apply(self, op, other).kids[1] == Promote(other)
    ensures Apply(self, op, other).kids[2] == Leaf(Symbol(op)) && Arity(Symbol(op)) == 2
    ensures WellFormed(self) && WellFormed(Promote(other)) ==> WellFormed(Apply(self, op, other))
    ensures op != op' ==> Symbol(op) != Symbol(op')
  {
  }

  // ---------------------------------------------------------------------------
  // Cases and switch

  /** A `_Case`: both fields are expressions after promotion. */
  datatype Case = Case(cond: Expr, thenValue: Expr)

  /** `case(then, cond=None)`: an omitted condition is the literal `None`. */
  function MkCase(thenValue: Operand, cond: Operand := Lit("None")): (c: Case)
    ensures c.thenValue == Promote(thenValue) && c.cond == Promote(cond)
  {
    Case(Promote(cond), Promote(thenValue))
  }

  lemma {:induction false} DefaultCaseRendersNone(thenValue: Operand)
    ensures MkCase(thenValue).cond == Leaf("None")
    ensures Render(MkCase(thenValue).cond) == "None"
  {
  }

  /** An element of the list handed to `switch`: a `_Case`, or anything else. */
  datatype SwitchArg = IsCase(c: Case) | NotCase

  /** `switch(conds)`: a right fold into `?` nodes; the last case contributes
      only its `then`. */
  function Switch(conds: seq<SwitchArg>): Result<Expr>
    decreases |conds|
  {
    if |conds| < 2 then Err(AssertionError)
    else if |conds| == 2 then
      if conds[0].IsCase? && conds[1].IsCase? then
        Ok(IfElse(Ex(conds[0].c.cond), Ex(conds[0].c.thenValue), Ex(conds[1].c.thenValue)))
      else Err(AssertionError)
    else if !conds[0].IsCase? then Err(ValueError("The element must be a Case object"))
    else
      match Switch(conds[1..])
      case Err(e) => Err(e)
      case Ok(r) => Ok(IfElse(Ex(conds[0].c.cond), Ex(conds[0].c.thenValue), Ex(r)))
  }

  predicate AllCases(conds: seq<SwitchArg>)
  {
    forall i :: 0 <= i < |conds| ==> conds[i].IsCase?
  }

  /** `switch` succeeds exactly on lists of at least two cases. */
  lemma {:induction false} SwitchSucceeds(conds: seq<SwitchArg>)
    ensures Switch(conds).Ok? <==> |conds| >= 2 && AllCases(conds)
    decreases |conds|
  {
    if |conds| > 2 {
      SwitchSucceeds(conds[1..]);
      if conds[0].IsCase? && AllCases(conds[1..]) {
        forall i | 0 <= i < |conds|
          ensures conds[i].IsCase?
        {
          if i > 0 {
            assert conds[i] == conds[1..][i - 1];
          }
        }
      }
    }
  }

  /** The failures: fewer than two elements or a non-case in a two-element
      list fail the assertion; a non-case head of a longer list raises
      ValueError. */
  lemma {:induction false} SwitchFailures(conds: seq<SwitchArg>)
    ensures |conds| < 2 ==> Switch(conds) == Err(AssertionError)
    ensures |conds| == 2 && !AllCases(conds) ==> Switch(conds) == Err(AssertionError)
    ensures |conds| > 2 && conds[0] == NotCase ==> Switch(conds) == Err(ValueError("The element must be a Case object"))
  {
    if |conds| == 2 && !AllCases(conds) {
      assert !conds[0].IsCase? || !conds[1].IsCase?;
    }
  }

  /** The condition of the last case is never read: replacing it leaves the
      result unchanged. */
  lemma {:induction false} SwitchIgnoresLastCondition(conds: seq<SwitchArg>, cond: Expr)
    requires |conds| >= 2 && conds[|conds| - 1].IsCase?
    ensures Switch(conds[..|conds| - 1] + [IsCase(Case(cond, conds[|conds| - 1].c.thenValue))]) == Switch(conds)
    decreases |conds|
  {
    var n := |conds|;
    var conds' := conds[..n - 1] + [IsCase(Case(cond, conds[n - 1].c.thenValue))];
    if n > 2 {
      assert conds'[1..] == conds[1..][..n - 2] + [IsCase(Case(cond, conds[n - 1].c.thenValue))];
      SwitchIgnoresLastCondition(conds[1..], cond);
    }
  }

  function CaseList(cases: seq<Case>): (conds: seq<SwitchArg>)
    ensures |conds| == |cases| && AllCases(conds)
    ensures forall i :: 0 <= i < |cases| ==> conds[i] == IsCase(cases[i])
  {
    if cases == [] then [] else [IsCase(cases[0])] + CaseList(cases[1..])
  }

  predicate CasesWellFormed(cases: seq<Case>)
  {
    forall i :: 0 <= i < |cases| ==> WellFormed(cases[i].cond) && WellFormed(cases[i].thenValue)
  }

  /** The reference reading of a case list: the `then` of the first case
      whose condition holds, the last case's `then` when no earlier one
      holds; the last condition is not consulted. */
  function FirstMatch<V>(cases: seq<Case>, leaf: string -> V, apply: (string, seq<V>) -> V, truthy: V -> bool): V
    requires |cases| >= 1 && CasesWellFormed(cases)
  {
    if |cases| == 1 then Eval(cases[0].thenValue, leaf, apply)
    else if truthy(Eval(cases[0].cond, leaf, apply)) then Eval(cases[0].thenValue, leaf, apply)
    else FirstMatch(cases[1..], leaf, apply, truthy)
  }

  /** `FirstMatch` picks the first case, among all but the last, whose
      condition holds, and the last case when none does. */
  lemma {:induction false} FirstMatchPicks<V>(cases: seq<Case>, leaf: string -> V, apply: (string, seq<V>) -> V, truthy: V -> bool, j: nat)
    requires |cases| >= 1 && CasesWellFormed(cases) && j < |cases|
    requires j == |cases| - 1 || truthy(Eval(cases[j].cond, leaf, apply))
    requires forall i :: 0 <= i < j ==> !truthy(Eval(cases[i].cond, leaf, apply))
    ensures FirstMatch(cases, leaf, apply, truthy) == Eval(cases[j].thenValue, leaf, apply)
    decreases j
  {
    if j > 0 {
      var rest := cases[1..];
      assert !truthy(Eval(cases[0].cond, leaf, apply));
      forall i | 0 <= i < j - 1
        ensures !truthy(Eval(rest[i].cond, leaf, apply))
      {
        assert rest[i] == cases[i + 1];
      }
      assert rest[j - 1] == cases[j];
      FirstMatchPicks(rest, leaf, apply, truthy, j - 1);
    }
  }

  /** The `?` reading the switch lemmas assume: if-then-else on a truth test
      of the first argument. */
  ghost predicate IsConditional<V(!new)>(apply: (string, seq<V>) -> V, truthy: V -> bool)
  {
    forall vs: seq<V> :: |vs| == 3 ==> apply("?", vs) == if truthy(vs[0]) then vs[1] else vs[2]
  }

  lemma {:induction false} IfElseSelects<V(!new)>(c: Expr, t: Expr, e: Expr, leaf: string -> V, apply: (string, seq<V>) -> V, truthy: V -> bool)
    requires WellFormed(c) && WellFormed(t) && WellFormed(e) && IsConditional(apply, truthy)
    ensures WellFormed(IfElse(Ex(c), Ex(t), Ex(e)))
    ensures Eval(IfElse(Ex(c), Ex(t), Ex(e)), leaf, apply)
         == if truthy(Eval(c, leaf, apply)) then Eval(t, leaf, apply) else Eval(e, leaf, apply)
  {
    IfElsePostfix(Ex(c), Ex(t), Ex(e), leaf, apply);
  }

  lemma {:induction false} SwitchOfCases(cases: seq<Case>)
    requires |cases| >= 2
    ensures Switch(CaseList(cases)).Ok? == Switch(CaseList(cases[1..])).Ok? || |cases| == 2
    ensures |cases| == 2 ==>
              Switch(CaseList(cases)) == Ok(IfElse(Ex(cases[0].cond), Ex(cases[0].thenValue), Ex(cases[1].thenValue)))
    ensures |cases| > 2 && Switch(CaseList(cases[1..])).Ok? ==>
              Switch(CaseList(cases))
              == Ok(IfElse(Ex(cases[0].cond), Ex(cases[0].thenValue), Ex(Switch(CaseList(cases[1..])).value)))
  {
    assert CaseList(cases)[1..] == CaseList(cases[1..]);
  }

  /** Evaluating a switch, for any reading of the leaves and any operator
      reading whose `?` is an if-then-else on a truth test of its first
      argument, gives the first-match value of its case list. */
  lemma {:induction false} SwitchFirstMatch<V(!new)>(cases: seq<Case>, leaf: string -> V, apply: (string, seq<V>) -> V, truthy: V -> bool)
    requires |cases| >= 2 && CasesWellFormed(cases)
    requires IsConditional(apply, truthy)
    ensures Switch(CaseList(cases)).Ok? && WellFormed(Switch(CaseList(cases)).value)
    ensures Eval(Switch(CaseList(cases)).value, leaf, apply) == FirstMatch(cases, leaf, apply, truthy)
    decreases |cases|
  {
    SwitchOfCases(cases);
    var rest := cases[1..];
    assert CasesWellFormed(rest) by {
      assert forall i :: 0 <= i < |rest| ==> rest[i] == cases[i + 1];
    }
    if |cases| == 2 {
      assert rest == [cases[1]];
      IfElseSelects(cases[0].cond, cases[0].thenValue, cases[1].thenValue, leaf, apply, truthy);
    } else {
      SwitchFirstMatch(rest, leaf, apply, truthy);
      IfElseSelects(cases[0].cond, cases[0].thenValue, Switch(CaseList(rest)).value, leaf, apply, truthy);
    }
  }

  /** An integer reading of the logical and conditional operators: zero is
      false, `&&`, `||` and `!` yield 0 or 1, `?` selects on a non-zero
      condition; the arithmetic and comparison operators are not read here. */
  function MvApply(op: string, args: seq<int>): int
  {
    if op == "&&" && |args| == 2 then (if args[0] != 0 && args[1] != 0 then 1 else 0)
    else if op == "||" && |args| == 2 then (if args[0] != 0 || args[1] != 0 then 1 else 0)
    else if op == "!" && |args| == 1 then (if args[0] == 0 then 1 else 0)
    else if op == "?" && |args| == 3 then (if args[0] != 0 then args[1] else args[2])
    else 0
  }

  /** The case list `[case(cond=And([A, B]), then=0), case(cond=Or([A, B]),
      then=1), case(then=2)]` over variables named `x` and `y`. */
  function ThreeArms(x: string, y: string): seq<Case>
  {
    [Case(Chain(Leaf(x), [Leaf(y)], "&&"), Leaf("0")),
     Case(Chain(Leaf(x), [Leaf(y)], "||"), Leaf("1")),
     MkCase(Lit("2"))]
  }

  lemma {:induction false} EvalConnective(x: string, y: string, op: string, leaf: string -> int)
    requires Arity(x) == 0 && Arity(y) == 0 && (op == "&&" || op == "||")
    ensures WellFormed(Node([Leaf(x), Leaf(y), Leaf(op)]))
    ensures Eval(Node([Leaf(x), Leaf(y), Leaf(op)]), leaf, MvApply) == MvApply(op, [leaf(x), leaf(y)])
  {
    BinaryPostfix(Leaf(x), Lit(y), op, leaf, MvApply);
  }

  /** The engine's truth test on a value: anything but 0. */
  function NonZero(v: int): bool
  {
    v != 0
  }

  lemma {:induction false} MvApplyIsConditional()
    ensures IsConditional(MvApply, NonZero)
  {
  }

  lemma {:induction false} ThreeArmsShape(x: string, y: string)
    ensures Switch(CaseList(ThreeArms(x, y)))
         == Ok(IfElse(Ex(Node([Leaf(x), Leaf(y), Leaf("&&")])), Ex(Leaf("0")),
                      Ex(IfElse(Ex(Node([Leaf(x), Leaf(y), Leaf("||")])), Ex(Leaf("1")), Ex(Leaf("2"))))))
  {
    var cases := ThreeArms(x, y);
    assert [Leaf(y)][..0] == [];
    assert Chain(Leaf(x), [], "&&") == Leaf(x) && Chain(Leaf(x), [], "||") == Leaf(x);
    assert cases[0].cond == Node([Leaf(x), Leaf(y), Leaf("&&")]);
    assert cases[1].cond == Node([Leaf(x), Leaf(y), Leaf("||")]);
    var rest := cases[1..];
    assert rest == [cases[1], cases[2]];
    SwitchOfCases(cases);
    SwitchOfCases(rest);
  }

  /** The three-arm scenario over two boolean variables: the value is 0 when
      both are 1, 1 when exactly one is, and 2 when neither is. */
  lemma {:induction false} ThreeArmScenario(x: string, y: string, leaf: string -> int)
    requires Arity(x) == 0 && Arity(y) == 0
    requires leaf(x) in {0, 1} && leaf(y) in {0, 1}
    requires leaf("0") == 0 && leaf("1") == 1 && leaf("2") == 2
    ensures Switch(CaseList(ThreeArms(x, y))).Ok? && WellFormed(Switch(CaseList(ThreeArms(x, y))).value)
    ensures Eval(Switch(CaseList(ThreeArms(x, y))).value, leaf, MvApply)
         == if leaf(x) == 1 && leaf(y) == 1 then 0 else if leaf(x) == 1 || leaf(y) == 1 then 1 else 2
  {
    var andXY := Node([Leaf(x), Leaf(y), Leaf("&&")]);
    var orXY := Node([Leaf(x), Leaf(y), Leaf("||")]);
    ThreeArmsShape(x, y);
    NumeralsAreOperands();
    EvalConnective(x, y, "&&", leaf);
    EvalConnective(x, y, "||", leaf);
    MvApplyIsConditional();
    var inner := IfElse(Ex(orXY), Ex(Leaf("1")), Ex(Leaf("2")));
    IfElseSelects(orXY, Leaf("1"), Leaf("2"), leaf, MvApply, NonZero);
    IfElseSelects(andXY, Leaf("0"), inner, leaf, MvApply, NonZero);
  }

  // ---------------------------------------------------------------------------
  // The context

  /** `sorted(x, key=x.get)`: the names of a rank dictionary, given in
      insertion order, sorted by rank. */
  function SortByRank(x: seq<(string, int)>): seq<(string, int)>
  {
    if x == [] then [] else InsertByRank(SortByRank(x[..|x| - 1]), x[|x| - 1])
  }

  /** Puts `p` after every entry whose rank is not greater than its own. */
  function InsertByRank(s: seq<(string, int)>, p: (string, int)): seq<(string, int)>
  {
    if s == [] || s[|s| - 1].1 <= p.1 then s + [p]
    else InsertByRank(s[..|s| - 1], p) + [s[|s| - 1]]
  }

  predicate RankSorted(s: seq<(string, int)>)
  {
    forall i, j :: 0 <= i < j < |s| ==> s[i].1 <= s[j].1
  }

  lemma {:induction false} SortedSnoc(t: seq<(string, int)>, q: (string, int))
    requires RankSorted(t)
    requires t != [] ==> t[|t| - 1].1 <= q.1
    ensures RankSorted(t + [q])
  {
    forall i, j | 0 <= i < j < |t| + 1
      ensures (t + [q])[i].1 <= (t + [q])[j].1
    {
      if j == |t| && i < |t| - 1 {
        assert t[i].1 <= t[|t| - 1].1;
      }
    }
  }

  lemma {:induction false} InsertByRankCorrect(s: seq<(string, int)>, p: (string, int))
    requires RankSorted(s)
    ensures RankSorted(InsertByRank(s, p))
    ensures multiset(InsertByRank(s, p)) == multiset(s) + multiset{p}
    decreases |s|
  {
    if s == [] || s[|s| - 1].1 <= p.1 {
      SortedSnoc(s, p);
    } else {
      var s' := s[..|s| - 1];
      var last := s[|s| - 1];
      assert s == s' + [last];
      assert RankSorted(s');
      InsertByRankCorrect(s', p);
      var t := InsertByRank(s', p);
      assert t != [];
      var z := t[|t| - 1];
      assert z.1 <= last.1 by {
        assert z in multiset(t);
        if z != p {
          assert z in multiset(s');
          var k :| 0 <= k < |s'| && s'[k] == z;
          assert s[k] == z;
        }
      }
      SortedSnoc(t, last);
      assert InsertByRank(s, p) == t + [last];
    }
  }

  /** The sorted list is ordered by rank and is a permutation of the input. */
  lemma {:induction false} SortByRankCorrect(x: seq<(string, int)>)
    ensures RankSorted(SortByRank(x))
    ensures multiset(SortByRank(x)) == multiset(x)
    decreases |x|
  {
    if x != [] {
      SortByRankCorrect(x[..|x| - 1]);
      InsertByRankCorrect(SortByRank(x[..|x| - 1]), x[|x| - 1]);
      assert x == x[..|x| - 1] + [x[|x| - 1]];
    }
  }

  function Names(s: seq<(string, int)>): (ns: seq<string>)
    ensures |ns| == |s|
    ensures forall i :: 0 <= i < |s| ==> ns[i] == s[i].0
  {
    if s == [] then [] else [s[0].0] + Names(s[1..])
  }

  /** The engine registrations made for `names` before the first name with
      no domain. */
  function Registrations<D>(names: seq<string>, vars: map<string, D>): seq<(string, D)>
  {
    if names == [] || names[0] !in vars then []
    else [(names[0], vars[names[0]])] + Registrations(names[1..], vars)
  }

  /** The first name with no domain, if any. */
  function FirstMissing<D>(names: seq<string>, vars: map<string, D>): Option<string>
  {
    if names == [] then None
    else if names[0] !in vars then Some(names[0])
    else FirstMissing(names[1..], vars)
  }

  /** When every name has a domain, each is registered once, in the given
      order, with its domain. */
  lemma {:induction false} RegistrationsComplete<D>(names: seq<string>, vars: map<string, D>)
    requires FirstMissing(names, vars) == None
    ensures |Registrations(names, vars)| == |names|
    ensures forall i :: 0 <= i < |names| ==> names[i] in vars && Registrations(names, vars)[i] == (names[i], vars[names[i]])
  {
    if names != [] {
      RegistrationsComplete(names[1..], vars);
    }
  }

  /** The registry of a multi-valued system: each declared name's domain,
      and the `(name, domain)` pairs handed to the engine (`self.mdd.defvar`)
      in call order. */
  class Context<D> {
    var vars: map<string, D>
    var engine: seq<(string, D)>

    constructor()
      ensures vars == map[] && engine == []
    {
      vars := map[];
      engine := [];
    }

    /** Records the domain, replacing any earlier one, and returns a leaf. */
    method Defvar(name: string, domain: D) returns (e: Expr)
      modifies this
      ensures vars == old(vars)[name := domain]
      ensures engine == old(engine)
      ensures e == Leaf(name)
    {
      vars := vars[name := domain];
      e := Leaf(name);
    }

    /** Registers the ranked names with the engine in ascending rank order;
        the first name that was never declared raises KeyError after the
        names before it have been registered. */
    method SetVarorder(x: seq<(string, int)>) returns (r: Result<()>)
      modifies this
      ensures vars == old(vars)
      ensures engine == old(engine) + Registrations(Names(SortByRank(x)), vars)
      ensures r == match FirstMissing(Names(SortByRank(x)), vars)
                   case None => Ok(())
                   case Some(n) => Err(KeyError(n))
    {
      var order := Names(SortByRank(x));
      for i := 0 to |order|
        invariant vars == old(vars)
        invariant FirstMissing(order[..i], vars) == None
        invariant engine == old(engine) + Registrations(order[..i], vars)
      {
        var name := order[i];
        RegistrationsStep(order[..i], name, order[i + 1..], vars);
        assert order[..i] + [name] + order[i + 1..] == order;
        if name !in vars {
          return Err(KeyError(name));
        }
        assert order[..i + 1] == order[..i] + [name];
        engine := engine + [(name, vars[name])];
      }
      assert order[..|order|] == order;
      r := Ok(());
    }

    /** `And(args)` with `&&`. */
    method And(args: array<Operand>) returns (r: Result<Expr>)
      modifies args
      ensures r == FoldSpec(old(args[..]), "&&")
      ensures args.Length > 0 ==> args[0] == Ex(Promote(old(args[0])))
      ensures forall i :: 1 <= i < args.Length ==> args[i] == old(args[i])
    {
      r := FoldPromote(args, "&&");
    }

    /** `Or(args)` with `||`. */
    method Or(args: array<Operand>) returns (r: Result<Expr>)
      modifies args
      ensures r == FoldSpec(old(args[..]), "||")
      ensures args.Length > 0 ==> args[0] == Ex(Promote(old(args[0])))
      ensures forall i :: 1 <= i < args.Length ==> args[i] == old(args[i])
    {
      r := FoldPromote(args, "||");
    }
  }

  /** One step of the registration loop: a declared name is registered
      next; an undeclared one ends the registrations and is the name the
      KeyError reports. */
  lemma {:induction false} RegistrationsStep<D>(done: seq<string>, name: string, rest: seq<string>, vars: map<string, D>)
    requires FirstMissing(done, vars) == None
    ensures name in vars ==> Registrations(done + [name], vars) == Registrations(done, vars) + [(name, vars[name])]
    ensures name in vars ==> FirstMissing(done + [name], vars) == None
    ensures name !in vars ==> Registrations(done + [name] + rest, vars) == Registrations(done, vars)
    ensures name !in vars ==> FirstMissing(done + [name] + rest, vars) == Some(name)
  {
    if done == [] {
      assert [name] + rest == [name] + rest;
      assert ([name] + rest)[1..] == rest;
      assert [name][1..] == [];
      assert [] + [name] + rest == [name] + rest;
      assert [] + [name] == [name];
    } else {
      assert (done + [name] + rest)[1..] == done[1..] + [name] + rest;
      assert (done + [name])[1..] == done[1..] + [name];
      RegistrationsStep(done[1..], name, rest, vars);
    }
  }
}
