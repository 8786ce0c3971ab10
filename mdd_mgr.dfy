// The variable registry and token consumer of the multi-valued manager
// (src/mdd.rs:72-159). Diagram nodes are opaque handles: the engine calls
// `gen_var`, `value`, `one` and `zero` are represented by the handle they
// would return, and `build_from_rpn` is a parameter.
module MddManager {
  import opened Wrappers
  import opened Expressions
  import opened Decimal

  /** A diagram node as the manager obtains it: `gen_var(name, level,
      range)`, `value(v)`, `one()` or `zero()`. */
  datatype Handle = VarHandle(name: string, level: nat, range: seq<int>) | ValueHandle(v: int) | OneHandle | ZeroHandle

  datatype OpKind = Add | Sub | Mul | Div | Eq | Neq | Lt | Lte | Gt | Gte | And | Or | Not | IfElse

  /** A consumer token: an operator, or an operand node. */
  datatype Token = Operator(kind: OpKind) | Value(node: Handle)

  /** The fourteen operator spellings; every other string is an operand. */
  function OperatorKind(x: string): Option<OpKind>
  {
    if x == "+" then Some(Add)
    else if x == "-" then Some(Sub)
    else if x == "*" then Some(Mul)
    else if x == "/" then Some(Div)
    else if x == "==" then Some(Eq)
    else if x == "!=" then Some(Neq)
    else if x == "<" then Some(Lt)
    else if x == "<=" then Some(Lte)
    else if x == ">" then Some(Gt)
    else if x == ">=" then Some(Gte)
    else if x == "&&" then Some(And)
    else if x == "||" then Some(Or)
    else if x == "!" then Some(Not)
    else if x == "?" then Some(IfElse)
    else None
  }

  /** The consumer's operators are exactly the operators of the shared arity
      table except the boolean front end's `&` and `|`. */
  lemma {:induction false} OperatorsMatchArity(x: string)
    ensures OperatorKind(x).Some? <==> Arity(x) > 0 && x != "&" && x != "|"
  {
  }

  /** A token that is neither an operator, nor `True`/`False`, nor an i64. */
  predicate IsNameToken(x: string)
  {
    OperatorKind(x).None? && x != "True" && x != "False" && ParseI64(x).None?
  }

  /** A classified token and the registry after classifying it. */
  datatype Step = Step(token: Token, vars: map<string, Handle>)

  /** The handle `defvar(name, range)` creates on a registry: the next level. */
  function NewVar(vars: map<string, Handle>, name: string, range: seq<int>): Handle
  {
    VarHandle(name, |vars|, range)
  }

  /** The per-token classification inside `rpn`. */
  function Classify(x: string, vars: map<string, Handle>, supplied: map<string, seq<int>>): Result<Step>
  {
    if OperatorKind(x).Some? then Ok(Step(Operator(OperatorKind(x).value), vars))
    else if x == "True" then Ok(Step(Value(OneHandle), vars))
    else if x == "False" then Ok(Step(Value(ZeroHandle), vars))
    else if ParseI64(x).Some? then Ok(Step(Value(ValueHandle(ParseI64(x).value)), vars))
    else if x in vars then Ok(Step(Value(vars[x]), vars))
    else if x in supplied then
      var h := NewVar(vars, x, supplied[x]);
      Ok(Step(Value(h), vars[x := h]))
    else Err(Panic("Unknown variable: " + x))
  }

  /** Classifying a whole token list, in order: the token list or the first
      panic, and the registry as it stands afterwards (a panic leaves the
      registrations made before it). */
  function ClassifyAll(toks: seq<string>, vars: map<string, Handle>, supplied: map<string, seq<int>>): (Result<seq<Token>>, map<string, Handle>)
  {
    if toks == [] then (Ok([]), vars)
    else
      match Classify(toks[0], vars, supplied)
      case Err(e) => (Err(e), vars)
      case Ok(step) =>
        var (rest, vars') := ClassifyAll(toks[1..], step.vars, supplied);
        (Prepend(step.token, rest), vars')
  }

  function Prepend(t: Token, r: Result<seq<Token>>): Result<seq<Token>>
  {
    match r
    case Ok(ts) => Ok([t] + ts)
    case Err(e) => Err(e)
  }

  /** The outcome of `rpn` once its tokens are classified. */
  function Finish(r: Result<seq<Token>>, build: seq<Token> -> Option<Handle>): Result<Handle>
  {
    match r
    case Err(e) => Err(e)
    case Ok(ts) => if build(ts).Some? then Ok(build(ts).value) else Err(ValueError("Invalid expression"))
  }

  /** `MddMgr`: the registry of variables by name. */
  class MddMgr {
    var vars: map<string, Handle>

    constructor()
      ensures vars == map[]
    {
      vars := map[];
    }

    /** `defvar(name, range)`: a variable at level = the number of labels
        already registered, recorded under its name. */
    method Defvar(name: string, range: seq<int>) returns (h: Handle)
      modifies this
      ensures h == VarHandle(name, |old(vars)|, range)
      ensures vars == old(vars)[name := h]
    {
      h := VarHandle(name, |vars|, range);
      vars := vars[name := h];
    }

    /** `var(name)`: the registered node, if any. */
    method Var(name: string) returns (r: Option<Handle>)
      ensures r.Some? <==> name in vars
      ensures r.Some? ==> r.value == vars[name]
    {
      if name in vars {
        r := Some(vars[name]);
      } else {
        r := None;
      }
    }

    /** `rpn(rpn, vars)`: split on whitespace, classify every token in order
        (auto-registering a supplied variable the registry lacks), then build. */
    method Rpn(rpn: string, supplied: map<string, seq<int>>, build: seq<Token> -> Option<Handle>) returns (r: Result<Handle>)
      modifies this
      ensures vars == ClassifyAll(SplitWs(rpn), old(vars), supplied).1
      ensures r == Finish(ClassifyAll(SplitWs(rpn), old(vars), supplied).0, build)
    {
      var toks := SplitWs(rpn);
      var out: seq<Token> := [];
      assert toks[0..] == toks;
      PrependAllNil(ClassifyAll(toks, vars, supplied).0);
      for i := 0 to |toks|
        invariant ClassifyAll(toks, old(vars), supplied)
               == (PrependAll(out, ClassifyAll(toks[i..], vars, supplied).0), ClassifyAll(toks[i..], vars, supplied).1)
      {
        var x := toks[i];
        assert toks[i..][0] == x && toks[i..][1..] == toks[i + 1..];
        var kind := OperatorKind(x);
        var t: Token;
        if kind.Some? {
          t := Operator(kind.value);
        } else if x == "True" {
          t := Value(OneHandle);
        } else if x == "False" {
          t := Value(ZeroHandle);
        } else if ParseI64(x).Some? {
          t := Value(ValueHandle(ParseI64(x).value));
        } else if x in vars {
          t := Value(vars[x]);
        } else if x in supplied {
          var h := Defvar(x, supplied[x]);
          t := Value(h);
        } else {
          return Err(Panic("Unknown variable: " + x));
        }
        PrependAllSnoc(out, t, ClassifyAll(toks[i + 1..], vars, supplied).0);
        out := out + [t];
      }
      assert toks[|toks|..] == [];
      PrependAllOk(out);
      r := Finish(Ok(out), build);
    }
  }

  function PrependAll(ts: seq<Token>, r: Result<seq<Token>>): Result<seq<Token>>
  {
    match r
    case Ok(rest) => Ok(ts + rest)
    case Err(e) => Err(e)
  }

  lemma {:induction false} PrependAllSnoc(ts: seq<Token>, t: Token, r: Result<seq<Token>>)
    ensures PrependAll(ts, Prepend(t, r)) == PrependAll(ts + [t], r)
  {
    if r.Ok? {
      assert ts + ([t] + r.value) == ts + [t] + r.value;
    }
  }

  lemma {:induction false} PrependAllNil(r: Result<seq<Token>>)
    ensures PrependAll([], r) == r
  {
    if r.Ok? {
      assert [] + r.value == r.value;
    }
  }

  lemma {:induction false} PrependAllOk(ts: seq<Token>)
    ensures PrependAll(ts, Ok([])) == Ok(ts)
  {
    assert ts + [] == ts;
  }

  // ---------------------------------------------------------------------------
  // What classification does to the registry

  /** The labels `rpn` registers, in order of first occurrence: name tokens
      that are neither registered nor seen before and that the supplied map
      knows; the list stops at the first unknown name, where `rpn` panics. */
  function NewNames(toks: seq<string>, known: set<string>, supplied: map<string, seq<int>>): seq<string>
  {
    if toks == [] then []
    else if IsNameToken(toks[0]) && toks[0] !in known then
      if toks[0] in supplied then [toks[0]] + NewNames(toks[1..], known + {toks[0]}, supplied) else []
    else NewNames(toks[1..], known, supplied)
  }

  lemma {:induction false} ClassifyStep(x: string, vars: map<string, Handle>, supplied: map<string, seq<int>>)
    ensures Classify(x, vars, supplied).Err? <==> IsNameToken(x) && x !in vars && x !in supplied
    ensures Classify(x, vars, supplied).Ok? && !(IsNameToken(x) && x !in vars) ==> Classify(x, vars, supplied).value.vars == vars
    ensures Classify(x, vars, supplied).Ok? && IsNameToken(x) && x !in vars
            ==> Classify(x, vars, supplied).value.vars == vars[x := VarHandle(x, |vars|, supplied[x])]
  {
  }

  lemma {:induction false} MapAddCardinality(vars: map<string, Handle>, x: string, h: Handle)
    requires x !in vars
    ensures |vars[x := h]| == |vars| + 1
  {
    assert vars[x := h].Keys == vars.Keys + {x};
  }

  function Elems(ns: seq<string>): set<string>
  {
    if ns == [] then {} else {ns[0]} + Elems(ns[1..])
  }

  /** `after` extends `before` with the labels `ns`, the i-th at level
      |before| + i with its supplied range, and changes no earlier entry. */
  predicate ExtendsWith(before: map<string, Handle>, after: map<string, Handle>, ns: seq<string>, supplied: map<string, seq<int>>)
  {
    && after.Keys == before.Keys + Elems(ns)
    && (forall x :: x in before ==> after[x] == before[x])
    && (forall i :: 0 <= i < |ns| ==>
          ns[i] !in before && ns[i] in supplied && ns[i] in after
          && after[ns[i]] == VarHandle(ns[i], |before| + i, supplied[ns[i]]))
  }

  lemma {:induction false} ExtendsWithCons(vars: map<string, Handle>, x: string, ns': seq<string>, after: map<string, Handle>, supplied: map<string, seq<int>>)
    requires x !in vars && x in supplied
    requires ExtendsWith(vars[x := VarHandle(x, |vars|, supplied[x])], after, ns', supplied)
    ensures ExtendsWith(vars, after, [x] + ns', supplied)
  {
    var v1 := vars[x := VarHandle(x, |vars|, supplied[x])];
    MapAddCardinality(vars, x, VarHandle(x, |vars|, supplied[x]));
    var ns := [x] + ns';
    assert ns[1..] == ns';
    assert Elems(ns) == {x} + Elems(ns');
    forall i | 0 <= i < |ns|
      ensures ns[i] !in vars && ns[i] in supplied && ns[i] in after
      ensures after[ns[i]] == VarHandle(ns[i], |vars| + i, supplied[ns[i]])
    {
      if i > 0 {
        assert ns[i] == ns'[i - 1];
      }
    }
  }

  lemma {:induction false} ClassifyAllStep(toks: seq<string>, vars: map<string, Handle>, supplied: map<string, seq<int>>)
    requires toks != [] && Classify(toks[0], vars, supplied).Ok?
    ensures ClassifyAll(toks, vars, supplied).1
         == ClassifyAll(toks[1..], Classify(toks[0], vars, supplied).value.vars, supplied).1
  {
  }

  lemma {:induction false} NewNamesStep(toks: seq<string>, vars: map<string, Handle>, supplied: map<string, seq<int>>)
    requires toks != [] && Classify(toks[0], vars, supplied).Ok?
    ensures var v1 := Classify(toks[0], vars, supplied).value.vars;
            NewNames(toks, vars.Keys, supplied)
            == if IsNameToken(toks[0]) && toks[0] !in vars then [toks[0]] + NewNames(toks[1..], v1.Keys, supplied)
               else NewNames(toks[1..], v1.Keys, supplied)
  {
    ClassifyStep(toks[0], vars, supplied);
    if IsNameToken(toks[0]) && toks[0] !in vars {
      assert Classify(toks[0], vars, supplied).value.vars.Keys == vars.Keys + {toks[0]};
    }
  }

  /** Registered labels keep their node (the supplied range is ignored for
      them), the new labels are exactly `NewNames`, and the i-th new label
      sits at level |vars| + i with its supplied range: levels follow first
      occurrence in the token stream. */
  lemma {:induction false} ClassifyRegisters(toks: seq<string>, vars: map<string, Handle>, supplied: map<string, seq<int>>)
    ensures ExtendsWith(vars, ClassifyAll(toks, vars, supplied).1, NewNames(toks, vars.Keys, supplied), supplied)
    decreases |toks|
  {
    if toks == [] {
      assert Elems([]) == {};
    } else if Classify(toks[0], vars, supplied).Err? {
      ClassifyStep(toks[0], vars, supplied);
      assert NewNames(toks, vars.Keys, supplied) == [];
      assert Elems([]) == {};
    } else {
      var x := toks[0];
      var v1 := Classify(x, vars, supplied).value.vars;
      var after := ClassifyAll(toks, vars, supplied).1;
      ClassifyAllStep(toks, vars, supplied);
      NewNamesStep(toks, vars, supplied);
      ClassifyStep(x, vars, supplied);
      ClassifyRegisters(toks[1..], v1, supplied);
      if IsNameToken(x) && x !in vars {
        ExtendsWithCons(vars, x, NewNames(toks[1..], v1.Keys, supplied), after, supplied);
      }
    }
  }

  /** A token that parses as an integer is a constant even when a variable
      of that name is registered or supplied. */
  lemma {:induction false} NumbersBeforeNames(x: string, vars: map<string, Handle>, supplied: map<string, seq<int>>)
    requires OperatorKind(x).None? && ParseI64(x).Some?
    ensures Classify(x, vars, supplied) == Ok(Step(Value(ValueHandle(ParseI64(x).value)), vars))
  {
    assert !IsDigit("True"[0]) && !IsDigit("False"[0]);
    assert ParseI64("True") == None && ParseI64("False") == None;
  }

  /** The boolean front end's connectives are not operators here: `&` is
      looked up as a variable name, and panics unless something named `&` is
      registered or supplied. */
  lemma {:induction false} BooleanConnectivesAreNames(vars: map<string, Handle>, supplied: map<string, seq<int>>)
    ensures IsNameToken("&") && IsNameToken("|")
    ensures "&" !in vars && "&" !in supplied ==> Classify("&", vars, supplied) == Err(Panic("Unknown variable: &"))
  {
    assert !IsDigit("&"[0]) && !IsDigit("|"[0]);
    assert ParseI64("&") == None && ParseI64("|") == None;
    assert "Unknown variable: " + "&" == "Unknown variable: &";
  }

  /** A rendered Python integer or bool reaches the engine as the matching
      constant node. */
  lemma {:induction false} RenderedScalars(i: int, vars: map<string, Handle>, supplied: map<string, seq<int>>)
    requires I64Min <= i <= I64Max
    ensures Classify(IntStr(i), vars, supplied) == Ok(Step(Value(ValueHandle(i)), vars))
    ensures Classify("True", vars, supplied) == Ok(Step(Value(OneHandle), vars))
    ensures Classify("False", vars, supplied) == Ok(Step(Value(ZeroHandle), vars))
  {
    ParseRendered(i);
    var s := IntStr(i);
    if i < 0 {
      assert |s| >= 2 && s[0] == '-' && IsDigit(s[1]);
    } else {
      assert IsDigit(s[0]);
    }
    DigitLedNotOperator(s);
    NumbersBeforeNames(s, vars, supplied);
  }

  /** No operator spelling starts with a digit, or is a minus sign followed
      by a digit. */
  lemma {:induction false} DigitLedNotOperator(s: string)
    requires |s| >= 1 && (IsDigit(s[0]) || (|s| >= 2 && s[0] == '-' && IsDigit(s[1])))
    ensures OperatorKind(s).None?
  {
  }
}
