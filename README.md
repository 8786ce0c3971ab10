# relibmss core in Dafny

This project models the core of relibmss, a reliability-analysis library. It has four parts.

1. **Python front ends** (`relibmss/bss.py`, `relibmss/mss.py`, and the prototype `tests/mss.py`). These build expression trees:
   - `_Expression` nodes;
   - operator overloads that promote bare values to leaves;
   - left folds for `And`/`Or`;
   - `Not`, `ifelse`, `kofn`, `case`/`switch`.

   They render the trees as a postfix (RPN) string. The model proves that the string is the tree's frontier. It also proves that running the postfix stream on a reference stack evaluator gives the tree's value.
2. **The MDD manager's token consumer** (`src/mdd.rs`). `rpn` splits the string on Unicode white space (the White_Space characters, ASCII and not) and maps each token:
   - an operator symbol becomes an operator token;
   - `True`/`False` become constants;
   - an `i64` literal becomes a value;
   - a known variable becomes its node;
   - a variable supplied in the dictionary is registered with `defvar` at the next level;
   - anything else panics.
3. **Decision-diagram algorithms** (`src/bdd_algo.rs`, `src/algo.rs`, `dd/src/ft.rs`):
   - probability recurrences and path counting;
   - path extraction;
   - the `without`/`minsol` construction of minimal solutions, recursive, with `without` also on explicit stacks;
   - the value-probability map of a multi-valued diagram;
   - the fault-tree `kofn`, `_and` and `_or` builders.

   Memo caches are maps threaded through the methods. Their invariant is that every entry equals the uncached value.
4. **The fault-tree manager** (`dd/src/ftnode.rs`). It holds three pieces of state:
   - an id counter stamped on every node built;
   - the event-name table used by `create`;
   - the per-gate cache of compiled diagrams.

Modules:
- `Wrappers`: `Result`, `Option` and the error kinds. Python exceptions and Rust panics are `Err` values.
- `Expressions`: trees, frontier, join, tokenizer and stack evaluator.
- `Combinators`: folds and builders.
- `Bss`, `Mss`, `Prototype`: the three front ends.
- `Decimal`: rendering and parsing of integers.
- `MddManager`: the token consumer.
- `Bdd`: ordered binary decision diagrams with a reference `Apply`.
- `BddAlgo`, `Algo`, `Ft`: the three algorithm files.
- `FaultTree`: the manager.

Decision diagrams are values; hash-consed node identity is structural equality. An assignment gives a Boolean to each level. Probabilities are `real`.

## Model

| member | source | states |
|---|---|---|
| `Expressions.SplitJoin` | src/mdd.rs:91-93 | Splitting on Unicode white space the single-space join of tokens free of it gives back the tokens. |
| `Expressions.SplitsUnicodeSpace` | src/mdd.rs:92-93 | A no-break space (U+00A0) and an ideographic space (U+3000) separate tokens as a space does. |
| `Expressions.PostfixRoundTrip` | relibmss/bss.py:3-13 | Running the frontier of a well-formed tree on the stack evaluator leaves exactly the tree's value on the stack. |
| `Expressions.RenderedRoundTrip` | src/mdd.rs:91-158 | A rendered tree, once split by the consumer and run, yields the tree's value. |
| `Combinators.FoldPromote` | relibmss/bss.py:64-75 | The result is `AssertionError` on an empty list, else the left-nested chain of the promoted arguments. `args[0]` is promoted in place; the other elements are untouched. |
| `Combinators.BuildersArePostfix` | relibmss/bss.py:90-102 | `Not`, `ifelse` and a binary operator put their operator last. They evaluate to that operator applied to the promoted operands. |
| `Combinators.ChainWellFormed` | relibmss/mss.py:100-105 | A fold of well-formed trees with a binary operator is well formed. |
| `Combinators.ChainConjunction` | relibmss/bss.py:70-75 | An `&` fold is true iff the first tree and every other tree are true. |
| `Combinators.ChainDisjunction` | relibmss/bss.py:83-88 | An `\|` fold is true iff the first tree or some other tree is true. |
| `Combinators.ChainFrontier` | relibmss/mss.py:113-118 | A fold's postfix is the first operand's postfix, then each further operand's postfix followed by the operator. |
| `Combinators.ChainSpine` | relibmss/mss.py:98-105 | A fold has a fixed left-nested shape: one operator node per further argument on its left spine. |
| `Combinators.ChainOver` | relibmss/bss.py:70-75 | The loop over `args[1:]` gives the left-nested chain of the first argument and the promoted rest. |
| `Combinators.Not` | relibmss/bss.py:90-93 | `Not` builds the promoted argument followed by `!`; `BuildersArePostfix` states its postfix and value. |
| `Combinators.IfElse` | relibmss/bss.py:95-102 | `ifelse` builds the three promoted operands followed by `?`; `BuildersArePostfix` states its postfix and value. |
| `Combinators.Binary` | relibmss/bss.py:19-27 | An overloaded operator builds the expression, the promoted other operand and the symbol; `BuildersArePostfix` states its postfix and value. |
| `Bss.ToRpn` | relibmss/bss.py:3-13 | The explicit-stack loop emits exactly the tree's frontier, joined by single spaces. |
| `Bss.PushReversed` | relibmss/bss.py:9-10 | Pushing the children last to first puts their frontiers, first child first, ahead of what the stack already held, and adds exactly their sizes to the work left. |
| `Bss.Context.constructor` | relibmss/bss.py:40-42 | No variables are declared and no engine call has been made. |
| `Bss.Context.Defvar` | relibmss/bss.py:44-46 | Adds the name to the variable set and returns its leaf. |
| `Bss.Context.SetVarorder` | relibmss/bss.py:48-50 | Declares the names to the engine in the order given. |
| `Bss.Context.And` | relibmss/bss.py:64-75 | The `&` fold, with the empty-list assertion and the write-back of `args[0]`. |
| `Bss.Context.Or` | relibmss/bss.py:77-88 | The `\|` fold, with the empty-list assertion and the write-back of `args[0]`. |
| `Bss.Const` | relibmss/bss.py:61-62 | A constant is a single token, well formed iff that token is not an operator. |
| `Bss.OperatorsBuildConnectives` | relibmss/bss.py:19-27 | `a & b` and `a \| b` are conjunction and disjunction of the operands, rendered as their postfix then the symbol. |
| `Bss.FoldOrCounts` | relibmss/bss.py:106-107 | `Or` of a non-empty list is true iff at least one argument is true. |
| `Bss.FoldAndCounts` | relibmss/bss.py:108-109 | `And` of a non-empty list is true iff all arguments are true. |
| `Bss.KofN` | relibmss/bss.py:104-111 | `kofn`'s expression or failure; it can succeed only for 1 <= k <= n. |
| `Bss.Context.Kofn` | relibmss/bss.py:104-111 | Returns `kofn`'s value. When the top-level `Or`/`And` gets past its assertion, the caller's `args[0]` becomes its promotion; otherwise the list keeps its contents. Elements after the first never change. |
| `Bss.KofNAtLeast` | relibmss/bss.py:104-111 | For 1 <= k <= n, `kofn(k, args)` succeeds and is true iff at least k arguments are true. |
| `Bss.KofNNonPositive` | relibmss/bss.py:104-111 | A k of 0 or below always ends in an error. |
| `Bss.TwoOutOfThree` | relibmss/bss.py:104-111 | `kofn(2, [x, y, z])` is true iff some two of x, y, z are true. |
| `Mss.Render` | relibmss/mss.py:57-65 | `to_rpn`/`__str__`: a scalar as itself, a tuple as the space-join of its children; `RenderIsFrontier` relates it to the frontier. |
| `Mss.RenderIsFrontier` | relibmss/mss.py:57-65 | For trees with no empty tuple, the recursive rendering equals the single-space join of the frontier. |
| `Mss.RenderedPostfix` | relibmss/mss.py:62-65 | `to_rpn` of a well-formed tree, split and run on the stack evaluator, gives the tree's value. |
| `Mss.OperatorsBuildNodes` | relibmss/mss.py:7-55 | Each comparison or arithmetic operator builds (self, promoted other, symbol). Symbols are binary and pairwise distinct, and well-formedness is preserved. |
| `Mss.DefaultCaseRendersNone` | relibmss/mss.py:134-136 | A case without a condition has the leaf `None` as its condition. |
| `Mss.Switch` | relibmss/mss.py:141-151 | `switch`'s right fold into `?` nodes, or its assertion and `ValueError` failures; the lemmas below state what it means. |
| `Mss.SwitchSucceeds` | relibmss/mss.py:141-150 | `switch` succeeds iff it has at least two elements and all are cases. |
| `Mss.SwitchFailures` | relibmss/mss.py:142-149 | The assertion fails on fewer than two elements or on a non-case in a two-element list. A non-case at the head of a longer list raises the `ValueError`. |
| `Mss.SwitchIgnoresLastCondition` | relibmss/mss.py:143-145 | The condition of the last case never affects the result. |
| `Mss.IfElseSelects` | relibmss/mss.py:125-132 | Under a conditional reading of `?`, `ifelse` selects its then- or else-value by the condition. |
| `Mss.SwitchFirstMatch` | relibmss/mss.py:141-150 | A switch over well-formed cases evaluates to the value of the first case whose condition holds; the last case is the default. |
| `Mss.ThreeArmScenario` | relibmss/mss.py:141-150 | Three arms (both, either, default) over two 0/1 variables give 0, 1 and 2 in those situations. |
| `Mss.SortByRankCorrect` | relibmss/mss.py:82 | `sorted(x, key=x.get)` is ordered by rank and a permutation of the entries. |
| `Mss.RegistrationsComplete` | relibmss/mss.py:81-83 | When every sorted name is declared, each is registered with its domain, in rank order. |
| `Mss.Context.constructor` | relibmss/mss.py:73-75 | No variables are declared and no engine call has been made. |
| `Mss.Context.Defvar` | relibmss/mss.py:77-79 | Maps the name to its domain (overwriting) and returns its leaf. |
| `Mss.Context.SetVarorder` | relibmss/mss.py:81-83 | Registers the names in rank order up to the first undeclared one, which raises `KeyError`. |
| `Mss.Context.And` | relibmss/mss.py:94-105 | The `&&` fold, with the empty-list assertion and the write-back of `args[0]`. |
| `Mss.Context.Or` | relibmss/mss.py:107-118 | The `\|\|` fold, with the empty-list assertion and the write-back of `args[0]`. |
| `Prototype.Context.constructor` | tests/mss.py:4-6 | No variables are declared. |
| `Prototype.Context.Var` | tests/mss.py:8-10 | Maps the name to its domain and returns its leaf. |
| `Prototype.Fold` | tests/mss.py:86-89 | The loop builds the left-nested chain. An empty list raises `IndexError`, because there is no assertion. |
| `Prototype.And` | tests/mss.py:83-89 | The `&&` chain, or `IndexError` on an empty list. |
| `Prototype.Or` | tests/mss.py:91-97 | The `\|\|` chain, or `IndexError` on an empty list. |
| `Prototype.AgreesWithLibrary` | tests/mss.py:99-103 | On expression arguments the prototype's folds, `Not` and `IfThenElse` build what the library builds; only the empty-list error differs. |
| `Prototype.Not` | tests/mss.py:99-100 | The prototype's `Not` builds the argument followed by `!`, without promotion. |
| `Prototype.IfThenElse` | tests/mss.py:102-103 | The prototype's `IfThenElse` builds the three arguments followed by `?`, without promotion. |
| `Prototype.ScenarioRendering` | tests/mss.py:113-116 | The scenario renders as `x 1 >= y 1 <= && z 0 == &&`, and the hand-written RPN of the same run is a prefix of it. |
| `Decimal.ParseRendered` | src/mdd.rs:125-133 | Parsing the decimal rendering of an `i64` gives the number back. |
| `MddManager.OperatorsMatchArity` | src/mdd.rs:95-109 | The consumer maps exactly the operator symbols of the front ends, except `&` and `\|`. |
| `MddManager.MddMgr.constructor` | src/mdd.rs:47-52 | The variable table starts empty. |
| `MddManager.MddMgr.Defvar` | src/mdd.rs:72-81 | Registers the name at the level equal to the table's size and returns its handle. |
| `MddManager.MddMgr.Var` | src/mdd.rs:83-89 | Returns the registered handle iff the name is registered. |
| `MddManager.MddMgr.Rpn` | src/mdd.rs:91-159 | Classifies the tokens in order, registering new supplied names as it goes, then hands them to the builder. An unknown name panics; a failed build is `Invalid expression`. |
| `MddManager.Classify` | src/mdd.rs:95-147 | One token: an operator, a constant, an `i64` value, a registered variable, a newly registered supplied variable, or the unknown-variable panic. |
| `MddManager.ClassifyAll` | src/mdd.rs:92-150 | The token loop: the tokens in order or the first panic, and the registry it leaves. |
| `MddManager.ClassifyStep` | src/mdd.rs:124-145 | A token fails iff it is a name that is neither registered nor supplied. Only a new supplied name changes the table, which it extends at the next level. |
| `MddManager.ClassifyRegisters` | src/mdd.rs:134-145 | After the token loop, the table is the old one plus each new supplied name, in first-occurrence order, at consecutive levels from the old size. |
| `MddManager.NumbersBeforeNames` | src/mdd.rs:125-133 | A token that parses as `i64` is a value, even when a variable of that name exists. |
| `MddManager.BooleanConnectivesAreNames` | src/mdd.rs:134-145 | `&` and `\|` are not operators to the consumer; unless supplied, they panic as unknown variables. |
| `MddManager.RenderedScalars` | src/mdd.rs:110-133 | A rendered `i64`, `True` and `False` become the value and constant tokens. |
| `Bdd.NotEval` | dd/src/ft.rs:105 | `not` negates the Boolean function. |
| `Bdd.ApplyEval` | dd/src/ft.rs:28 | `and`/`or` compute the conjunction/disjunction of the two functions. |
| `Bdd.IteEval` | dd/src/ft.rs:20 | `ite(c, t, e)` is t where c holds and e elsewhere. |
| `BddAlgo.Prob` | src/bdd_algo.rs:15-43 | The recurrence of `prob`: Zero is 0, One is 1, a node weighs its children by 1 - p and p; `ProbBounds` and `ProbNot` state its meaning. |
| `BddAlgo.ProbBounds` | src/bdd_algo.rs:28-37 | With probabilities in [0, 1], `prob` lies in [0, 1]. |
| `BddAlgo.ProbNot` | src/bdd_algo.rs:28-37 | The probability of the negation is one minus the probability. |
| `BddAlgo.ProbMemo` | src/bdd_algo.rs:15-43 | The cached recursion returns the recurrence's value and keeps every cache entry equal to it. |
| `BddAlgo.CountSet` | src/bdd_algo.rs:254-273 | The count of `count_set`; `PathsCount` shows it is the number of paths `extract` lists. |
| `BddAlgo.Paths` | src/bdd_algo.rs:275-287 | The lists `extract` appends, one per One-path, high branch first; `PathsCount` and `PathsExtendPrefix` state their number and content. |
| `BddAlgo.CountSetMemo` | src/bdd_algo.rs:254-273 | The cached recursion returns the number of paths to One and keeps its cache exact. |
| `BddAlgo.PathsCount` | src/bdd_algo.rs:254-287 | `extract` lists exactly `count_set` paths. |
| `BddAlgo.PathsExtendPrefix` | src/bdd_algo.rs:275-287 | Every listed path extends the current prefix, and only by labels of the diagram. |
| `BddAlgo.PathCollector.Extract` | src/bdd_algo.rs:275-287 | Appends one list per One-path, high branch first, and restores `path`. |
| `BddAlgo.WithoutAsWritten` | src/bdd_algo.rs:206-252 | `bdd_without` as written, with the One arm rebuilding g's header over both children. On ordered inputs the result is ordered and no higher than either input. |
| `BddAlgo.MinSolAsWritten` | src/bdd_algo.rs:45-69 | `minsol` over `bdd_without` as written: ordered on an ordered input, and no higher than it. |
| `BddAlgo.MinSolAsWrittenKeepsSuperset` | src/bdd_algo.rs:220-224 | For c ∨ (a ∧ b), `minsol` as written has a path that sets c and b, although c alone satisfies the diagram. |
| `BddAlgo.Without` | src/bdd_algo.rs:206-252 | With the One arm following g's low child, ordered inputs give an ordered result no higher than either input. |
| `BddAlgo.WithoutPaths` | src/bdd_algo.rs:206-252 | On ordered inputs, a set of high levels is a path of `without(f, g)` iff it is a path of f and does not satisfy g. |
| `BddAlgo.WithoutImplies` | src/bdd_algo.rs:216-249 | Every assignment the result accepts is accepted by f. |
| `BddAlgo.WithoutMemo` | src/bdd_algo.rs:206-252 | The cached recursion, with every arm as written, returns `WithoutAsWritten` and keeps its pair-keyed cache exact. |
| `BddAlgo.MinSol` | src/bdd_algo.rs:45-69 | `minsol` of an ordered diagram is ordered and no higher than it. |
| `BddAlgo.MinSolPaths` | src/bdd_algo.rs:45-69 | On an ordered diagram, a set of levels is a path of `minsol`'s result iff setting exactly those levels satisfies the diagram and dropping any one of them falsifies it. |
| `BddAlgo.MinSolImplies` | src/bdd_algo.rs:55-63 | The minimal solutions are solutions. |
| `BddAlgo.MinSolMemo` | src/bdd_algo.rs:45-69 | With both caches, in the source's call order, it returns `MinSolAsWritten` and keeps both caches exact. |
| `BddAlgo.WithoutStack` | src/bdd_algo.rs:126-204 | The two-stack loop as written (its One arm pushing g's header and both of g's children) returns the same node as the recursive `bdd_without`, ends with one result so the final panic is unreachable, and writes only exact cache entries. |
| `Algo.ZeroProb` | src/algo.rs:29-63 | The recurrence of `_prob`: Zero is 1, One is 0, a node weighs its children by p and 1 - p; `ZeroProbDual` relates it to `BddAlgo.Prob`. |
| `Algo.ZeroProbDual` | src/algo.rs:48-57 | Computing from Zero with weights (p, 1-p) is one minus the One-based `prob` under complemented probabilities. |
| `Algo.ZeroProbMemo` | src/algo.rs:29-63 | The cached recursion returns the recurrence's value and keeps its cache exact. |
| `Algo.Prob` | src/algo.rs:15-27 | `prob` with a fresh cache is the Zero-based recurrence. |
| `Algo.Extract` | src/algo.rs:91-109 | Lists the One-paths, high branch first, `count_set` of them. |
| `Algo.AddScaledTotal` | src/algo.rs:176-183 | Adding fp[i] times a child's map into the accumulator adds fp[i] times that map's total to the accumulator's total. |
| `Algo.AddInto` | src/algo.rs:176-183 | The loop over the child's entries adds the scaled entries, or panics when fp has no entry i for a non-empty child map. |
| `Algo.VProb` | src/algo.rs:146-193 | The reference value of `_vmddprob`, panics included; `VProbKeys`, `CoveredOk` and `VProbTotal` state its meaning. |
| `Algo.VmddProbMemo` | src/algo.rs:146-193 | The cached recursion returns the reference value (or its panic) and, on success, keeps its cache exact. |
| `Algo.VProbKeys` | src/algo.rs:146-193 | The map's keys are exactly the terminal values reachable from the node. |
| `Algo.CoveredOk` | src/algo.rs:172-185 | If every reachable label has a vector with an entry per child, nothing panics. |
| `Algo.VProbTotal` | src/algo.rs:146-193 | With one probability per child summing to 1 and no `Undet` reachable, the map's values sum to 1. |
| `Algo.VmddProb` | src/algo.rs:132-144 | `vmddprob` with a fresh cache is the reference value. |
| `Algo.MddProb` | src/algo.rs:114-130 | A value diagram goes to `vmddprob`; any other root panics with `Not implemented yet`. |
| `Ft.FoldConj` | dd/src/ft.rs:25-31 | A conjunction fold holds iff the accumulator and every node hold. |
| `Ft.FoldDisj` | dd/src/ft.rs:33-39 | A disjunction fold holds iff the accumulator or some node holds. |
| `Ft.And` | dd/src/ft.rs:25-31 | The loop folds from `one`; the result holds iff all nodes hold, so an empty list gives `one`. |
| `Ft.Or` | dd/src/ft.rs:33-39 | The loop folds from `zero`; the result holds iff some node holds, so an empty list gives `zero`. |
| `Ft.KofN` | dd/src/ft.rs:13-23 | `kofn`'s gate or its panics; `KofNAtLeast`, `KofNBuilds` and `KofNOrdered` state its meaning. |
| `Ft.KofNAtLeast` | dd/src/ft.rs:13-23 | For 1 <= k <= n, `kofn` builds and holds iff at least k inputs hold. |
| `Ft.KofNBuilds` | dd/src/ft.rs:13-23 | `kofn` builds iff k = 1, k = n, or 0 < k < n. Otherwise the k - 1 underflow or the empty slice panics. |
| `Ft.KofNOrdered` | dd/src/ft.rs:13-23 | Built from ordered diagrams, the gate is ordered. |
| `Ft.WithoutAsWritten` | dd/src/ft.rs:96-127 | `without` as written; only the Findings row uses it. |
| `Ft.WithoutAsWrittenBreaksOrder` | dd/src/ft.rs:111-115 | As written, `without(a, b)` with a below b is unordered, and false where a holds and b does not. |
| `Ft.Without` | dd/src/ft.rs:96-127 | With the f-below-g arm under g's header, ordered inputs give an ordered result no higher than either input. |
| `Ft.WithoutEval` | dd/src/ft.rs:101-121 | `without(f, g)` holds exactly where f holds and g does not. |
| `Ft.WithoutMemo` | dd/src/ft.rs:96-127 | The cached recursion returns `without` and keeps its cache exact. |
| `Ft.MinSol` | dd/src/ft.rs:75-94 | `_minsol` of an ordered diagram is ordered and no higher than it. |
| `Ft.MinSolImplies` | dd/src/ft.rs:80-88 | The minimal solutions are solutions. |
| `Ft.MinSolMinimal` | dd/src/ft.rs:80-88 | On an ordered diagram, turning off any level that the diagram reads as true under an accepted assignment falsifies the diagram. |
| `Ft.MinSolKeepsSuperset` | dd/src/ft.rs:80-105 | For c ∨ (a ∧ b), the result has a path that sets c and b, although c alone satisfies the diagram. |
| `Ft.MinSolMemo` | dd/src/ft.rs:75-94 | With both caches, in the source's call order, it returns `_minsol` and keeps both caches exact. |
| `Ft.MinimalSolutions` | dd/src/ft.rs:69-73 | `minsol` with fresh caches gives an ordered result for an ordered input and accepts only solutions, each minimal over the levels the input reads under it. |
| `Ft.Extract` | dd/src/ft.rs:129-147 | Lists one path per One-path, high branch first: `count_set` of them, holding only labels of the diagram. |
| `FaultTree.FTMgr.constructor` | dd/src/ftnode.rs:52-58 | The counter is 0 and both maps are empty. |
| `FaultTree.FTMgr.Basic` | dd/src/ftnode.rs:64-69 | Stamps the node with the counter, then increments the counter; ids stay distinct and in creation order. |
| `FaultTree.FTMgr.Repeat` | dd/src/ftnode.rs:71-76 | Stamps and increments, as for basic events. |
| `FaultTree.FTMgr.And` | dd/src/ftnode.rs:78-83 | Stamps and increments, keeping the arguments. |
| `FaultTree.FTMgr.Or` | dd/src/ftnode.rs:85-90 | Stamps and increments, keeping the arguments. |
| `FaultTree.FTMgr.KofN` | dd/src/ftnode.rs:92-97 | Stamps and increments, keeping k and the arguments. |
| `FaultTree.FTMgr.AndOp` | dd/src/ftnode.rs:253-257 | `a & b` is a new two-argument AND gate with a fresh id, rendered as `a & b`. |
| `FaultTree.FTMgr.OrOp` | dd/src/ftnode.rs:259-263 | `a \| b` is a new two-argument OR gate with a fresh id, rendered as `a \| b`. |
| `FaultTree.FTMgr.FtKofn` | dd/src/ftnode.rs:271-275 | An empty argument list panics on `args[0]` and builds nothing; otherwise a new k-of-n gate is built. |
| `FaultTree.FTMgr.Create` | dd/src/ftnode.rs:99-131 | Compiles the tree as the reference compilation does. A basic event gets `n_u` (u names already recorded) and records it; a repeated event is `n` and is recorded once. A name the engine does not know panics at `unwrap` before anything is recorded. |
| `FaultTree.FTMgr.CreateGate` | dd/src/ftnode.rs:132-176 | A cached gate returns its diagram; otherwise its arguments are compiled in order, combined, and cached under the gate's id. |
| `FaultTree.Compile` | dd/src/ftnode.rs:99-178 | The reference compilation of `create`: the diagram, the `unwrap` panic of an unknown variable or a k-of-n panic, and the maps afterwards; the lemmas below state its discipline. |
| `FaultTree.CompileEvent` | dd/src/ftnode.rs:103-131 | An event compiles to the engine's variable of its name, a basic event appending its new name and a repeated one recording itself once; an unknown variable panics and records nothing. |
| `FaultTree.GateOf` | dd/src/ftnode.rs:141-171 | AND, OR and k-of-n gates combine with `_and`, `_or` and `kofn`. |
| `FaultTree.CompileExtends` | dd/src/ftnode.rs:99-178 | Compiling keeps every cached gate and extends every event's name list. |
| `FaultTree.CompileCached` | dd/src/ftnode.rs:132-176 | Recompiling a compiled gate returns the same diagram and changes nothing, so no new names are issued. |
| `FaultTree.CompileWellNamed` | dd/src/ftnode.rs:103-131 | Compiling keeps the invariant that each recorded name is the event itself (first) or `n_i` at position i. |
| `FaultTree.BasicNameFresh` | dd/src/ftnode.rs:106-109 | Under that invariant, the name issued for a basic event was not recorded for it before. |
| `FaultTree.Repr` | dd/src/ftnode.rs:243-251 | `__repr__`: an event's name, or the arguments joined by ` & ` or ` \| `, with a `k of ` prefix for k-of-n. |
| `FaultTree.ReprPair` | dd/src/ftnode.rs:243-251 | A two-argument AND/OR gate renders as its operands around ` & ` / ` \| `. |

## Left out

- Evaluation dispatch: bss.py `getbdd`/`prob`/`bmeas`/`mpvs`, and mss.py `getmdd`/`prob`/`mvs`. They forward the rendered string to native objects whose code is not part of this model. The interval wrappers construct a foreign `Interval` type.
- Internals of the `dd` crate: node creation, `ite`/`and`/`or`/`not`, `setdiff`, `var`, `build_from_rpn`, `dot`, `size`.
  - `Bdd.Apply` gives the logical operations their meaning on ordered diagrams.
  - Node creation is the `NT` constructor, with no reduction.
  - `build_from_rpn` is the parameter `build` of `MddManager.MddMgr.Rpn`.
  - `var(name)` is the parameter `bddVar` of `FaultTree.FTMgr.Create`, a lookup that gives None for a name the engine does not know; the engine's variable table itself is not modelled.
- src/algo.rs `_minsol` (lines 65-89): it is built on `setdiff`, which is not part of this model.
- dd/src/ft.rs `prob` (lines 42-67): it is fixed to `f64`; its recurrence is the one of `Algo.ZeroProb` over `real`.
- Floating point: every probability is a `real`, so rounding is not modelled.
- pyo3 bindings and `Rc`/`Weak`/`RefCell` ownership.
  - Nodes do not carry their manager. `__and__`, `__or__` and `ftkofn` are methods of the manager that owns the first operand.
  - In `FTMgr::create` a `borrow_mut` of the event or cache map is still alive in the match scrutinee when the `None` arm borrows again (dd/src/ftnode.rs:104/116, 122/127, 133/142). At run time this panics with a double borrow. The model performs the intended map updates instead.
- The commented-out `minsol_stack` in src/bdd_algo.rs.
- BddAlgo.WithoutMemo, BddAlgo.MinSolMemo, BddAlgo.WithoutStack: these model the cached and stack code as written, so they return `WithoutAsWritten`/`MinSolAsWritten`. The corrected One arm of the second Findings row is stated on the recursive `BddAlgo.Without` and `BddAlgo.MinSol` only; no corrected cached or stack version is given.
- Rendering, printing and display, including the graphviz code of examples/ex6.py.
- HashMap iteration order: `Algo.AddInto` visits the child's keys in an arbitrary order. The sum does not depend on it.
- Algo.VmddProbMemo: after a panic the cache contents are not specified, because a panic ends the program.
- Ft.KofNBuilds: k = 0 with inputs reports the debug-build `attempt to subtract with overflow`. A release build wraps k - 1 and fails later on the empty slice; either way the gate does not build.
- Mss.ThreeArmScenario: a two-variable, three-arm switch in the style of examples/ex6.py, not that file's four-arm gates over three-valued variables.
- BddAlgo.WithoutImplies: one direction only, on assignments. `bdd_without` follows only g's low child when f lies below g, so it is not the Boolean difference f and not g; its exact statement is about paths, in `BddAlgo.WithoutPaths`.
- Ft.MinimalSolutions: minimal only over the levels the input reads under an accepted assignment. In the reading of paths, ft.rs `_minsol` keeps non-minimal sets: `Ft.MinSolKeepsSuperset` shows one for c ∨ (a ∧ b). Its `not(g)` for f = One is the arm the Findings row on src/bdd_algo.rs corrects there. The Ft model keeps ft.rs's Boolean difference, apart from the order fix, because every other arm of it computes that difference.
- Semantic properties of the compiled fault tree as a whole: each occurrence of a basic event becomes a fresh variable, so the compiled diagram is not a function of the tree alone. The model proves the naming and caching discipline instead.

## Findings

| source | as written | input that shows it | evidently intended | confidence | as-written member | corrected member |
|---|---|---|---|---|---|---|
| dd/src/ft.rs:111-115 | When f lies below g, both children are built from g's cofactors, but the node is rebuilt under f's header. | f = a at level 1 (low Zero, high One), g = b at level 2 (low Zero, high One): the result has a child at its own level 1, and it is false at a = 1, b = 0, although f holds there and g does not. | Rebuild under g's header, so that `without(f, g)` is f and not g as in every other arm. With that, every assignment `_minsol` accepts is a solution, minimal over the levels the input reads under it. | high for the order violation, proved about the model; not executed | `Ft.WithoutAsWrittenBreaksOrder` | `Ft.Without` |
| src/bdd_algo.rs:220-224 | `bdd_without(One, g)` for a non-terminal g rebuilds g's header over `bdd_without(One, g.lo)` and `bdd_without(One, g.hi)`, which is not(g). Its paths through g's high edges survive into `minsol`. | c ∨ (a ∧ b) with c at level 3, b at 2, a at 1: `minsol` has a path setting c and b, although c alone satisfies the diagram. | Follow g's low child only, as the arm for f below g does: One holds only the empty solution, and it is removed only when g's all-low path reaches One. With that, the paths of `minsol` are exactly the minimal solutions of an ordered diagram. The same arm of `bdd_without_stack` (lines 166-170) needs the same change; `BddAlgo.WithoutStack` models that loop as written and returns `WithoutAsWritten`. | high, proved about the model; not executed | `BddAlgo.MinSolAsWrittenKeepsSuperset` | `BddAlgo.MinSolPaths` |
