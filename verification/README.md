# A model of the PL/pgSQL compiler and the interpreter it must agree with

The repository compiles PL/pgSQL functions to machine code and keeps the interpreter beside it. This project
models both sides and proves that they mean the same, and that the stacks, caches and tables they share keep
their invariants over every run. Where the code departs from the interpreter or from its own documentation, the
model follows the code; a lemma shows the departure and another says exactly when there is none.

Files, from the compiler outwards:

- `Cfg.dfy`: control-flow graphs under construction, shared by the compilers. `Words.dfy`: int4 wrap-around.
- `Tier1Expr.dfy`: int4/int8/boolean expressions, the classifier and their strict meaning. `Tier1Machine.dfy`,
  `Tier1Emit.dfy`: the instructions emitted and what each emitted piece does. `Tier1Arith.dfy`, `Tier1Value.dfy`,
  `Tier1Nulls.dfy`, `Tier1Stmts.dfy`: arithmetic, values, NULL tests, assignments and conditions.
- `Tier2Expr.dfy`, `Tier2Code.dfy`, `Tier2Scopes.dfy`: direct function calls with three-valued AND/OR/NOT,
  allocation scopes.
- `ControlRef.dfy`: statements with labelled exits, row loops and exception blocks, their structured meaning and
  the resources they hold. `ControlInterp.dfy`: the interpreter's return codes. `ControlMachine.dfy`,
  `ControlCompile.dfy`: the graph compiled for statements and the machine that runs it. `ControlEmitter.dfy`: the
  compiler's mutable context. `ControlSim.dfy`, `ControlTheorem.dfy`: the graph does what the statements mean.
  `ControlEffects.dfy`, `ControlAgree.dfy`: what a run does and which of its changes last; where the compiled and
  the interpreted reading of statements agree and where they part.
- `PlainArrays.dfy`, `Mirrors.dfy`, `NativeRuns.dfy`, `NativeMemory.dfy`: arrays mirrored in flat memory.
- `Marking.dfy`, `MarkedRuns.dfy`, `MarkedControl.dfy`: which assignment targets may give their value away.
- `Econtexts.dfy`, `Mcontexts.dfy`: expression contexts, statement memory contexts and error data.
- `RowMoves.dfy`, `Loops.dfy`: row assignment, the integer loop, the batched row loop.
- `Datums.dfy`, `Workspace.dfy`, `FunctionCache.dfy`: the datum table, the per-call workspace, the function cache.

Conditions, fetched rows, errors, the catalog, casts, called functions and clocks come in as parameters: an oracle
answers what each evaluation yields, and every theorem holds for all oracles. Statement semantics and interpreter
methods count loop passes so that they are defined on all programs; the theorems about compiled code are stated
for runs of any length, and for runs without end.

## What was found

- Compiled exception blocks evaluate their DECLARE defaults inside their own frame
  (`common/upl_compile_stmts.c:535-553`), the interpreter before it (`common/upl_exec.c:2225-2370`). If a default
  raises an error one of the block's own handlers names, compiled code runs the handler where the interpreter lets
  the error escape (`OwnHandlerRuns`, `OwnHandlerCatches`). A block shows the difference in some run exactly when it
  evaluates an initialiser and has a handler that catches something (`InitialiseInsideFrame`).
- For the same reason what such a default changed in the database is undone, compiled, when a handler of the block
  handles an error of its body (`common/upl_runtime.c:1079`, `common/upl_runtime.c:1209`); interpreted, it lasts. The
  same changes last exactly when the block evaluated no initialiser (`CaughtUndoes`, `DefaultUndone`).
- The compiled row loop sets FOUND only in its exit block, so not when it is left by RETURN or for an outer
  construct; the interpreter does on every way out but an error (`RowLoopFound`, `FoundMissing`). The compiled
  integer FOR loop likewise, and it does not check its step (`BothLoops`, `LeftForOutside`, `StepUnchecked`).
- A DECLARE default is evaluated without marshalling native arrays first, so it can read an array as it was before
  an element write (`InitSees`, `DefaultReadsStale`).
- A DECLARE default that raises has already set its variable to NULL, but flat memory is not reloaded: a handler of
  the same block still reads the old elements, and the next marshalling restores the old array (`DefaultRaises`).
- SELECT INTO reloads only its first 64 targets, and none if it raises part way (`IntoUnreloaded`).
- A native append at subscript 2147483647 succeeds where PostgreSQL raises (`WriteExact`, `AppendParts`).
- Compiled Tier 1 and Tier 2 assignments store NULL into a variable declared NOT NULL, where the interpreter raises
  (`AssignExact`, `NullStored`, `StoreExact`, `NullKept`). A Tier 1 assignment with a NULL operand stores NULL even
  where evaluation would have raised first (`ErrorPassedOver`).
- Tier 2 code evaluates every operand of AND and OR, the interpreter only up to the first that decides
  (`common/upl_compile_expr.c:3142-3190`): `x <> 0 AND 10 / x > 1` raises compiled when x is 0. The two end alike
  exactly unless the interpreter passes over an operand that raises (`EvalDeparts`, `ConditionExact`, `StoreExact`,
  `HiddenRaises`).

## Model

| member | source | states |
|---|---|---|
| `Tier1Expr.NullExactlyFromLeaves` | common/upl_compile_expr.c:832-857 | for every tree the classifier accepts, strict evaluation that does not raise gives NULL exactly when some leaf is NULL |
| `Tier1Expr.ResultInRange` | common/upl_compile_expr.c:1157-1357 | the class the classifier gives an integer tree bounds every value the tree can have |
| `Tier1Expr.DivRange` | common/upl_compile_expr.c:1886-1984 | a quotient leaves its width exactly for the minimum divided by -1, the one case the emitted guard tests |
| `Tier1Expr.DivMeans` | common/upl_compile_expr.c:1886-1984 | the value of a / b and of a % b are q and r with a = q * b + r, r smaller than b in size and 0 or of the sign of a; a zero divisor is an error of both, a quotient out of range one of division |
| `Tier1Expr.TruncOnce` | common/upl_compile_expr.c:1886-1984 | only one such pair exists |
| `Tier1Expr.HoldsMeans` | common/upl_compile_expr.c:2471-2610 | the six comparisons in terms of equality and less-than, and these in terms of the difference |
| `Tier1Expr.SignaturesKept` | common/upl_compile_expr.c:1157-1357 | operators are accepted exactly on operands of their declared types, cross-width ones included |
| `Tier1Machine.UndefinedExactly` | common/upl_compile_expr.c:1905-1935 | the machine's division and remainder are undefined exactly for a zero divisor and the minimum divided by -1, which the theorems below never reach |
| `Tier1Arith.CheckedRuns` | common/upl_compile_expr.c:1844-1883 | emitted add, subtract and multiply give the exact result or raise out of range, exactly when it does not fit |
| `Tier1Arith.DivRuns` | common/upl_compile_expr.c:1886-1984 | emitted division truncates toward zero, raises division by zero before out of range, and never executes an undefined division |
| `Tier1Arith.ModRuns` | common/upl_compile_expr.c:1886-1984 | emitted modulo gives the truncating remainder, 0 for divisor -1, without an undefined remainder |
| `Tier1Arith.NegRuns` | common/upl_compile_expr.c:1985-2009 | emitted negation raises exactly on the minimum |
| `Tier1Arith.AbsRuns` | common/upl_compile_expr.c:2010-2033 | emitted absolute value raises exactly on the minimum |
| `Tier1Value.IntRuns` | common/upl_compile_expr.c:2047-2227 | with no NULL leaf the value code of every accepted int4/int8 tree delivers what strict left-to-right evaluation gives, by as many arithmetic operations as the tree has, or raises the same error |
| `Tier1Nulls.ReadNullRuns` | common/upl_compile_expr.c:529-582 | the emitted test of an array read is true exactly when the read is NULL: several dimensions, out of bounds, or a NULL element, whatever byte an out-of-range flag load finds |
| `Tier1Nulls.AnyNullRuns` | common/upl_compile_expr.c:584-830 | the emitted pass computes "some leaf is NULL", and is omitted only where no leaf can be |
| `Tier1Stmts.BoolRuns` | common/upl_compile_expr.c:2471-2610 | emitted comparisons deliver the strict result over any accepted operands |
| `Tier1Stmts.GuardedCorrect` | common/upl_compile_expr.c:832-906 | guarded code gives NULL and performs no arithmetic if a leaf is NULL, else the strict value or error |
| `Tier1Stmts.AssignCorrect` | common/upl_compile_expr.c:3756-3817 | the compiled assignment stores the strict value and NULL flag whenever evaluation does not raise; with no NULL leaf it performs as many arithmetic operations as the tree has and raises the same error; with one it stores NULL with no arithmetic; no other variable and no array changes |
| `Tier1Stmts.AssignExact` | common/upl_exec.c:5818-5830 | the compiled assignment ends as the interpreter's exactly unless some leaf is NULL and either the target is declared NOT NULL or evaluation raises before it comes to the NULL |
| `Tier1Stmts.NullStored` | common/upl_compile_expr.c:3756-3817 | a NULL variable assigned to a NOT NULL one: stored compiled, refused interpreted |
| `Tier1Stmts.ErrorPassedOver` | common/upl_compile_expr.c:832-857 | 1 / 0 + x with x NULL: NULL compiled, an error interpreted |
| `Tier1Stmts.CondCorrect` | common/upl_compile_expr.c:5142-5203 | the compiled condition is true exactly when strict evaluation gives true |
| `Tier2Expr.EvalDeparts` | common/upl_compile_expr.c:3100-3190 | evaluating every operand of AND and OR, as compiled code does, raises exactly when stopping at the first that decides, as the interpreter does, raises or leaves out an operand that raises; else both yield the same |
| `Tier2Expr.AdmitsExactly` | common/upl_compile_expr.c:2694-2780 | a tree is admitted exactly when all its nodes are of the known kinds and all its functions built in; it allocates exactly when some function returns a fresh value |
| `Tier2Code.CompilesExactly` | common/upl_compile_expr.c:3058-3615 | compilation succeeds exactly for trees without unknown nodes and without polymorphic functions |
| `Tier2Code.CompileRuns` | common/upl_compile_expr.c:3058-3615 | the code of every Tier 2 tree raises exactly when evaluating all of the tree does, else gives the value and NULL flag the tree means; it never calls a strict function on a NULL argument |
| `Tier2Code.StrictCall` | common/upl_compile_expr.c:3472-3572 | the OR of the argument flags, the branch to the skip or the call block and the two phis give the call's result or error exactly when no argument is NULL, else NULL without a call |
| `Tier2Code.PlainCall` | common/upl_compile_expr.c:3575-3615 | a call without the strictness test gives the function's own value and NULL flag, or its error |
| `Tier2Code.FoldStands` | common/upl_compile_expr.c:3142-3190 | one step of the branch-free fold keeps its three bits equal to the three-valued AND or OR so far, whatever bits lie behind a NULL operand |
| `Tier2Code.BoolRuns` | common/upl_compile_expr.c:3100-3190 | for AND/OR/NOT of any depth and arity the fold gives the truth value of subclause 6.34 of ISO/IEC 9075-2:2003, or raises exactly when some operand does |
| `Tier2Code.ConditionRuns` | common/upl_compile_expr.c:5234-5253 | a compiled condition raises exactly when evaluating all of the tree does, else is taken exactly when the three-valued result is true |
| `Tier2Code.ConditionExact` | common/upl_compile_expr.c:5206-5253 | a compiled condition ends as the interpreted one exactly unless the interpreter, without an error, passes over an operand that raises |
| `Tier2Scopes.ReadsIsSome` | common/upl_compile_expr.c:2850-2916 | the reads-native-array predicate holds exactly when the tree mentions a native array |
| `Tier2Scopes.ExprMarshals` | common/upl_compile_expr.c:2938-3015 | evaluation marshals exactly the native arrays the tree mentions, in the context current at its start; an evaluation cut by a bail-out or an error marshals some of them |
| `Tier2Scopes.StatementSettles` | common/upl_compile_expr.c:3827-3986 | every Tier 2 statement, completed or given up, leaves as many scopes as it enters and leaves no variable pointing into one; one cut by an error stores nothing |
| `Tier2Scopes.StoreExact` | common/upl_compile_expr.c:3836-3945 | both Tier 2 stores leave what the expression yields in their target and nothing elsewhere, and end as the interpreter's assignment exactly unless the interpreter passes over an operand that raises or the target is NOT NULL and the expression NULL |
| `Tier2Scopes.NullKept` | common/upl_exec.c:5818-5830 | a NULL variable assigned to a NOT NULL one: kept compiled, refused interpreted |
| `Tier2Scopes.HiddenRaises` | common/upl_compile_expr.c:3142-3190 | x AND f() with x false, and x OR f() with x true, f raising: an error compiled, the value of x interpreted |
| `Tier2Scopes.ScopeWouldDangle` | common/upl_compile_expr.c:2918-2930 | withholding the scope is necessary: a tree that reads a native array inside a scope and does not raise always leaves a dangling variable |
| `ControlRef.Balanced` | common/upl_exec.c:2334-2526 | on every way out of every statement that is not an error, the frames and portals held are exactly those held before, released innermost first by the call that belongs to them; an error leaves only younger ones |
| `ControlAgree.CalmAgrees` | common/upl_compile_stmts.c:475-724 | in every run in which no exception block's initialiser raises an error its own handlers match and no row loop is left for outside, the compiled and the interpreted reading of any statement have the same outcome and effects; if moreover no exception block that evaluated an initialiser handles an error and ends normally, the same changes last |
| `ControlAgree.OwnHandlerRuns` | common/upl_compile_stmts.c:535-553 | when an initialiser raises an error the block's own handlers match, the interpreted block ends with that error after the initialisers before it, the compiled one undoes those, runs the handler and ends as the handler does |
| `ControlAgree.OwnHandlerCatches` | common/upl_exec.c:2225-2370 | so a handler that does one thing turns the escaping error into that effect and a fall-through |
| `ControlAgree.InitialiseInsideFrame` | common/upl_compile_stmts.c:535-553 | the two readings of an exception block, over parts whose readings agree, end alike with the same effects and lasting changes in all runs exactly when it evaluates no initialiser or no handler catches anything |
| `ControlAgree.CaughtUndoes` | common/upl_runtime.c:1189-1252 | when a body's error is handled, both readings end alike with the same effects; the handler's changes last in both and the initialisers' only interpreted, so the same changes last exactly when none was evaluated |
| `ControlAgree.DefaultUndone` | common/upl_exec.c:2230-2358 | a block with one default, a raising body and a handler: the default's change lasts interpreted and not compiled |
| `ControlAgree.RowLoopFound` | common/upl_compile_stmts.c:3247-3285 | a row loop has the same effects in both readings exactly when it is not left by RETURN or for a construct outside; else what is missing is FOUND set to whether a row came |
| `ControlAgree.FoundMissing` | common/upl_exec.c:6706-6724 | a row loop that returns at its first row sets FOUND interpreted and not compiled |
| `ControlInterp.Estate.ExecStmts` | common/upl_exec.c:2577-2737 | a statement list run by return codes has the structured meaning; every statement starts with no pending label |
| `ControlInterp.Estate.ExecLoop` | common/upl_exec.c:221-270 | the return-code macro makes LOOP and WHILE resume or stop at the innermost matching construct, clearing the label exactly there |
| `ControlInterp.Estate.ExecForQuery` | common/upl_exec.c:6574-6726 | row loops propagate return codes likewise, set FOUND to whether a row came and close their portal on every way out but an error |
| `ControlInterp.Estate.ExecBlock` | common/upl_exec.c:2547-2568 | a block stops an EXIT of its own label and nothing else |
| `ControlInterp.Estate.ExecTry` | common/upl_exec.c:2334-2526 | the exception block runs the first matching handler in the block's label scope, else rethrows |
| `ControlInterp.Estate.ExecFunction` | common/upl_exec.c:2219-2568 | for every program whose labels name enclosing constructs the outermost block ends only normally, by RETURN or by an error, with no label pending, in the structured outcome |
| `ControlSim.LeaveRuns` | core/upl_compile.c:697-785 | EXIT and CONTINUE, conditional or not, release everything above their target's depth, innermost first, only on the taken edge, and land on the target |
| `ControlSim.OutOfFrame` | common/upl_compile_stmts.c:549-608 | every way out of a frame but an error releases it once, before anything outside it, and an EXIT of its own label does not release it twice |
| `ControlSim.HandlersRun` | common/upl_compile_stmts.c:645-694 | the handler block the switch selects runs as the first matching WHEN clause |
| `ControlSim.TryRuns` | common/upl_compile_stmts.c:475-724 | the graph of an exception block lands where its meaning says for every outcome of body and handlers |
| `ControlSim.RowsRuns` | common/upl_compile_stmts.c:3085-3293 | the graph of a row loop does, its portal closed once on exit, EXIT, outward jump and RETURN, its found flag kept through the passes and FOUND set from it in the exit block only |
| `ControlSim.Sim` | common/upl_compile_stmts.c:475-724 | the graph compiled for any statement in any context simulates it: fall-through, jump, RETURN, error or running on |
| `ControlTheorem.CompiledRuns` | core/upl_compile.c:1088-1117 | a compiled function reaches the structured ending, or is still running after as many steps as the function made loop passes |
| `ControlTheorem.CompiledEndsExactly` | core/upl_compile.c:1088-1117 | a compiled function ends exactly when the function does, with the same effects, return or error |
| `ControlTheorem.CompiledReleases` | core/upl_compile.c:212-238 | a compiled function never gets stuck; when it finishes, every frame and portal was released exactly once, innermost first, by the call that belongs to it |
| `ControlTheorem.CompiledAsInterpreted` | common/upl_compile_stmts.c:475-724 | every compiled function ends as the interpreted one, with the same actions, initialisations, return and FOUND in the same order, or runs on as long, in every run in which no exception block's initialiser raises an error its own handlers match and no row loop is left for outside; if moreover no exception block that evaluated an initialiser handles an error and ends normally, the same changes last in the database |
| `ControlTheorem.InterpretedAsCompiled` | common/upl_compile_stmts.c:475-724 | conversely every ending of the compiled function on such a run is an ending of the interpreted one |
| `ControlTheorem.SimpleAsInterpreted` | common/upl_compile_stmts.c:475-724 | a function without row loops whose exception blocks evaluate no initialiser ends compiled exactly as interpreted, on every run, with the same effects and lasting changes |
| `ControlTheorem.EmitFunction` | core/upl_compile.c:1088-1117 | the compiler's run over a function emits the graph those theorems are about |
| `ControlEmitter.StmtCompiler.FindLoop` | core/upl_compile.c:133-164 | the search of the loop stack gives the lexical target of EXIT or CONTINUE |
| `ControlEmitter.StmtCompiler.EmitCleanupUnwind` | core/upl_compile.c:211-238 | release calls for exactly the cleanups above the depth, innermost first |
| `ControlEmitter.StmtCompiler.CompileStmt` | core/upl_compile.c:75-238 | compiling any statement extends the graph as specified and leaves loop stack, cleanup stack and return block as they were |
| `ControlEmitter.StmtCompiler.CompileExceptionBlock` | common/upl_compile_stmts.c:475-724 | the same for exception blocks, with two redirections of RETURN and two pushed cleanups |
| `PlainArrays.SetMeans` | common/upl_compile_expr.c:4514-4533 | assignment changes one element, makes the range the hull of the old range and the subscript, and fills gaps with NULL in either direction |
| `PlainArrays.SetFails` | common/upl_runtime.c:929-975 | exactly when assignment raises, and which error |
| `Mirrors.WriteExact` | common/upl_compile_expr.c:4371-4793 | in-range store, append and slow path together compute that assignment, errors included, exactly unless a value is appended at the largest int4 |
| `Mirrors.ReadAgrees` | common/upl_compile_expr.c:529-582 | a native read gives what the plain array gives |
| `Mirrors.WrittenUnrefreshed` | common/upl_compile_stmts.c:2499-2510 | a Datum written without the reload agrees exactly when flat memory already described it or, empty, may stand beside it |
| `NativeRuns.StepExact` | common/upl_compile_stmts.c:2394-2480 | after every event mirrors and plain arrays agree and have shown the same exactly when the event meets its condition, stated on the plain run and the array each variable had at its last sync or reload |
| `NativeRuns.RunExact` | common/upl_compile_stmts.c:2394-2678 | a run agrees at every step exactly when every event meets its condition |
| `NativeRuns.RunAgrees` | common/upl_compile_stmts.c:2601-2678 | over every such run of defaults, assignments, SELECT INTO, element reads and writes and interpreter calls, even when only the read set is synced, every element read, every array a callee sees and every error are those of the plain arrays, and the Datums are those of the last sync or reload |
| `NativeRuns.InitSees` | common/upl_compile_stmts.c:439-465 | after any such run a DECLARE default sees the plain arrays exactly when each array it reads is what it was at its last sync or reload |
| `NativeRuns.DefaultRaises` | common/upl_runtime.c:286-322 | a default that raises agrees exactly when the variable held no elements; else it is NULL plainly while its old elements are still read and synced back |
| `NativeRuns.DefaultReadsStale` | common/upl_compile_stmts.c:439-465 | any array with one element overwritten is read as it was before by the default of a variable declared next |
| `NativeRuns.IntoReloads` | common/upl_compile_stmts.c:2844-2862 | after a SELECT INTO that does not raise every Datum is the plain value, and flat memory was loaded from it for exactly the variables among the first 64 targets |
| `NativeRuns.IntoAgrees` | common/upl_compile_stmts.c:2844-2862 | so with at most 64 targets it agrees |
| `NativeRuns.Target64` | common/upl_compile_stmts.c:2805-2862 | a target that comes only after 64 others keeps its flat memory |
| `NativeRuns.IntoUnreloaded` | common/upl_compile_stmts.c:2805-2862 | a target beyond the 64th, or stored before an error, agrees exactly when its flat memory already described the new value |
| `NativeRuns.AppendParts` | common/upl_compile_expr.c:4577-4706 | every array ending just below the largest int4 takes an append PostgreSQL refuses |
| `NativeMemory.Unpack` | common/upl_runtime.c:1666-1722 | unpacking an array's packed values gives one slot per element with exact NULL flags |
| `NativeMemory.NativeArray.ToDatum` | common/upl_runtime.c:1735-1779 | the Datum becomes the array the mirror describes; an empty mirror leaves it alone |
| `NativeMemory.NativeArray.FromDatum` | common/upl_runtime.c:1618-1722 | the mirror becomes what the Datum holds, in fresh buffers |
| `NativeMemory.NativeArray.Reserve` | common/upl_runtime.c:1803-1850 | room for one more element, contents and flags kept, capacity doubled within the limit and int4, refused exactly at the limit |
| `NativeMemory.NativeArray.SetElement` | common/upl_compile_expr.c:4371-4793 | the in-place write does what `Write` says and, but for the one append, what PostgreSQL says, keeping len within cap and flags correct |
| `NativeMemory.NativeArray.GetElement` | common/upl_compile_expr.c:529-582 | the in-place read, with wrapping bound arithmetic, gives the plain element |
| `Marking.Marker.MarkFunction` | common/upl_funcs.c:689-700 | the walk flags exactly the assignments whose target is declared within the closest exception block |
| `Marking.Marker.MarkStmt` | common/upl_funcs.c:636-687 | likewise for any statement under any set of known locals, touching no other flag |
| `MarkedRuns.NoLostRead` | common/upl_exec.c:7343-7401 | in every run of a marked function, compiled or interpreted order of initialisation, no variable is read between giving its value away and being assigned or re-initialised |
| `MarkedRuns.NoLostReadUnmarked` | common/upl_funcs.c:618-632 | a function without exception blocks needs no walk |
| `MarkedRuns.MarkingNeeded` | common/upl_exec.c:9138-9182 | one with an exception block does |
| `MarkedRuns.EvaluateSound` | common/upl_exec.c:9158-9182 | giving the value away is safe inside the expression because the target occurs exactly once |
| `MarkedRuns.GivesExactly` | common/upl_exec.c:9158-9182 | a flagged target is given away exactly when it occurs at exactly one position of the source expression |
| `MarkedControl.NothingLost` | common/upl_exec.c:7343-7401 | in the log of every run of a marked function, between any giving away of a variable's value and any later reading it is given one |
| `MarkedControl.ExecTracks` | common/upl_exec.c:7343-7401 | the variables said to lack a value, and the lost reads, are those the log shows |
| `MarkedControl.ExecMatches` | common/upl_exec.c:2219-2568 | a marked run goes exactly as the control flow of its statements: same ending after as many evaluations, compiled or interpreted |
| `Econtexts.PoppedIsWithout` | common/upl_exec.c:9511-9528 | on an ordered stack popping while the top belongs to a subtransaction removes all of its entries |
| `Econtexts.AllEndNone` | common/upl_exec.c:5693-5710 | a function that is atomic or inside a subtransaction ends no transaction |
| `Econtexts.Session.SubxactCallback` | common/upl_exec.c:9504-9528 | ending a subtransaction frees and removes exactly its own entries |
| `Econtexts.Session.CreateEcontext` | common/upl_exec.c:9377-9438 | the new context is on top, in the current subtransaction and in the EState of the current transaction |
| `Econtexts.Session.DestroyEcontext` | common/upl_exec.c:9446-9460 | only the function's own top entry is ever destroyed |
| `Econtexts.Session.ExecInvoke` | common/upl_exec.c:2809-2841 | a call, or a CALL that ended the transaction, leaves the caller able to evaluate with its context on top; it makes one context, and a second exactly after a CALL that ended a transaction |
| `Econtexts.Session.ExecBody` | common/upl_exec.c:2341-2448 | however an exception block's body ends, stack and context are those of its entry; one subtransaction and one context are begun for it |
| `Econtexts.Session.ExecSteps` | common/upl_exec.c:5693-5710 | over every nested run of calls, exception blocks, CALLs and COMMITs the stack stays ordered by nesting and the running function's context is its top entry; the run raises, ends transactions, begins subtransactions and makes contexts exactly as its steps say |
| `Econtexts.Session.TopLevel` | common/upl_exec.c:9462-9502 | nothing is left behind at top level, and the whole run comes to what its steps say |
| `Mcontexts.Estate.GetStmtMcontext` | common/upl_exec.c:2099-2110 | the context exists and is a child of the pushed one |
| `Mcontexts.Estate.ExecForEach` | common/upl_exec.c:3761-3867 | a statement that pushes its context restores the pair unless it raises, keeps the handled error and frees what its body left |
| `Mcontexts.Estate.Catch` | common/upl_exec.c:2410-2522 | from any state an error can leave: one more piece of error data is copied, the handler runs exactly if one matches and reads that piece, the outcome is the handler's, and if it is normal context, parent and cur_error are those of block entry and everything made since is freed |
| `Mcontexts.Estate.ExecTry` | common/upl_exec.c:2334-2526 | an exception block keeps every pushed context and its data, and ends as its body does or, if that raises and a handler matches, as the handler does |
| `Mcontexts.Estate.ExecSteps` | common/upl_exec.c:2112-2143 | every run, including errors from nested pushes and inner handlers, keeps pushed contexts and their data, has the outcome its steps say, catches as many errors, reads in each handler the error that handler is for, and unless it raises leaves no error data and no context but the statement's own behind |
| `Mcontexts.GrownTrans` | common/upl_exec.c:2112-2143 | whatever a run makes lies below the statement context, over any sequence of runs |
| `Mcontexts.ResetTidies` | common/upl_exec.c:2499-2522 | so resetting that context frees it all |
| `RowMoves.CompatibleTupdescs` | common/upl_exec.c:8178-8217 | accepts exactly the physically compatible descriptors |
| `RowMoves.MoveFields` | common/upl_exec.c:7954-8082 | the k-th live target gets the k-th live source or NULL, cast; the strict check fires exactly when the live counts differ, at the point and level set |
| `RowMoves.MoveToRow` | common/upl_exec.c:8087-8173 | likewise variable by variable, those assigned before a failure staying assigned |
| `RowMoves.MovesOnce` | common/upl_exec.c:7918-8169 | that description leaves one outcome and one value per live target |
| `RowMoves.OtherTypeCast` | common/upl_exec.c:7954-8082 | a live target of another type than its source gets the cast's result, one without a source the cast of an unknown NULL |
| `RowMoves.FastPathMoves` | common/upl_exec.c:7702-7722 | using a compatible tuple whole is the field-by-field move: same positions, no cast, no check |
| `RowMoves.UncastExactly` | common/upl_exec.c:8611-8629 | an accepted column pair needs no cast exactly when the modifier is not below -1 or the modifiers agree |
| `IntegerLoop.Fori` | common/upl_exec.c:3291-3424 | the k-th value seen is the lower bound plus or minus k steps, the step 1 without BY; none lies past the end and a loop that finishes has seen them all; the counter never leaves int4, FOUND is set exactly as iterations ran, and the errors are exact |
| `IntegerLoop.ForiCompiled` | core/upl_compile.c:525-690 | the compiled loop with its wrap-around test sees the same values for every step of at least 1 |
| `IntegerLoop.BothLoops` | core/upl_compile.c:552-563 | the two agree on failing exactly when no step below 1 is given, and on FOUND exactly unless control left for outside |
| `IntegerLoop.LeftForOutside` | core/upl_compile.c:525-690 | a loop left for outside at its first value sets FOUND interpreted and not compiled |
| `IntegerLoop.StepUnchecked` | core/upl_compile.c:552-563 | BY 0 or less is an error interpreted and not compiled |
| `IntegerLoop.ValuesAt` | common/upl_exec.c:3291-3424 | the k-th value is k steps from the first, and exists exactly while that is not past the end |
| `LoopPlay.PlayEnds` | common/upl_exec.c:3291-3424 | a loop whose bodies end, ends |
| `RowLoop.ForQuery` | common/upl_exec.c:6574-6726 | batches of 10 then 50 show the body the same rows in the same order as one row at a time, stop at the same row and set the same FOUND; no batch is fetched before the one before it is used up |
| `RowLoop.BindRow` | common/upl_exec.c:6636-6686 | putting a row straight into the record when its descriptor is the remembered one gives what a full move would; what is remembered is exactly that all descriptors so far were compatible |
| `Datums.ChainDecreases` | common/upl_comp.c:1949-1982 | a record's chain holds only its own fields, strictly decreasing |
| `Datums.DatumTable.AddDatum` | common/upl_comp.c:2245-2274 | the new datum gets the next number, all earlier ones keep theirs |
| `Datums.DatumTable.BuildRecfield` | common/upl_comp.c:1949-1982 | finds the one datum of that name or adds it; no duplicates, every field on its chain |
| `Datums.DatumTable.CopyingIsCheap` | common/upl_comp.c:2263-2274 | total copying by doubling stays below twice the datum count |
| `Datums.DatumTable.AddInitdatums` | common/upl_comp.c:2323-2375 | returns the initialisable datums made since the last call |
| `Datums.InitNosAre` | common/upl_comp.c:2324-2375 | exactly those, in strictly ascending order |
| `Workspace.FinishDatums` | common/upl_comp.c:2280-2307 | the size summed at compile time is the total of the copies |
| `Workspace.SlotHolds` | common/upl_comp.c:2280-2307 | every slot is as long as the structure copied into it, rounded up to alignment |
| `Workspace.CopyDatums` | common/upl_exec.c:1866-1932 | consumes exactly that size, each copy at its offset |
| `Workspace.Disjoint` | common/upl_exec.c:1866-1932 | no byte belongs to two copies |
| `Workspace.Tiled` | common/upl_exec.c:1866-1932 | a byte belongs to a copy exactly when it lies in the workspace |
| `FunctionCache.Cache.Lookup` | core/upl_cache.c:110-168 | answers and evicts as `Looked` says |
| `FunctionCache.Cache.Store` | core/upl_cache.c:173-204 | replaces the function's entry and no other |
| `FunctionCache.HeldExactly` | core/upl_cache.c:110-204 | after any history the cache holds an entry exactly while it is the last stored and every lookup since has matched |
| `FunctionCache.HitExactly` | core/upl_cache.c:110-168 | a hit is served exactly for such an entry that holds code and matches the current version; never a skip marker |
| `FunctionCache.HitFields` | core/upl_cache.c:110-168 | a hit means the same xmin, the same tid and an accepted language check, and conversely |
| `FunctionCache.EvictedForGood` | core/upl_cache.c:131-154 | after a mismatching lookup nothing is served until the next store |

## Left out

- float8 arithmetic and intrinsics, numeric casts, record-field and promise leaves, boolean array elements: outside the int4/int8/boolean fragment.
- Tier1Value.IntRuns: subscripts inside an expression are variables or constants (`PlainSubscripts`); array reads not held natively are not part of this model.
- Tier1Nulls.AnyNullRuns: the same two restrictions; the probe for arrays not held natively is not part of this model.
- Tier1Stmts.BoolRuns: no float8 comparisons, and only boolean trees the emitter has a case for; on the others the classifier accepts (a relabelled boolean, a boolean element) the compiler stops with an error.
- Tier1Stmts.AssignCorrect: the emitter is a function from builder to builder, not an object updated in place; blocks, their order and register numbers are those of the code.
- Tier2Code.CompileRuns: which error a function raises is not told apart; called functions do not look behind a NULL and have no side effects; the skip, call and merge blocks of a strict call are laid out in one list, a branch choosing between them; the fold of a numeric constant to float8 is not modelled.
- Tier2Scopes.StatementSettles: what a statement leaks when the scope is withheld is not counted; after an error the context is restored by error handling that is not modelled.
- ControlSim.Sim: ELSIF chains, CASE, the integer FOR loop and FOREACH as compiled statements; they add branches of the kinds modelled.
- ControlTheorem.CompiledAsInterpreted: says nothing of runs in which an exception block's own handler matches an error of its initialisers or a row loop is left for outside; there the two differ as `OwnHandlerRuns` and `RowLoopFound` say.
- ControlAgree.CalmAgrees: both readings get the same answers from the oracle; where changes were undone in one only (`CaughtUndoes`), later queries of a real database may answer differently.
- Database changes are recorded for actions and initialisers; conditions and row queries are taken to change nothing.
- Releasing a frame or portal is taken not to raise.
- NativeRuns.RunAgrees: array_fill interception, FETCH, EXECUTE INTO and CALL outputs and cursor-loop targets that are native arrays.
- NativeMemory.NativeArray.Reserve: reallocation is a copy to a new buffer; element values are unbounded integers since every store is already of the element type.
- MarkedRuns.NoLostRead: the in-place rule for trusted functions (common/upl_exec.c:9184-9258) is not modelled; a variable always counts as holding a value that can be given away.
- Econtexts.Session.CreateEcontext: the private EState of DO blocks and the resource owner beside the EState.
- Mcontexts.Estate.ExecSteps: only contexts and error data; other statement-lifespan data is not tracked.
- RowMoves.MoveFields: type coercion is a parameter; expanded-record representation is not modelled.
- RowLoop.ForQuery: the portal's rows do not change while the loop runs; the row binding is modelled apart in `BindRow`.
- The namespace chain, JIT scoring, statement dumping, GET DIAGNOSTICS, trigger promises, LLVM and setjmp mechanics: easy or foreign.
- Planner, catalog, SPI, tuplestores and subtransaction internals appear only through what the code relies on.
