# A verified model of the APL policy engine

This project models the nucleus of the praxis-proxy policy engine in Dafny and proves what it promises:
the predicate language from text to three-valued verdict, the effect interpreter with its plugins,
decision points, delegations, elicitations, field pipelines and parallel blocks, the static checks made
on effect trees, policy layering, and the data that feeds the attribute bag.

`dafny verify dfyconfig.toml` checks the whole project.

## How the model is built

**Outside world.** Plugins, decision points, delegators, elicitation channels and the scheduler are
answers looked up by *site*, the path of a node in the effect tree (`Hosts.dfy`). No pass, of any tree
under any schedule, puts one kind of question twice at a site: that is proved (`Sites.dfy`). So one answer
per site describes every run, however stateful the world is, and a theorem over all `Host` values is a
theorem over all worlds. Timeouts and panics are error answers. Float text, regular
expressions, hashing and the expansion of field paths are fields of a `Foreign` record and stay arbitrary.
The interpreter is generic in the three parts of the policy language it calls (`Language`: evaluate a
predicate, resolve a restriction, parse a predicate), so its theorems hold for any of them;
`Requirements.StandardLanguage` fills in the real ones.

**Runs.** A run of an effect yields an outcome (continue, halt with a decision, or suspend), the bag and
payload it leaves, and a log of what it appended: taints, constraints, payload changes, and a trace of
events, one for each gate it reached, with the answer it got (`Effects.dfy`, `Interpreter.dfy`).
`Evaluator.Machine` is the same evaluator as the program has it, one object updated in place by loops, and
every method is proved equal to the functions. The theorems are about the functions: safety
(`Safety.dfy`, `Coverage.dfy`), the decision a run reports (`Decisions.dfy`, `Merging.dfy`), what it records
and writes (`Records.dfy`, `FieldWrites.dfy`), purity (`Purity.dfy`), scheduling (`Schedules.dfy`,
`Branches.dfy`), elicitation (`ElicitationProtocol.dfy`, `ElicitationRecords.dfy`, `ElicitCounts.dfy`,
`Retries.dfy`), delegation (`Delegations.dfy`), composition (`Composition.dfy`, `Layers.dfy`) and the
synchronous path (`FastPath.dfy`).

**Text.** Strings are sequences of Unicode scalar values. The literal reader alone is also modelled on
UTF-8 bytes (section 3 of RFC 3629), with a proof that the two agree and that the cursor never lands inside
a character. Loops of the lexer, parser and scanners are methods proved against recursive functions, and
the round trips are proved about those. Each reader also has a declarative partner that does not mention its
loop: a grammar of sentences for the predicate parser (`PredicateSyntax.dfy`), spellings for the lexer
(`LexerLaws.dfy`), bracket depth for the scanners (`SplitLaws.dfy`, `ScanLaws.dfy`), and the meaning of each
condition and stage in plain terms (`Conditions.dfy`, `Stages.dfy`).

**Numbers.** `f64` is NaN, an infinity, or a finite real, with the two zeros one value. `Binary64.dfy` says
which reals are doubles: a 53-bit integer times a power of two. Converting an integer to `f64` is an
arbitrary function; results that need it to be a rounding say so, and then the 2^53 bound of the order
comparison follows, and is tight. Integers carry their Rust bounds where they matter (`i64`, 32- and 64-bit
length fields).

## Where code and documentation differ

- `delegation.granted` is documented as absent when the most recent delegation was denied
  (crates/ppe-apl-core/src/step.rs:1082-1087). The code never clears it. `Delegations.StaleGrant` gives
  the case and `Delegations.FlagExactly` says exactly when the flag is up after a phase.
- `delegation.granted.permissions`, `.audience` and `.expires_at` are documented as those of the minted
  token (crates/ppe-apl-core/src/step.rs:1075-1081). The code writes each only when the token carries it, so
  an earlier token's value can stay. `Delegations.StalePermissions` gives the case and
  `Delegations.LatestTokenExactly` the condition for each key.
- With an empty prefix, an object under an empty name is flattened at the root again, where it may overwrite
  its siblings; no caller in the repository passes an empty prefix.
- A suspended elicitation inside a `parallel:` branch is discarded and the block continues
  (`Coverage.SuspendedBranchDropped`). `Safety.PassesExactly` and `Safety.FaithfulExactly` say that this is the
  only way safety fails, and `Safety.CheckedDropsNone` that the purity check, made when effects are parsed,
  rules it out.
- `saturating_sub(1)` on a signed depth does not stop at zero, so after an unmatched close bracket the
  scanners no longer split at the top level. The scanners are modelled with a signed depth.
- Elements omitted from one array one after the other shift the rest, so later paths name other elements
  (`FieldWrites.OmittedTwice`). `FieldWrites.OmittedReadsNothing` says when an omitted path reads nothing.
- The order operators are not duals on a missing key; `Predicates.ComplementsExactly` says when they are.

## Model

| member | source | states |
|---|---|---|
| `Safety.CleanAllowExactly` | crates/ppe-apl-core/src/evaluator.rs:434-501 | for every purity-checked effect list, world and request: the phase is Allow with nothing pending if and only if every event of the run passed (no Deny effect, plugin or decision-point deny or error, unorderable guard, unresolved deny list, rejected field, lost branch; delegate and elicit failures only where `on_error: continue` covers them) |
| `Safety.PassesExactly` | crates/ppe-apl-core/src/evaluator.rs:434-501 | for every effect list, checked or not: every event of the phase passed if and only if the phase is a clean Allow and no `parallel:` block it ran had a finished branch that was suspended |
| `Safety.FaithfulExactly` | crates/ppe-apl-core/src/evaluator.rs:1265-1414 | one effect of any tree continues exactly when everything it reached passed, if and only if it does not continue past a finished branch that is suspended |
| `Safety.CheckedDropsNone` | crates/ppe-apl-core/src/rules.rs:375-414 | a purity-checked tree never has such a branch, in any world |
| `Coverage.CleanAllowClearedExactly` | crates/ppe-apl-core/src/evaluator.rs:434-501 | a phase of checked effects is a clean Allow if and only if its trace clears every gate on the path taken, read from the state each gate was reached in: each plugin, decision point and delegation asked there and letting the run through, each guard decided and each restriction resolved on that bag, each elicitation approved or covered by `on_error: continue`, and at each path of a field operation a pipeline run that did not reject with every plugin stage it reached asked and allowing |
| `Coverage.CleanAllowCleared` | crates/ppe-apl-core/src/evaluator.rs:680-1028 | after a clean Allow every gate on the path taken is so cleared, and every event of the trace passed |
| `Coverage.RunCleared` | crates/ppe-apl-core/src/evaluator.rs:680-1028 | one effect of a checked tree, at any site and in any state, that continues is cleared by its own trace; a Deny effect never is, nor a rejected field |
| `Coverage.ClearedContinues` | crates/ppe-apl-core/src/evaluator.rs:680-1028 | the converse, for any tree: an effect that any trace clears continues |
| `Sites.RunLocated` | crates/ppe-apl-core/src/evaluator.rs:680-1028 | every event of every run is at the run's site or below it, and no kind of question is put twice at one site |
| `Sites.SitesAskedOnce` | crates/ppe-apl-core/src/evaluator.rs:434-501 | in a whole phase two calls of one kind are never at the same site |
| `Safety.RunFaithful` | crates/ppe-apl-core/src/evaluator.rs:680-1028 | one effect of a checked tree continues if and only if everything it reached passed |
| `Safety.RunDenies` | crates/ppe-apl-core/src/evaluator.rs:680-1028 | every halt of every run, of checked and unchecked trees, carries a deny, never an allow |
| `Safety.FieldOpContinuesExactly` | crates/ppe-apl-core/src/evaluator.rs:1449-1539 | a field operation continues if and only if its path has a root and, when its side is in phase, fan-out is bounded and no pipeline rejects the value at its path, each on the document the earlier ones left |
| `Safety.FieldOpFaithful` | crates/ppe-apl-core/src/evaluator.rs:1449-1539 | it continues if and only if every event it emitted passed, and otherwise denies |
| `Safety.ElicitSettles` | crates/ppe-apl-core/src/evaluator.rs:1045-1226 | every elicitation run emits exactly one settlement, its last event, with only calls before it, and continues if and only if that settlement passes |
| `Safety.MergedExact` | crates/ppe-apl-core/src/evaluator.rs:1356-1412 | under any legal branch-outcome vector every merged event passed if and only if the merge continues and no finished branch was suspended or itself dropped a suspension |
| `Decisions.ReportsExactly` | crates/ppe-apl-core/src/evaluator.rs:680-1028 | every run, of any tree under any schedule, halts with a decision if and only if that decision is the one its first failing gate reports, with the reason and the code of each kind of denial spelled out |
| `Decisions.ElicitReports` | crates/ppe-apl-core/src/evaluator.rs:1045-1226 | an elicitation denies for exactly the listed reasons, each under its own code |
| `Decisions.CoversExactly` | crates/ppe-apl-core/src/evaluator.rs:1054-1062 | `on_error` covers a failure if and only if it spells "continue", in any mix of letter cases |
| `Decisions.AsksWhom` | crates/ppe-apl-core/src/evaluator.rs:1098-1107 | whom a step asks: the text the bag holds under `from`, else the name itself, or no one if and only if it is a dotted name of letters, digits and underscores that starts with a letter |
| `Records.RestrictRecords` | crates/ppe-apl-core/src/evaluator.rs:810-836 | a restriction that resolves and binds something is recorded exactly as it resolved; one that binds nothing is not recorded; one that does not resolve denies |
| `Records.RunRecords` | crates/ppe-apl-core/src/evaluator.rs:680-1028 | any run of any tree records exactly the constraints and taints of the effects it performed, in order, also where it halts or a parallel branch is dropped |
| `Records.PhaseRecords` | crates/ppe-apl-core/src/evaluator.rs:434-501 | a phase hands out, in order, every constraint its `restrict` effects resolved to in the bag each was reached in, and every taint its effects, plugins and pipelines raised |
| `Merging.FirstBranchDecides` | crates/ppe-apl-core/src/evaluator.rs:1356-1412 | the first decisive branch by its place in the list, whenever it ended, decides a parallel block, and its decision is the one reported |
| `Merging.NoBranchDecides` | crates/ppe-apl-core/src/evaluator.rs:1356-1412 | with no decisive branch the block continues |
| `Merging.BlockCollects` | crates/ppe-apl-core/src/evaluator.rs:1356-1412 | halted or not, a block keeps all taints and constraints of its finished branches in input order and changes neither bag nor payload |
| `FieldWrites.FieldOpWrites` | crates/ppe-apl-core/src/evaluator.rs:1449-1539 | over paths that part from one another, each path reads back what its pipeline made of the value found there at the start, everything else is unchanged, it stops and denies at the first rejection, the side's modified flag is up if and only if something was written, and the taints are those of the pipelines reached |
| `FieldWrites.FieldOpOutOfPhase` | crates/ppe-apl-core/src/evaluator.rs:1469-1483 | out of phase, or with no result yet, a field operation changes nothing and continues |
| `FieldWrites.OmittedTwice` | crates/ppe-apl-core/src/route.rs:750-769 | the exception: of two elements omitted from one array only the first goes |
| `FieldWrites.OmittedElement` | crates/ppe-apl-core/src/route.rs:750-769 | omitting an array element, at any depth, closes the gap |
| `FieldWrites.OmittedReadsNothing` | crates/ppe-apl-core/src/route.rs:750-769 | an omitted path reads nothing if and only if it is an object's key or an array's last element |
| `Coverage.SuspendedBranchDropped` | crates/ppe-apl-core/src/evaluator.rs:1356-1370 | without the purity check safety fails: a pending elicitation in a parallel branch lets the block continue with a failing event in the trace |
| `Coverage.DeniedAfterDrop` | crates/ppe-apl-core/src/evaluator.rs:854-883 | a dropped suspension misleads only a run that continues: with a deny after the block, the run drops the same branch and still continues exactly when everything passed |
| `Evaluator.Machine.EvaluateEffects` | crates/ppe-apl-core/src/evaluator.rs:434-501 | the top-level loop, with its per-effect fallback source, yields exactly the specified decision, log, pending bundle, bag and payload |
| `Evaluator.Machine.Dispatch` | crates/ppe-apl-core/src/evaluator.rs:680-1028 | dispatching an effect in place leaves the specified outcome and state; taints, constraints and trace only gain a tail, and the modified flags never go back to false |
| `Evaluator.Machine.Walk` | crates/ppe-apl-core/src/evaluator.rs:854-883 | the list loop runs effects in order up to the first that does not continue |
| `Evaluator.Machine.Guarded` | crates/ppe-apl-core/src/evaluator.rs:906-950 | a `when:` effect skips on false, denies on an unorderable guard, and otherwise runs its body with its own source |
| `Evaluator.Machine.AskAndReact` | crates/ppe-apl-core/src/evaluator.rs:952-1026 | reactions run in order; a deny stands unless a reaction halts or suspends first |
| `Evaluator.Machine.Fork` | crates/ppe-apl-core/src/evaluator.rs:1300-1335 | each parallel branch runs on its own clone and leaves the outer state alone |
| `Evaluator.Machine.Aggregate` | crates/ppe-apl-core/src/evaluator.rs:1356-1412 | branch logs are appended in input order, the first halt by index wins, lost branches become denies |
| `Evaluator.Machine.Elicit` | crates/ppe-apl-core/src/evaluator.rs:1045-1226 | the step by step bag updates and early returns give exactly the specified outcome, bag and calls |
| `Evaluator.Machine.Validate` | crates/ppe-apl-core/src/evaluator.rs:1175-1224 | validation, then scope, then the resolved facts, in that order |
| `Evaluator.Machine.WalkPaths` | crates/ppe-apl-core/src/evaluator.rs:1510-1538 | the loop over concrete paths writes back each pipeline result in turn and stops at the first rejection |
| `Evaluator.Machine.FieldOperation` | crates/ppe-apl-core/src/evaluator.rs:1449-1539 | out-of-phase and missing sides are no-ops, bad roots and excessive fan-out deny |
| `Evaluator.Machine.DelegateTo` | crates/ppe-apl-core/src/evaluator.rs:731-793 | a grant writes exactly the granted keys; a deny or error follows `on_error` and writes nothing |
| `Evaluator.Machine.InvokePlugin` | crates/ppe-apl-core/src/evaluator.rs:710-729 | taints are taken before the decision is acted on; an error denies |
| `Evaluator.Machine.Constrain` | crates/ppe-apl-core/src/evaluator.rs:810-836 | a resolved restriction is appended unless it constrains nothing; an unresolved deny list denies |
| `Purity.MutatesExactly` | crates/ppe-apl-core/src/rules.rs:308-335 | `contains_mutation` holds if and only if a FieldOp, Delegate or Elicit sits at some path of the tree |
| `Purity.CheckedExactly` | crates/ppe-apl-core/src/rules.rs:375-414 | the purity check accepts exactly the trees with no FieldOp, Delegate or Elicit below any `parallel:` |
| `Purity.CompiledExactly` | crates/ppe-apl-core/src/parser.rs:2076-2099 | checking each `parallel:` as it is parsed is equivalent to checking the whole tree |
| `Purity.PureRun` | crates/ppe-apl-core/src/rules.rs:308-335 | an effect without mutations leaves bag, payload and modified flags unchanged and never suspends, in every world |
| `Purity.ParallelStill` | crates/ppe-apl-core/src/evaluator.rs:1301-1334 | a parallel block never changes the outer bag, payload or flags, whatever its branches do |
| `Schedules.ParallelIsSequential` | crates/ppe-apl-core/src/evaluator.rs:1265-1414 | for every legal branch-outcome vector a mutation-free block continues if and only if every branch completed with continue, and is then equal to `sequential:` on the same list in outcome, state, taints, constraints and trace |
| `Schedules.LostBranchDenies` | crates/ppe-apl-core/src/evaluator.rs:1356-1412 | if any branch halts, panics or times out, every legal schedule denies |
| `Schedules.ContinuesExactly` | crates/ppe-apl-core/src/evaluator.rs:1356-1412 | a block continues if and only if every branch finished without halting |
| `Schedules.RunsAgree` | crates/ppe-apl-core/src/evaluator.rs:1265-1414 | whole runs under two schedulers that lose no branch either both deny or are equal in outcome, state, log and trace |
| `Branches.RunBranches` | crates/ppe-orchestration/src/lib.rs:138-228 | under any runtime that joins branches in any order and cancels only when asked to, each branch is joined once, its ending comes back in its own slot, and a branch is aborted only if short-circuiting was on and some branch completed with a deny |
| `Branches.PoolFates` | crates/ppe-apl-core/src/evaluator.rs:1336-1370 | run on what its branches would yield, the pool hands back a vector that meets the contract the interpreter's merge is proved under, whatever the runtime does |
| `ElicitationProtocol.SettlesExactly` | crates/ppe-apl-core/src/evaluator.rs:1045-1226 | a step is approved, waits, or is refused under exactly the stated replies, for every world; everything else is a failure, and only failures read `on_error` |
| `ElicitationProtocol.StrictStepContinues` | crates/ppe-apl-core/src/evaluator.rs:1175-1224 | without `on_error: continue` the step continues if and only if the approver said yes, the response validated and the scope is definitely true |
| `ElicitationProtocol.OnlyFailuresSoften` | crates/ppe-apl-core/src/evaluator.rs:1054-1084 | changing `on_error` changes nothing but the outcome of a failure: pending, human denial and an unavailable store are never softened |
| `ElicitationProtocol.UnresolvedFromCallsNobody` | crates/ppe-apl-core/src/evaluator.rs:1098-1107 | an attribute-shaped `from` that does not resolve reaches no channel and leaves the bag alone |
| `ElicitationRecords.ElicitLeaves` | crates/ppe-apl-core/src/evaluator.rs:1045-1226 | after a step every key of the bag holds the latest word on it: what validation said of a granted approval, else what this step's dispatch said, else what was there; no other key changes |
| `ElicitationRecords.PendingHandsOver` | crates/ppe-apl-core/src/evaluator.rs:1145-1158 | a suspended step hands over the id in use, the plugin and channel asked, and the latest approver, intent and expiry |
| `ElicitCounts.CountsExactly` | crates/ppe-apl-core/src/rules.rs:342-363 | the count is the number of distinct places in the tree that hold an elicitation |
| `ElicitCounts.AcceptedExactly` | crates/ppe-apl-core/src/parser.rs:3258-3278 | a phase is accepted if and only if no two places in it hold an elicitation |
| `ElicitationProtocol.RunBounded` | crates/ppe-apl-core/src/rules.rs:342-363 | on every run, of any tree under any schedule, dispatch calls number at most `count_elicits` |
| `ElicitationProtocol.AcceptedPhaseDispatchesOnce` | crates/ppe-apl-core/src/parser.rs:3258-3278 | a phase the compiler accepts dispatches at most once, whichever arms are taken |
| `Retries.EveryRunOnce` | crates/ppe-apl-core/src/evaluator.rs:1108-1132 | a run of a checked tree keeps an id it starts with and then dispatches nothing; otherwise it has at most one accepted dispatch and ends with an id if and only if it had one |
| `Retries.PassesDispatchOnce` | crates/ppe-apl-core/src/evaluator.rs:1108-1132 | over any sequence of passes whose host echoes the id, at most one dispatch is accepted in all, and none is made once an id is held |
| `Delegations.RunReplays` | crates/ppe-apl-core/src/evaluator.rs:731-793 | every run of a checked tree leaves under each token key exactly what its grants, replayed in order, say |
| `Delegations.FlagExactly` | crates/ppe-apl-core/src/evaluator.rs:731-793 | after a phase the granted flag is up if and only if it was up before or some delegation of the run, not only the last, was granted |
| `Delegations.FlagDocumentedExactly` | crates/ppe-apl-core/src/step.rs:1082-1087 | the documented reading of the flag (up when the most recent delegation was granted, absent otherwise) is true of a phase if and only if that delegation was granted, or the flag was down at the start and every delegation of the phase was denied |
| `Delegations.LatestTokenExactly` | crates/ppe-apl-core/src/evaluator.rs:757-772 | each of permissions, audience and expiry describes the latest token if and only if that token carried it, or no earlier token nor the starting bag left anything under the key |
| `Delegations.StaleGrant` | crates/ppe-apl-core/src/evaluator.rs:757-772 | a grant followed by a denial that `on_error: continue` covers leaves the flag up, against the documentation |
| `Delegations.StalePermissions` | crates/ppe-apl-core/src/evaluator.rs:757-772 | a token with permissions followed by a token with none leaves the first token's permissions in force, against the documentation |
| `Composition.ListComposes` | crates/ppe-apl-core/src/evaluator.rs:449-501 | running A then B is A's run if A denies or suspends, otherwise B's run from A's final state behind A's log |
| `Composition.RunMoves` | crates/ppe-apl-core/src/evaluator.rs:680-1028 | a tree given the same replies elsewhere in a larger tree runs the same: outcome, state, log and events in order |
| `Composition.InlineSequential` | crates/ppe-apl-core/src/evaluator.rs:854-883 | replacing a `sequential:` group by its members, with every call answered as before, preserves outcome, final state, taints, constraints, flags and events in order |
| `Layers.Route.ApplyLayer` | crates/ppe-apl-core/src/rules.rs:633-666 | the in-place update equals the layering function: phases append, redeclared field rules are replaced, overrides merge, identity and response stay |
| `Layers.Route.ApplyAll` | crates/ppe-apl-runtime/src/visitor.rs:1212-1241 | layers applied one after the other give the stack of them |
| `Layers.LayeredAssociative` | crates/ppe-apl-core/src/rules.rs:633-666 | layering is associative |
| `Layers.LastLayerWins` | crates/ppe-apl-core/src/rules.rs:639-657 | in any stack, each field's rules are those of the last layer that declares it, or the base's if none does, for arguments and result |
| `Layers.EffectsStack` | crates/ppe-apl-core/src/rules.rs:633-638 | a stack runs the effects of every layer, the least specific first |
| `Layers.LastOverrideWins` | crates/ppe-apl-core/src/rules.rs:633-666 | a plugin is configured by the last layer that overrides it, or as in the base; key and denial response stay the base's; the last layer's field rules come last, as written |
| `Layers.OuterLayersFinal` | crates/ppe-apl-core/src/rules.rs:633-638 | when the outer layers deny or suspend, the whole stack ends with exactly their run, in either phase |
| `FastPath.EvaluateRules` | crates/ppe-apl-core/src/evaluator.rs:62-97 | the nested loops return the decision of the first rule that denies |
| `FastPath.FastPathRefines` | crates/ppe-apl-core/src/rules.rs:455-463 | for rules with Allow, Deny and Taint effects the synchronous decision, reason and source included, is that of the interpreter on the rules as `when:` effects, which changes no state and never suspends |
| `FastPath.PluginSkipped` | crates/ppe-apl-core/src/evaluator.rs:55-61 | beyond those effects the paths part: a failing plugin in a fired rule denies in the interpreter and is skipped on the synchronous path |
| `Requirements.RequireTextParses` | crates/ppe-apl-core/src/parser.rs:614-644 | the text `require(P1, ..., Pn)`, for any number of expressible arguments, parses to a tree whose verdict is always the negation of "P1 and ... and Pn" |
| `Requirements.RequireAllowsExactly` | crates/ppe-apl-core/src/parser.rs:614-644 | a rule written `require(P1, ..., Pn)` allows if and only if every argument evaluates to definite true |
| `Predicates.EvalExpression` | crates/ppe-apl-core/src/evaluator.rs:99-111 | the recursive evaluator computes the specified verdict, down to the key reported unorderable |
| `Predicates.EvalAnd` | crates/ppe-apl-core/src/evaluator.rs:113-130 | the conjunction loop with its pending unknown: one false settles it, else the first unknown, else true |
| `Predicates.EvalOr` | crates/ppe-apl-core/src/evaluator.rs:132-149 | the disjunction loop, dually |
| `Kleene.KleeneExactly` | crates/ppe-apl-core/src/evaluator.rs:99-149 | strong Kleene logic: a verdict is definite, with value b, if and only if every way of answering the comparisons that could not be made, each occurrence on its own, gives b |
| `Kleene.ReorderingIrrelevant` | crates/ppe-apl-core/src/evaluator.rs:113-149 | reordering operands at any depth of an expression never changes its verdict class |
| `Kleene.KeyReported` | crates/ppe-apl-core/src/evaluator.rs:113-149 | a conjunction or disjunction without an answer reports the key of its first part without one, and that is so if and only if no other part settles it |
| `Predicates.OperandOrderIrrelevant` | crates/ppe-apl-core/src/evaluator.rs:113-149 | permuting the operands of a conjunction or disjunction never changes the verdict class |
| `Predicates.NormalizeNotNegates` | crates/ppe-apl-core/src/parser.rs:917-934 | `normalize_not` is exact three-valued negation for every expression and bag, down to the key reported |
| `Predicates.NormalizeNotPushes` | crates/ppe-apl-core/src/parser.rs:917-934 | negation stays pushed to the leaves |
| `Predicates.ComplementsExactly` | crates/ppe-apl-core/src/evaluator.rs:191-218 | `==` and `!=` negate each other on every bag; opposite order operators do if and only if the key is present |
| `Conditions.OrderMeans` | crates/ppe-apl-core/src/evaluator.rs:191-237 | the four order operators mean the mathematical order of the two numbers, whatever mix of integers, floats and numeric text carries them, where both are exact in `f64` or both are integers |
| `Conditions.OrderRefusedExactly` | crates/ppe-apl-core/src/evaluator.rs:220-237 | an order operator on a present key has no answer if and only if an operand cannot be read as a number |
| `Text.IntegersExactly` | crates/ppe-apl-core/src/evaluator.rs:372-383 | text is read as an integer if and only if it is an optional sign, zeros and the magnitude in decimal, within range |
| `Conditions.NumbersEqual` | crates/ppe-apl-core/src/evaluator.rs:273-284 | numbers are equal by value, integer or float on either side |
| `Conditions.KindsEqual` | crates/ppe-apl-core/src/evaluator.rs:273-284 | booleans, text and infinities equal only themselves, other kinds never meet, and NaN equals nothing |
| `Conditions.MissingMeans` | crates/ppe-apl-core/src/evaluator.rs:151-218 | a missing key differs from everything, fails every other comparison, does not exist and counts as false |
| `Conditions.PresentMeans` | crates/ppe-apl-core/src/evaluator.rs:151-189 | a present key exists whatever it holds and is true if and only if it holds the boolean true |
| `Conditions.ContainsMeans` | crates/ppe-apl-core/src/evaluator.rs:191-218 | `contains` holds if and only if the attribute is a set that has the text as a member |
| `Conditions.InMeans` | crates/ppe-apl-core/src/evaluator.rs:151-189 | `in` and `not in` are membership and its denial; a missing or misshapen operand is no member |
| `Ordering.ExactVerdict` | crates/ppe-apl-core/src/evaluator.rs:286-386 | when conversion keeps doubles, a verdict on integer pairs, integers within 2^53, finite floats and i64 spellings is the true mathematical order |
| `Ordering.BoundIsExact` | crates/ppe-apl-core/src/evaluator.rs:322-336 | under every rounding, integers within 2^53 convert unchanged and 2^53 + 1 converts to another integer, on which a comparison would answer wrongly; the comparison refuses it |
| `Binary64.IntegersAreDoubles` | crates/ppe-apl-core/src/evaluator.rs:322-336 | every integer of magnitude at most 2^53 is a double |
| `Binary64.BoundIsTight` | crates/ppe-apl-core/src/evaluator.rs:322-336 | 2^53 + 1 is not a double |
| `Binary64.NextIntegerCollapses` | crates/ppe-apl-core/src/evaluator.rs:322-336 | any rounding takes 2^53 + 1 to a neighbour that is a double |
| `Binary64.RoundingExists` | crates/ppe-apl-core/src/evaluator.rs:322-336 | a rounding exists: every real in range has a greatest double not above it, and rounding down to it is monotone, onto doubles and fixes them |
| `Ordering.ConversionExists` | crates/ppe-apl-core/src/evaluator.rs:337-386 | any reading of text as doubles extends to a conversion the rounding results apply to |
| `Ordering.RoundedVerdict` | crates/ppe-apl-core/src/evaluator.rs:286-386 | for any numeric text under any monotone rounding (section 4.3.1 of IEEE 754-2019) a strict true and a non-strict false are correct |
| `Ordering.RoundedVerdictsTrueIff` | crates/ppe-apl-core/src/evaluator.rs:286-386 | all four operators answer truly if and only if the two coerced values differ or the numbers are equal |
| `Attributes.Resolve` | crates/ppe-apl-core/src/attributes.rs:180-202 | the interpolation loop resolves a key as specified |
| `Attributes.ResolveRenders` | crates/ppe-apl-core/src/attributes.rs:180-202 | resolving a spelled template renders it, one substitution per group and none inside substituted text |
| `Attributes.GroupResolves` | crates/ppe-apl-core/src/attributes.rs:180-202 | a group resolves if and only if the bag holds a scalar under its trimmed text, and then to that scalar as written |
| `Constraints.RestrictFailsClosed` | crates/ppe-apl-core/src/constraint.rs:259-306 | resolution fails if and only if a deny-list reference is unusable, and names that reference; otherwise the deny list and the allow lists for models, regions and sites name exactly what the spec denotes, so an allow list with an unusable reference is set and names nothing, and cost tier, custom part and on_empty are the spec's |
| `Lexical.LiteralRoundTrip` | crates/ppe-apl-core/src/lexical.rs:79-133 | for every string, either quote and any surrounding text, reading the escaped spelling returns the string and the index just past its closing quote |
| `Lexical.WholeLiteralRoundTrip` | crates/ppe-apl-core/src/lexical.rs:165-187 | a whole-string read of a spelling in any white space returns its value |
| `LexerLaws.LiteralExactly` | crates/ppe-apl-core/src/lexical.rs:79-133 | a literal is read at a place if and only if a quote, a spelled text and the same quote stand there, and its value is that text |
| `LexerLaws.WholeExactly` | crates/ppe-apl-core/src/lexical.rs:165-187 | a text is one literal if and only if, trimmed, it is a quote, a spelled text and the same quote; it is none if and only if it is blank or starts otherwise |
| `LexerLaws.WholeFaultPoints` | crates/ppe-apl-core/src/lexical.rs:165-187 | a refusal names the place in the text as given: the opening quote, the backslash, or the text behind the literal |
| `Lexical.ReadLiteralBytes` | crates/ppe-apl-core/src/lexical.rs:79-133 | the byte loop on valid UTF-8 returns exactly the character-level result, and its cut-mid-character branches are unreachable |
| `Lexical.CharOffsetIsIndex` | crates/ppe-apl-core/src/lexical.rs:67-69 | a reported position counts characters |
| `Utf8.DecodeAtOffset` | crates/ppe-apl-core/src/lexical.rs:122-131 | decoding at a character's byte offset gives that character back |
| `Lexer.Cursor.TokenizeAll` | crates/ppe-apl-core/src/parser.rs:166-257 | the cursor loop produces the specified tokens or the first fault |
| `Lexer.Cursor.Symbol` | crates/ppe-apl-core/src/parser.rs:175-236 | one- and two-character operators are read, and doubled or lone ones refused, as specified |
| `Lexer.Cursor.Number` | crates/ppe-apl-core/src/parser.rs:276-314 | numbers are read as specified and leave the cursor at their end |
| `Lexer.Cursor.Path` | crates/ppe-apl-core/src/parser.rs:326-392 | the segment loop reads a dotted path with its groups |
| `Lexer.Cursor.Subscript` | crates/ppe-apl-core/src/parser.rs:412-457 | a group is closed, flat, non-empty and free of empty segments, or is refused |
| `LexerLaws.TokenSpelled` | crates/ppe-apl-core/src/parser.rs:175-457 | every token is spelled by exactly the text it was read from |
| `LexerLaws.TokensSpell` | crates/ppe-apl-core/src/parser.rs:166-257 | a text that lexes is white space and the spellings of its tokens, in order, and nothing else |
| `LexerLaws.TokenEnds` | crates/ppe-apl-core/src/parser.rs:276-392 | tokens are read as far as they go: no digit and no exponent follows a number, and nothing that would continue a word follows a word |
| `AttributePaths.PathIsIdent` | crates/ppe-apl-core/src/parser.rs:326-392 | every path of the grammar that is not reserved lexes as one identifier wherever it stands |
| `AttributePaths.IdentIsPath` | crates/ppe-apl-core/src/parser.rs:326-457 | every identifier the lexer produces is such a path, spelled by the text consumed |
| `PredicateParser.Parse` | crates/ppe-apl-core/src/parser.rs:765-767 | lexing and parsing with cursors gives the specified result, on every text |
| `PredicateParser.Cursor.Disjunction` | crates/ppe-apl-core/src/parser.rs:529-543 | the loop over alternatives parses as specified and advances the cursor to the end of what it read |
| `PredicateParser.Cursor.Keyed` | crates/ppe-apl-core/src/parser.rs:679-757 | a comparison, membership test or bare key is read token by token as specified, with the same refusals |
| `PredicateParser.Cursor.Requirements` | crates/ppe-apl-core/src/parser.rs:614-644 | the argument loop of `require(...)` joins its parts and negates them |
| `PredicateSyntax.ParsesExactly` | crates/ppe-apl-core/src/parser.rs:500-757 | a token list parses to a tree if and only if it spells a sentence of the grammar, with its precedence, parentheses, `not` and `require(...)` lists, that means that tree |
| `PredicateSyntax.Unambiguous` | crates/ppe-apl-core/src/parser.rs:500-757 | sentences written alike mean the same |
| `PredicateText.SentenceParses` | crates/ppe-apl-core/src/parser.rs:166-757 | the text of any sentence, whatever its parentheses and `require(...)` lists, parses to what it means |
| `PredicatePrinter.PredicateParses` | crates/ppe-apl-core/src/parser.rs:500-757 | a printed predicate anywhere in a token list parses back to the identical tree and stops at its end |
| `PredicateText.RenderLexes` | crates/ppe-apl-core/src/parser.rs:166-457 | rendered tokens lex back to themselves |
| `PredicateText.PredicateRoundTrip` | crates/ppe-apl-core/src/parser.rs:166-757 | for every expression without `Always`, with connectives of at least two parts and legal paths, printing then lexing and parsing returns the identical tree |
| `PredicateRange.ParsedSayable` | crates/ppe-apl-core/src/parser.rs:765-767 | every tree parsed from any text has a printed form: no `Always`, connectives of at least two parts, legal paths, floats some decimal is read as |
| `PredicateRange.RangeExactly` | crates/ppe-apl-core/src/parser.rs:166-767 | a tree comes from some text if and only if it has a printed form, so the round trip covers exactly the range of the parser |
| `PredicateRange.ReprintParses` | crates/ppe-apl-core/src/parser.rs:166-767 | printing what any text parsed to, and parsing again, gives the same tree |
| `Scanners.SplitTopLevel` | crates/ppe-apl-core/src/parser.rs:2730-2764 | the loop over position, depth and start cuts where the specification cuts |
| `Scanners.SplitRejoins` | crates/ppe-apl-core/src/parser.rs:2730-2764 | pieces rejoined with the delimiter reproduce every input |
| `SplitLaws.SplitExactly` | crates/ppe-apl-core/src/parser.rs:2730-2764 | the split is the one sequence of pieces that joins back to the text with every piece but the last closed (whole literals, brackets that cancel, no top-level delimiter) and the last uncut |
| `SplitLaws.FirstCutExactly` | crates/ppe-apl-core/src/parser.rs:2730-2764 | a position is the first split point if and only if a delimiter stands there after closed text |
| `Scanners.SplitCommas` | crates/ppe-apl-core/src/parser.rs:1549-1597 | the loop builds the same parts, or the same refusal, as the specification |
| `Scanners.CommaSplitRejoins` | crates/ppe-apl-core/src/parser.rs:1549-1597 | a successful comma split rejoins to its input |
| `Scanners.CommaSplitAgrees` | crates/ppe-apl-core/src/parser.rs:1549-1597 | without braces outside literals a successful comma split is the plain split |
| `ScanLaws.CommaSplitExactly` | crates/ppe-apl-core/src/parser.rs:1549-1597 | keyword arguments split if and only if every literal ends and the brackets, of whatever kind, open before they close and all close; then the cuts are exactly the commas at depth zero; which error otherwise |
| `Scanners.FindTopLevelPipe` | crates/ppe-apl-core/src/parser.rs:2384-2417 | the loop finds the specified pipe |
| `Scanners.FindPipeExactly` | crates/ppe-apl-core/src/parser.rs:2384-2417 | it finds the first split point of the plain splitter if and only if that point does not start a doubled pipe |
| `ScanLaws.FindPipeIsFirstLone` | crates/ppe-apl-core/src/parser.rs:2384-2417 | the pipeline starts at the first top-level pipe that is not half of a double pipe |
| `Scanners.SplitPredicateAction` | crates/ppe-apl-core/src/parser.rs:1007-1040 | a rule splits at the last colon outside literals, parentheses and brackets, both halves trimmed |
| `Scanners.LastColonIsCut` | crates/ppe-apl-core/src/parser.rs:1007-1040 | that colon is always one of the plain splitter's cut points |
| `ScanLaws.LastColonExactly` | crates/ppe-apl-core/src/parser.rs:1007-1040 | a rule is split at its last colon outside literals, parentheses and brackets, if it has one |
| `Calls.ExtractCallArgs` | crates/ppe-apl-core/src/parser.rs:2647-2693 | the paren-matching loop returns the specified argument |
| `Calls.SplitHeadArgs` | crates/ppe-apl-core/src/parser.rs:2973-3028 | head and argument are split as specified, or refused |
| `Calls.CallRewraps` | crates/ppe-apl-core/src/parser.rs:2647-2693 | wrapping the extracted argument again gives back the trimmed call |
| `Calls.HeadArgsTrims` | crates/ppe-apl-core/src/parser.rs:2973-3028 | the stage reader reads a line as it reads the trimmed line |
| `Calls.ReadersAgree` | crates/ppe-apl-core/src/parser.rs:2973-3028 | on any line and for any name (not empty, trimmed, free of parentheses), the call reader returns an argument if and only if the trimmed line writes the name and an open parenthesis and the stage reader returns that name and argument |
| `ScanLaws.CallArgsExactly` | crates/ppe-apl-core/src/parser.rs:2647-2693 | the call reader accepts exactly the lines that, trimmed, are the name and an argument in parentheses that close at the end, and returns the argument |
| `ScanLaws.HeadArgsExactly` | crates/ppe-apl-core/src/parser.rs:2973-3028 | the stage reader returns a head and an argument if and only if the text is a head that is not blank and an argument in parentheses followed by white space, and a bare head if and only if there is no parenthesis |
| `Pipelines.EvaluatePipeline` | crates/ppe-apl-core/src/evaluator.rs:1594-1887 | the stage loop yields the specified outcome, taints and stage index |
| `Stages.PipelineRuns` | crates/ppe-apl-core/src/evaluator.rs:1594-1887 | a pipeline of any stages hands each what the one before left; it ends as the first stage that drops or rejects does, else with the last value, as a replacement if and only if some stage replaced; its taints are those of the stages reached, in order |
| `Stages.TypesExactly` | crates/ppe-apl-core/src/evaluator.rs:1889-1926 | the type tests are the sets of values their names say |
| `Stages.AdmitsExactly` | crates/ppe-apl-core/src/evaluator.rs:1594-1887 | a type, range, length, enumeration or pattern stage lets by exactly the values within its bounds, both ends included |
| `Stages.FirstRejects` | crates/ppe-apl-core/src/evaluator.rs:1594-1887 | the first stage that does not admit the value is the one reported |
| `Stages.RedactMeans` | crates/ppe-apl-core/src/evaluator.rs:1594-1887 | a redaction replaces the value if and only if it has no condition or the condition definitely holds, passes it if the condition definitely fails, and rejects if the condition has no answer |
| `Stages.TransformsMean` | crates/ppe-apl-core/src/evaluator.rs:1594-1887 | omit drops, hash and mask replace, and mask rejects what is not text |
| `Stages.ScansMean` | crates/ppe-apl-core/src/evaluator.rs:1594-1887 | each scan taints the session with what it looks for, and only the redacting one touches the value |
| `Stages.TaintStageMeans` | crates/ppe-apl-core/src/evaluator.rs:1594-1887 | a taint stage records its tag and lets the value by |
| `Stages.PluginStageMeans` | crates/ppe-apl-core/src/evaluator.rs:1594-1887 | a plugin stage passes on the plugin's value, keeps the old one when it gave none, rejects a denial or a failure, and keeps the taints of an answer |
| `PipelineLaws.PipelineComposes` | crates/ppe-apl-core/src/evaluator.rs:1594-1887 | running p then q in one pipeline is q on p's output with stages renumbered and taints concatenated; a drop or rejection absorbs q |
| `PipelineLaws.MaskPipelineTwice` | crates/ppe-apl-core/src/evaluator.rs:1594-1887 | mask(a) then mask(b) is mask(min(a, b)) on every value |
| `PipelineLaws.MaskShows` | crates/ppe-apl-core/src/evaluator.rs:1594-1887 | a mask shows exactly the last characters it keeps |
| `PipelineLaws.JudgingPassesExactly` | crates/ppe-apl-core/src/evaluator.rs:1594-1887 | a pipeline of judging stages never rewrites or drops: it passes a value if and only if every stage accepts it, and rejects it otherwise |
| `PipelineLaws.JudgingOrderIrrelevant` | crates/ppe-apl-core/src/evaluator.rs:1594-1887 | the order of judging stages decides only which rejection is reported |
| `PipelineLaws.RedactErases` | crates/ppe-apl-core/src/evaluator.rs:1594-1887 | after an unconditional redact with no plugin following, any two inputs that reach it, under any two hosts, leave the same outcome |
| `PipelineLaws.PluginFreeShift` | crates/ppe-apl-core/src/evaluator.rs:1594-1887 | a pipeline without plugin stages depends on no host, and its place only renumbers rejections |
| `Payloads.SetThenGet` | crates/ppe-apl-core/src/route.rs:719-748 | a write at a concrete path is read back there |
| `Payloads.SetElsewhere` | crates/ppe-apl-core/src/route.rs:719-748 | a write leaves every path that parts from it unchanged |
| `Payloads.WritesExactly` | crates/ppe-apl-core/src/route.rs:719-769 | a write takes if and only if the parent is an object, which gains the key if need be, or the path already leads somewhere; a removal if and only if a path below the root leads somewhere |
| `Payloads.PathsLead` | crates/ppe-apl-core/src/route.rs:487-493 | where a path leads: an object's value under the key, an array's element under its number, with or without a plus sign, nothing below a scalar; longer paths go on from shorter ones |
| `AttributeTrees.MergeObject` | crates/ppe-apl-runtime/src/attribute_source.rs:119-144 | with keys taken in any order, merging succeeds if and only if the trees are compatible, gives the merge, and on failure reports a path that really conflicts |
| `AttributeTrees.CompatibleExactly` | crates/ppe-apl-runtime/src/attribute_source.rs:119-144 | two trees are compatible if and only if they agree at every path where both hold something |
| `AttributeTrees.MergeShape` | crates/ppe-apl-runtime/src/attribute_source.rs:119-144 | the merge holds at each path what either tree holds there |
| `AttributeTrees.MergeCommutes` | crates/ppe-apl-runtime/src/attribute_source.rs:119-144 | merging compatible trees is commutative |
| `AttributeTrees.MergeIdempotent` | crates/ppe-apl-runtime/src/attribute_source.rs:119-144 | merging a tree with itself changes nothing |
| `AttributeTrees.MergeAssociative` | crates/ppe-apl-runtime/src/attribute_source.rs:119-144 | merging pairwise compatible trees is associative |
| `AttributeTrees.CompatibleWithMerge` | crates/ppe-apl-runtime/src/attribute_source.rs:119-144 | a third tree fits a merge if and only if it fits both parts |
| `AttributeDocuments.MergeAttributeDocs` | crates/ppe-apl-runtime/src/attribute_source.rs:67-77 | the document loop succeeds and yields as specified |
| `AttributeDocuments.MergesExactly` | crates/ppe-apl-runtime/src/attribute_source.rs:67-113 | merging succeeds if and only if every document is nothing or holds nothing but `data`, and that nothing or a mapping, and no two disagree at a path below `data` |
| `AttributeDocuments.LeavesAreUnion` | crates/ppe-apl-runtime/src/attribute_source.rs:67-144 | the merged tree is a mapping whose leaves are exactly the union of the documents' leaves below `data`, at their paths |
| `AttributeDocuments.OrderIrrelevant` | crates/ppe-apl-runtime/src/attribute_source.rs:67-77 | lists with the same documents, in any order and however often each, merge alike |
| `Flattening.WalkInner` | crates/ppe-apl-cmf/src/payload.rs:57-120 | with object keys in any order, the walk touches only the prefix and keys below it, and with dot-free keys leaves there exactly the flattened document; under the empty prefix the same holds of each field under its own name |
| `Flattening.ArrayMembers` | crates/ppe-apl-cmf/src/payload.rs:71-103 | an array becomes a set of its scalars' text, or is refused if and only if it holds an array or object |
| `Flattening.LookupExactly` | crates/ppe-apl-cmf/src/payload.rs:33-37 | into a bag clear of the prefix, the joined path reads back exactly the classified node, and for arguments and results it is absent if and only if the path is |
| `Flattening.LookupReads` | crates/ppe-apl-cmf/src/payload.rs:57-120 | what a policy reads at a joined path is the value of the node there: numbers, text and booleans as themselves, arrays of scalars as sets of their text |
| `Flattening.NoStrayKeys` | crates/ppe-apl-cmf/src/payload.rs:33-37 | every key found under the prefix names a node of the document |
| `Flattening.FlattenedUnique` | crates/ppe-apl-cmf/src/payload.rs:57-120 | the outcome of a walk does not depend on iteration order |
| `Flattening.FlattenCommutes` | crates/ppe-apl-cmf/src/lib.rs:123 | extractions under separate prefixes commute |
| `Flattening.NamespacesApart` | crates/ppe-apl-cmf/src/payload.rs:33-51 | the argument, result and data prefixes are separate |
| `Preimages.Feed` | crates/ppe-apl-cmf/src/llm.rs:120-144 | the updates fed to the hash concatenate to the specified preimage |
| `Preimages.PreimageDecodes` | crates/ppe-apl-cmf/src/llm.rs:112-144 | the tag, count, role and length framing has a left inverse, for every list |
| `Preimages.CountShown` | crates/ppe-apl-cmf/src/llm.rs:112-144 | behind the tag, the header is the number of instructions, or the largest four bytes can hold |
| `Preimages.PreimageInjective` | crates/ppe-apl-cmf/src/llm.rs:112-144 | lists with equal preimages are equal in roles, order, boundaries and bytes |

## Left out

- Flattening.WalkInner: says nothing of an object under the empty prefix that holds another object under an empty name, whose fields can share keys with their siblings, so that the result depends on the order keys are taken in; no caller in the repository passes an empty prefix.
- FieldWrites.FieldOpWrites: asks that the paths part from one another and that what is omitted be an object's key; `FieldWrites.OmittedTwice` shows what else happens in arrays.
- Branches.RunBranches: the runtime is any function that joins a branch still out, reports its own result and cancels only after an abort was asked for; spawning is not modelled.
- Expansion of field paths with wildcards and its fan-out limits: an arbitrary function here, so what is proved holds for any expansion.
- Wording of deny reasons and parse errors: reasons are values of a datatype that carry the same data.
- Decoding of YAML policy files, the keyword arguments of delegate, elicit and restrict steps, and the stage and action grammars: long but shallow.
- The route-level order of field rules, pre- and post-invocation phases, the session store and the decision cache.
- Plugin registries, capability tables and the host-side fold of backend constraints.
- The other attribute extractors (agent, HTTP, MCP, security and so on): field copies.
- Integer overflow of bracket counters in the scanners beyond 2^31 nested brackets, and texts over 2^63 bytes.
- SHA-256, regular-expression matching and the parsing and printing of floats: kept arbitrary.
- Lookup after flattening a document whose object keys contain dots: two nodes can then share a key, and which one stays depends on the order they are visited in.
