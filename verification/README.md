# jit-signal-engine: a verified model

jit-signal-engine compiles a small language of trading signals. A program is a list of named expressions over
market quotes, parameters and stateful operators (moving averages, rolling extrema, correlations). Signals are
inlined into one another, structurally equal stateful calls share a state slot, and the result is either
interpreted or compiled, for one market or for several at once, with or without warm-up guards. Ticks reach it
through a lock-free queue. This project models those parts in Dafny and proves what their design rests on.

## What is proved

**The compiler.** Stateful operators are abstract machines over uninterpreted values, so no result depends on what
an operator computes. The scalar code, with its blocks, phis and emit cache, has the outputs and the next state of
evaluation from left to right, on every market and from every state (`Program.ScalarProgramCorrect`), and each
definition dominates its uses on every path of the control-flow graph (`Dominance.DefinitionsDominateUses`). The
interpreter takes the noise of a Kalman filter before its sample; whether that can be noticed is decided, exactly,
by running a program symbolically in both orders (`InterpreterOrder.InterpreterAgreesIff`). Sharing slots is
invisible: if branches only repeat earlier unconditional calls, interpreter and compiled code compute the plain
meaning in which every call is a machine of its own (`InterpreterStreams.InterpreterIsStreams`,
`InterpreterStreams.CodeIsStreams`), and in any program an unconditional slot steps exactly once
(`StepsOnce.EachSlotSteppedOnce`). Under the same condition the vectorised program is K scalar programs
(`VectorProgram.VectorMatchesScalar`), and that condition is exact (`VectorExact.VectorisesIff`). Specialised code
cannot be told from the baseline once the warm-up threshold has passed (`TieredCode.SpecialisedCode`), and that
threshold is the least (`WarmExact.ThresholdIsLeast`). Before all that, inlining fails exactly on repeated names and
cycles, has one result, and preserves meaning (`InlineProgram`), with the exact condition under which it treats
tickers rightly, and its results compile (`InlineCompile.SourceRuns`).

**The operators.** Over the reals, each incremental window equals its definition over the last samples: rolling
extrema on a monotonic deque (also as the emitted block graph), Welford's mean and variance with remove-then-add,
the inline running-sum variants with their zscore, the inline moving averages and lags, the paired sums as
covariance and variances with Cauchy-Schwarz for the correlation clamp, and the gradient steps as the same windows
over dual numbers.

**The queue.** The ring is a state machine whose steps are the individual loads and stores of two threads. The
protocol invariant holds on every interleaving, the 64-bit wrapping indices simulate unbounded counters, and the
benchmark's producer and consumer lose nothing.

**Text and derivatives.** The parser accepts exactly the sentences of a grammar stated apart from it. The printer
and the parser are inverse on an exactly stated set of trees, with and without the folding of constants that follows
parsing; printing twice is printing once on another such set. Canonical strings decode uniquely, the derivative tree
agrees with forward evaluation except on an exactly stated set of inputs, and both are true derivatives away from
switching boundaries.

## How it is built

Code that computes by recursion is a function here. Code that works step by step is a class or a method with
loops (the interpreter's visitors, the emitters, the id allocator, the printer, the parser, the depth-first
search, the ring, and every window state), proved equal to a function, and the theorems are about the function.
`dafny verify dfyconfig.toml` checks the whole project.

| part | files |
|---|---|
| trees and their meaning | Ast, Builtins, Evaluation, TreeInterpreter, Streams |
| inlining | Inline, InlineProgram, InlineCompile |
| node ids and sharing | Sharing, NodeIds, AllocSound, DenseIds, AllocSteady, SteadyExact, SettledTrees, Claims, StreamsProgram, InterpreterStreams, StepCounts, StepsOnce |
| scalar code | Ir, Codegen, EmitFrame, CodegenCorrect, Program, Dominance |
| order of arguments | NoiseExchange, NoiseOrder, Symbolic, SymbolicRuns, OrderExact, InterpreterOrder, NoiseWitness |
| vector code | Vector, VectorCorrect, VectorProgram, VectorExact |
| specialisation | Warm, WarmExact, WarmRun, WarmOps, LoweredRuns, TieredCode |
| windows | Windows, Remainders, MonoDeque, MonoLowered, RingStats, LoweredStd, PairStats, PairMoments, PairGradient |
| queue | Spsc, SpscWrap, SpscPipeline |
| text | Tokens, Formatter, Parser, Grammar, RoundTrip, ParensNeeded, Stability, ProgramText, FoldMeaning, Canonical |
| derivatives | Calculus, Autodiff, EvalLaws, TrueDerivative |
| shared | Options, Reals |

## Where code and documentation disagree

The model follows the code.

- `src/dsl_formatter.h:3-7` promises that formatting round-trips and is idempotent for every accepted program.
  Both fail on `a || (b && c)`: the printer ranks the two logical operators, the parser does not
  (`RoundTrip.OrOfAndComesBackRegrouped`, `RoundTrip.FormattingTwiceDiffers`). The exact condition of the round
  trip is `RoundTrip.RoundTripIff` for the bare parser and `ProgramText.AcceptedRoundTripIff` for the program
  parser; that of idempotence, for the text of a definition, is `Stability.FormattingTwiceIff`.
- The same header (`src/dsl_formatter.h:10-11`) promises parentheses only where the parser would otherwise regroup.
  `(a || b) && c` is printed with a pair it would not (`ParensNeeded.RedundantPair`); `ParensNeeded.LeftParensNeededIff`
  is the exact condition.
- The interpreter evaluates the noise of `kalman1d` before its sample (`src/interpreter.cpp:557-568`), compiled code
  after it (`src/jit_compiler.cpp:2418-2463`), so the two leave different contexts on
  `NoiseWitness.NoiseFirstDiffers`. The exact condition is `InterpreterOrder.InterpreterAgreesIff`: symbolic runs in
  the two orders, one for each way the conditions can come out, end in the same terms. A condition on ids alone
  (`InterpreterOrder.SharedNoiseIsIrrelevant`) is sufficient but not exact (`NoiseWitness.DeadBranchIsHarmless`).
- `src/jit_compiler.cpp:1930-1933` says that stateful operators are rejected in vector mode. They are not;
  `VectorExact.VectorisesIff` is the exact condition under which both branches may be emitted.
- `docs/autodiff_derivations.md:30` gives `abs` the derivative 0 at 0. The forward pass multiplies by 0 instead,
  which is not 0 when the argument's own gradient is undefined (`Autodiff.KinkDiffers`). Tree and forward pass
  differ exactly where `Autodiff.SymbolicIsForward` says.
- Inlining looks tickers up like references (`src/signal_program.cpp:49-53`) although the references it collects
  leave them out (`src/signal_program.cpp:84-93`); `InlineProgram.InliningSubstitutesIff` is the exact condition
  under which this does not show, and `InlineProgram.ClashesAreVisible` finds a changed meaning otherwise.

## Model

| member | source | states |
|---|---|---|
| Ast.AstEqualsIsEqualClones | src/ast_clone.cpp:43-96 | structural equality ignores node ids and nothing else: it holds exactly when the clones are the same tree |
| Builtins.NamesAreKinds | src/signal_program.cpp:249-258 | built-in names and their kinds are one to one, and any other name is unknown |
| Builtins.ClassesByName | src/signal_program.cpp:84-93 | which names read a quote, take a ticker first, are stateless or keep a slot, where their period stands and how many arguments each takes |
| NodeIds.NodeIdAllocator.Search | src/signal_program.cpp:294-306 | the search over the calls met so far returns the specified alias |
| NodeIds.NodeIdAllocator.WalkExpr | src/signal_program.cpp:359-391 | the walk that writes node ids into the tree yields the specified annotated tree and leaves the specified counter and list |
| NodeIds.NodeIdAllocator.AllocateProgramNodeIds | src/signal_program.cpp:351-398 | one pass over a program, with the list cleared between signals, yields the specified ids |
| AllocSound.AliasFound | src/signal_program.cpp:294-306 | an alias is found exactly when an earlier unconditional call is structurally equal, and it is the id of such a call |
| AllocSound.WalkSound | src/signal_program.cpp:260-349 | ids are shared soundly: along evaluation order every stateful call is either surely cached already or has an id that was met on no path; aliasing an enclosing call whose arguments are still being walked cannot happen |
| AllocSound.WalkCovered | src/signal_program.cpp:294-349 | inside an aliased call everything unconditional is aliased too, so its second walk adds nothing that evaluation would step |
| TreeInterpreter.Interpreter.Evaluate | src/interpreter.cpp:31-49 | one evaluation from a cleared cache gives the value and the slots that the evaluation semantics specifies for the order in which the interpreter takes arguments |
| TreeInterpreter.Interpreter.Visit | src/interpreter.cpp:56-118 | each visitor leaves the specified value, cache and slots |
| TreeInterpreter.Interpreter.VisitCall | src/interpreter.cpp:120-236 | a call with a cached id returns the cached value and steps nothing; any other stateful call steps its slot once and is cached |
| Codegen.CodegenContext.EmitExpr | src/jit_compiler.cpp:1825-1912 | emission at the insert point appends exactly the specified instructions and blocks |
| Codegen.CodegenContext.EmitConditional | src/jit_compiler.cpp:1940-1967 | the three blocks are created before the condition is emitted, and the phi names the blocks in which the branches end |
| Codegen.CodegenContext.EmitCall | src/jit_compiler.cpp:1970-1994 | a stateful id emitted before in this compile returns the cached value and emits nothing |
| Codegen.CodegenContext.EmitProgram | src/jit_compiler.cpp:3272-3284 | every signal is emitted and stored at its output index, and one cache serves the whole program |
| EmitFrame.EmitGrew | src/jit_compiler.cpp:1825-1994 | emission only appends: closed blocks stay as they are, the current block only grows, and cached values are kept |
| CodegenCorrect.EmitSim | src/jit_compiler.cpp:1825-1994 | running the code emitted for one expression, across its branches and phis, computes the value, slots and steps of evaluating the tree from left to right, from any state in which the two caches agree |
| CodegenCorrect.EmitSimCond | src/jit_compiler.cpp:1940-1967 | the same for a conditional, whichever branch runs; what one branch cached is not relied on after the merge |
| Program.AllocateProgramSound | src/signal_program.cpp:351-398 | a whole well-formed program becomes runnable and soundly shared, with no id shared across signals |
| Program.ScalarProgramCorrect | src/jit_compiler.cpp:3272-3281 | compiler correctness: for every well-formed program with allocated ids, every market and every state, the compiled program terminates with the outputs, the next state and the step counts of evaluating each signal in order, arguments from left to right, and never reads an undefined register |
| DenseIds.ProgramDense | src/signal_program.cpp:351-398 | ids are handed out without gaps: those in a program are exactly the numbers from the first to the one before the next free one |
| Dominance.DefinitionsDominateUses | src/jit_compiler.cpp:1971-1994 | on every path through the control-flow graph from the entry, whether or not it can be run, each operand of an instruction, phi or branch has been defined before: a reused cached value sits in a block that dominates the reuse |
| Dominance.EmitCert | src/jit_compiler.cpp:1825-1994 | emission extends a certificate of what is in scope at the entry of every block, from which dominance follows |
| NoiseExchange.NoiseEitherWay | src/interpreter.cpp:557-568 | if every call in the noise of a kalman1d is the only tree with its id there, noise before sample and sample before noise give the same values, slots, cache and step counts, from any state |
| NoiseOrder.OrdersAgree | src/interpreter.cpp:557-568 | so on trees in which every kalman1d is such, the interpreter's order gives what left-to-right order gives |
| Symbolic.Closer | src/jit_compiler.cpp:1940-1967 | listing the outcome of the condition a symbolic run stopped at brings both runs closer to their ends, so the case analysis over all outcomes is finite |
| SymbolicRuns.ProgramSound | src/interpreter.cpp:120-245 | a symbolic run that reaches its end stands for every evaluation, with any operators, market and context, in which the conditions come out as it lists them: its terms read as the outputs and the slots |
| OrderExact.OrderDoesNotMatter | src/interpreter.cpp:557-568 | if symbolic runs in the two orders end in the same terms for every outcome of the conditions, the two orders give the same outputs and context under any operators, on any market, from any context |
| OrderExact.Distinguished | src/interpreter.cpp:557-568 | and if they do not, there are outcomes of the conditions for which the operators that build terms tell the two orders apart |
| InterpreterOrder.InterpreterAgrees | src/jit_compiler.cpp:2418-2463 | compiled code leaves the outputs and the context the interpreter leaves, for any operators, market and context, whenever that symbolic test succeeds |
| InterpreterOrder.InterpreterAgreesIff | src/jit_compiler.cpp:2418-2463 | and the test is exact: it fails only for programs on which compiled code and interpreter do differ |
| InterpreterOrder.SharedNoiseIsIrrelevant | src/jit_compiler.cpp:2418-2463 | it succeeds, in particular, when the noise of every kalman1d shares no slot with the sample except for the very same tree |
| NoiseWitness.FilterIds | src/signal_program.cpp:260-349 | the ids the allocator gives to kalman1d(x, x, b) with x = sma(if b then ema(b, b) else b, b): the two occurrences of x share a slot, the calls in their branches do not |
| NoiseWitness.NoiseFirstDiffers | src/interpreter.cpp:557-568 | on that program, with any operators that take b as true, the compiled program leaves slots 1, 2, 3 and the interpreter slots 1, 2, 4 |
| NoiseWitness.DeadBranchIsHarmless | src/interpreter.cpp:557-568 | a program with the same ids, and different trees under a shared one, on which the order never matters: the differing call stands in a dead branch, so no condition on ids alone is exact |
| AllocSteady.AllocateSteady | src/signal_program.cpp:260-349 | if every stateful call in a branch equals an unconditional call earlier in walk order, then after allocation branches only look up surely cached ids, and an id always stands for one structure |
| StreamsProgram.SessionSlots | src/interpreter.cpp:120-140 | between the ticks of compiled code every slot holds the state its own machine has after the ticks so far |
| SettledTrees.WalkOwned | src/signal_program.cpp:260-349 | in such a program every stateful call, at any depth, gets the id of the first equal unconditional call |
| SettledTrees.SettledNoise | src/signal_program.cpp:260-349 | so an id stands for one tree in it, and the order of kalman1d's arguments cannot matter |
| InterpreterStreams.InterpreterIsStreams | src/interpreter.cpp:120-140 | over every run from a fresh context such programs compute the plain stream meaning, in the interpreter's order and in the compiled one: each stateful call runs a machine of its own that steps at every tick |
| InterpreterStreams.CodeIsStreams | src/jit_compiler.cpp:3272-3281 | and so does the compiled code, run tick after tick |
| SteadyExact.SteadyIffSettled | src/signal_program.cpp:260-349 | branches only look up surely cached ids after allocation exactly when every stateful call met in a branch of the source equals an unconditional call before it |
| Claims.WalkClaims | src/signal_program.cpp:260-349 | in any program, whoever has the id of an unconditional call has it by structure, and so have the unconditional calls inside it |
| StepsOnce.EachSlotSteppedOnce | src/interpreter.cpp:120-140 | in every evaluation of every well-formed program, in the interpreter's order and in the compiled one, an unconditional slot is stepped exactly once and a conditional slot at most once, however many calls share it |
| Vector.VectorEmitter.EmitExpr | src/jit_compiler.cpp:1825-1939 | vector emission appends exactly the specified instructions; conditionals become selects |
| Vector.VectorEmitter.EmitProgram | src/jit_compiler.cpp:3925-3947 | the loop over the signals emits the specified program |
| VectorCorrect.FanOutLane | src/jit_compiler.cpp:697-740 | the scalarised fan-out steps the context of each lane once, with that lane's inputs and market, and no other context |
| VectorCorrect.VSim | src/jit_compiler.cpp:1825-1994 | lane k of the vector code computes what evaluation computes on market k and context base + k |
| VectorCorrect.VSimCond | src/jit_compiler.cpp:1928-1939 | emitting both branches is harmless when they only look up cached calls; the lane selects the one its condition takes |
| VectorProgram.VectorMatchesScalar | src/jit_compiler.cpp:3925-3947 | for lane counts 2, 4 and 8, if every stateful call in a branch equals an earlier unconditional one, outputs[i*K + k] is the scalar compiled program's output i on market k and context base + k, the K contexts agree, and nothing else is written |
| VectorExact.VectorisesIff | src/jit_compiler.cpp:1928-1939 | that condition is exact: for any operators and markets, each lane agrees with scalar code from a fresh context whatever the conditions come to, if and only if every stateful call met in a branch of the source equals an unconditional call before it |
| VectorExact.UnsteadySkips | src/jit_compiler.cpp:1928-1939 | a program that breaks it has a slot the walk meets and the scalar code never steps once all conditions go one way |
| VectorExact.RunSteps | src/jit_compiler.cpp:697-740 | vector code that runs has stepped, in every lane, each slot it names |
| VectorExact.BranchMayNotBeVectorised | src/jit_compiler.cpp:1928-1939 | the shortest such input, a moving average that stands only in a branch: with any operators, for one way its condition can come out, no lane agrees with scalar code |
| Warm.ThresholdCovers | src/jit_compiler.cpp:61-101 | the program threshold is at least what each warm-safe call needs |
| WarmExact.ThresholdIsLeast | src/jit_compiler.cpp:61-101 | and it is the least such number: 0, or attained by some bounded call with a literal period, or an ema_alpha, anywhere in the program, branches included; 1 for ema and ema_alpha, the period for the others |
| WarmExact.CollectsAllUnconditional | src/jit_compiler.cpp:757-789 | what is compiled without guards is exactly the sma, ema and lag calls that stand outside every branch |
| WarmRun.WalkCollects | src/jit_compiler.cpp:757-789 | the collected warm-safe calls have ids that every evaluation steps |
| WarmRun.EvalAges | src/jit_compiler.cpp:757-789 | an evaluation never makes a slot younger, and a slot it steps grows one tick older |
| WarmRun.WarmSame | src/jit_compiler.cpp:1064-1249 | once the warm-safe slots are ripe, evaluating without guards is evaluating |
| WarmRun.SpecialisedAfterThreshold | src/jit_compiler.cpp:4272-4300 | for any operators whose guard-free variants agree with the guarded ones after their own number of ticks: the specialised program is the baseline program from the threshold on, for all ticks before and after |
| WarmOps.LoweredLaws | src/jit_compiler.cpp:1064-1249 | the lowered sma, ema and lag obey those laws: full or initialised after their own ticks, and they stay so |
| WarmOps.LoweredProgramSpecialises | src/jit_compiler.cpp:4228-4300 | so the specialised program returns the baseline's outputs and contexts on every later input stream |
| WarmOps.SmaSlot.Push | src/jit_compiler.cpp:1064-1145 | the emitted sma, guarded or not, updates its slot as specified |
| WarmOps.EmaSlot.Push | src/jit_compiler.cpp:1147-1196 | the emitted ema, guarded or not, updates its slot as specified |
| WarmOps.LagSlot.Push | src/jit_compiler.cpp:1198-1249 | the emitted lag, guarded or not, updates its slot as specified |
| WarmOps.TieredProgram.Promote | src/jit_compiler.cpp:4272-4300 | promotion switches the current program to the specialised one, and is idempotent |
| WarmOps.RunTiered | src/jit_compiler.h:304-313 | a caller that promotes at the threshold runs the baseline up to it and the specialised program from then on, and cannot see the switch in any output, on any input |
| LoweredRuns.SmaOutput | src/jit_compiler.cpp:1064-1145 | over the reals and over every run, the lowered sma is not a number until it has seen `period` samples, then the mean of the last `period` |
| LoweredRuns.SmaSlotIs | src/jit_compiler.cpp:1064-1145 | its ring holds exactly the last min(n, period) samples and its sum is theirs |
| LoweredRuns.EmaOutput | src/jit_compiler.cpp:1147-1196 | the first output of the lowered ema is the first sample; from then on it is the weighted sum of all samples with alpha = 2 / (period + 1) |
| LoweredRuns.WeightsSum | src/jit_compiler.cpp:1147-1196 | those weights add up to 1 |
| LoweredRuns.LagOutput | src/jit_compiler.cpp:1198-1249 | for any values, the lowered lag is not a number for the first `period` ticks, then the sample of `period` ticks ago |
| LoweredRuns.LoweredVal | src/jit_compiler.cpp:1064-1249 | in any program, the stream meaning of such a call is what its slot puts out when fed the stream meaning of its argument |
| TieredCode.CodeRunsTicks | src/jit_compiler.cpp:3272-3281 | compiled code run tick after tick, with any slots compiled without guards, writes the outputs and leaves the context of evaluation |
| TieredCode.SpecialisedCode | src/jit_compiler.cpp:4228-4300 | of emitted code: once the baseline has run for as many ticks as the threshold says, specialised code writes an output sequence and leaves a context on a later stream exactly when the baseline does |
| Inline.InlineIsSubst | src/signal_program.cpp:29-60 | looking up every identifier is substitution for references exactly when no ticker has a definition |
| Inline.ClashChangesMeaning | src/signal_program.cpp:29-60 | over definitions that refer to nothing defined, inlining preserves every meaning if no ticker has a definition, and otherwise there is a meaning it changes |
| Inline.TickerReplaced | src/signal_program.cpp:29-93 | the shortest input: in `mid(a) + a` with a signal a, the ticker is replaced too |
| InlineProgram.CollectRefs | src/signal_program.cpp:62-96 | the collected names are the references of a body; tickers are skipped |
| InlineProgram.InlineSignalDependencies | src/signal_program.cpp:214-249 | the search terminates; it reports a repeated name exactly when there is one, otherwise a cycle, at a signal on it, exactly when the reference graph has one, and otherwise returns a resolution |
| InlineProgram.Inliner.Visit | src/signal_program.cpp:226-246 | one visit, whatever order the references come in, resolves the signal and all it depends on, or finds a signal on a cycle |
| InlineProgram.ResolutionIsUnique | src/signal_program.cpp:214-249 | an acyclic program has one resolution, so the visiting order does not matter |
| InlineProgram.SubstitutedIsClean | src/signal_program.cpp:214-249 | resolved bodies refer to no defined signal |
| InlineProgram.InliningSubstitutesIff | src/signal_program.cpp:29-96 | the resolution is substitution for references exactly when no body has a ticker that shares its name with a signal the body also refers to |
| InlineProgram.InliningPreservesMeaning | src/signal_program.cpp:29-60 | an environment solves the program's equations if and only if it gives each name the meaning of its resolved body, read off the undefined names alone |
| InlineProgram.ClashesAreVisible | src/signal_program.cpp:29-96 | in a program with such a clash some body gets another meaning |
| InlineCompile.ReadyIffInlinable | src/signal_program.cpp:214-249 | the resolved bodies are ready to compile exactly when every source body can be inlined: references defined, no ticker defined, known functions with the right arguments, literal periods |
| InlineCompile.SourceRuns | src/jit_compiler.cpp:3272-3281 | from named signals to running code: the code compiled from the resolved bodies runs to its end and leaves the outputs and the context of evaluating them, the interpreter's too if the symbolic test succeeds |
| Spsc.MaskIsRemainder | src/spsc_ring.h:78-84 | the bit mask is the remainder exactly because the capacity is a power of two |
| Spsc.EveryInterleaving | src/spsc_ring.h:94-129 | in every interleaving of atomic steps the popped values are a prefix of the pushed ones, the unread ones lie in slots tail..head-1, the two sides never touch one slot at once, and a failed push or pop saw a full or empty ring at its live load |
| Spsc.StepKeepsInv | src/spsc_ring.h:94-129 | every atomic step of either thread keeps the protocol invariant and reports truthfully |
| SpscWrap.DistancesAgree | src/spsc_ring.h:94-106 | subtraction modulo 2^64 recovers the distance of two counters, however often they have wrapped |
| SpscWrap.WordsSimulateCounters | src/spsc_ring.h:78-129 | for every power-of-two capacity from 2 to 2^63, the ring on wrapping 64-bit indices and a mask reports what the ring on unbounded counters and `mod` reports, in interleavings of any length, past 2^64 |
| SpscWrap.EveryWordRun | src/spsc_ring.h:78-129 | so every run over words pops a prefix of what it pushed and holds the rest |
| SpscWrap.PushAlone | src/spsc_ring.h:94-111 | a push with no step of the other side in between is a test for full and an append |
| SpscWrap.PopAlone | src/spsc_ring.h:116-131 | a pop with no step of the other side in between is a test for empty and a removal at the front |
| SpscWrap.SpscRing.TryPush | src/spsc_ring.h:94-111 | the method does in place what the atomic steps of a push do |
| SpscWrap.SpscRing.TryPop | src/spsc_ring.h:116-131 | the method does in place what the atomic steps of a pop do |
| SpscPipeline.EverySchedule | bench/spsc_jit_pipeline_bench.cpp:224-286 | on every schedule of the two loops the consumer has handled a prefix of the events, each once and in order; when it stops it has handled them all, and never through the early break |
| SpscPipeline.PipelineDeliversAll | bench/spsc_jit_pipeline_bench.cpp:224-286 | the same for the ring on 64-bit words, also past 2^64 events |
| SpscPipeline.PipelineCanFinish | bench/spsc_jit_pipeline_bench.cpp:224-286 | no schedule leads to a dead end: from every reachable state the pipeline can still run to its end |
| Windows.WriteMovesWindow | src/runtime.cpp:543-573 | writing at the head of a ring moves the window by one sample: it drops the oldest when full and appends the new one |
| MonoDeque.RollingMinimum | src/runtime.cpp:1175-1231 | after any samples with a fixed period the deque front is the minimum (maximum) of the last min(n, period) samples at its latest occurrence, ticks and values are strictly monotone, and the circular buffer of period + 1 places never overflows |
| MonoDeque.MonoDequeState.UpdateRolling | src/runtime.cpp:1175-1199 | the update in place is the specified one, and a new period starts afresh |
| MonoDeque.MonoDequeState.UpdatePrepared | src/runtime.cpp:1201-1231 | the prepared update in place is the specified one |
| MonoDeque.RollingMaximum | src/runtime.cpp:1188-1199 | the same machine for the reversed order gives the window maximum at its latest occurrence |
| MonoLowered.RollingMin | src/runtime.cpp:1175-1231 | a whole run returns every window minimum, and both pop loops together run at most once per sample, well within 2n |
| MonoLowered.GraphIsUpdate | src/jit_compiler.cpp:1419-1517 | the emitted block graph, from entry to return, is the runtime's update, and not a number until the window is full |
| MonoLowered.GradientOfExtremum | src/runtime.cpp:1792-1864 | over any run the gradient returned is the one supplied at the tick of the window's latest extremum: its slot has not been overwritten since |
| MonoLowered.RollingGradient.Step | src/runtime.cpp:1792-1864 | the gradient step in place is the specified one |
| RingStats.RunIsSound | src/runtime.cpp:498-573 | over every run with a fixed period the ring holds the last min(n, period) samples, and sum, mean and m2 are by definition those of that window |
| RingStats.PushSound | src/runtime.cpp:429-573 | one push, growing or sliding by remove-then-add, keeps this |
| RingStats.RefreshChangesNothing | src/runtime.cpp:479-496 | the periodic refresh recomputes what is there already |
| RingStats.StddevIsTwoPass | src/runtime.cpp:583-631 | the constant-time standard deviation is the two-pass one, and no clamp of a negative m2 ever applies |
| RingStats.RingStatsState.Push | src/runtime.cpp:498-541 | the push in place is the specified one; a new period starts afresh and a zero period is an error |
| RingStats.RingStatsState.TwoPass | src/runtime.cpp:607-631 | the two loops compute the buffer mean and its sum of squared deviations |
| LoweredStd.LoweredIsRuntime | src/jit_compiler.cpp:1253-1415 | from a prewarmed state and for every period from 2 on, the inline rolling_std and zscore have at every tick the outcome of the Welford machine, "not yet" included |
| LoweredStd.StdAndZscoreOfRun | src/jit_compiler.cpp:1253-1415 | over every run: nothing before `period` samples; then rolling_std is the sample standard deviation of the last `period`, and zscore the distance of the newest from their mean in such deviations, not a number exactly when the deviation is within 1e-18 of zero |
| LoweredStd.RollingStdSlot.Push | src/jit_compiler.cpp:1253-1310 | the emitted loads, selects and stores update the slot as specified |
| LoweredStd.RollingStdSlot.Zscore | src/jit_compiler.cpp:1332-1415 | the emitted zscore reads out the specified outcome |
| PairStats.PairRunIsSound | src/runtime.cpp:724-759 | after any run with a fixed period the five running sums are those of the last min(n, period) pairs |
| PairStats.CauchySchwarz | src/runtime.cpp:765-784 | both unnormalised variances are non-negative and the squared covariance is at most their product |
| PairStats.CorrelationOfRun | src/runtime.cpp:765-784 | so the clamp to [-1, 1] never changes a value, and the result is not a number exactly while the window is not full or one series is constant in it |
| PairStats.RollingPairState.Push | src/runtime.cpp:724-759 | the push in place is the specified one |
| PairMoments.SumsAreMoments | src/runtime.cpp:765-800 | what the readouts compute from the five sums of a window is its covariance and its two variances, as sums of products of deviations from the means |
| PairMoments.CorrelationByDefinition | src/runtime.cpp:765-784 | over every run the correlation read is that of the last `period` pairs by definition, and not a number exactly while there are fewer or one series does not vary among them |
| PairMoments.BetaByDefinition | src/runtime.cpp:786-793 | over every run the slope read is covariance over variance of the last `period` pairs, and not a number exactly while there are fewer or x does not vary among them |
| PairGradient.GradRunIsDual | src/runtime.cpp:1563-1732 | after any run the gradient sums are the derivative parts, and the primal sums the value parts, of the window sums over dual numbers |
| PairGradient.ReadoutsLift | src/runtime.cpp:1635-1642 | covariance and variances with their primes are the dual covariance and variances |
| PairGradient.GradientsOfRun | src/runtime.cpp:1563-1732 | once the window is full, the slope's gradient is the derivative part of cov / var_x and the correlation's that of cov / sqrt(var_x * var_y); nothing before |
| PairGradient.RollingPairGradient.Step | src/runtime.cpp:1563-1732 | the gradient step in place is the specified one; a new period starts window and sensitivities afresh |
| Formatter.FormatWriter.FormatExprInto | src/dsl_formatter.cpp:147-179 | the printer appends exactly the specified tokens to its stream |
| Formatter.FormatWriter.FormatSignalDef | src/dsl_formatter.cpp:187-192 | a definition is printed as keyword, name, `=` and body |
| Parser.TokenParser.ParseExpression | src/parser.cpp:97-115 | the recursive-descent parser, which moves one position forward, returns the specified tree or error and stops at the specified token |
| Parser.TokenParser.ParseLogical | src/parser.cpp:117-133 | the loop over both logical operators folds to the left as specified |
| Parser.TokenParser.ParseComparison | src/parser.cpp:135-155 | the loop over all comparisons folds to the left as specified |
| Parser.TokenParser.ParseTerm | src/parser.cpp:157-171 | the loop over + and - folds to the left as specified |
| Parser.TokenParser.ParseFactor | src/parser.cpp:173-187 | the loop over * and / folds to the left as specified |
| Parser.TokenParser.ParsePrimaryExpr | src/parser.cpp:202-239 | literals, names, calls and parentheses are read as specified, and anything else is an error |
| Parser.TokenParser.ParseSignal | src/parser.cpp:40-47 | a definition is read as specified and the whole line has to be used up |
| Grammar.AcceptsIffInGrammar | src/parser.cpp:97-254 | against a grammar of its own, with parentheses in the parse trees: a line is accepted with a name and a tree if and only if it is the sentence of a parse with that tree, to its end |
| Grammar.RejectsIffNotInGrammar | src/parser.cpp:76-95 | and rejected exactly when it is no such sentence: a missing `then`, `else`, comma, closing parenthesis or a token too many is never passed over |
| Grammar.OneTree | src/parser.cpp:97-254 | a sentence has one tree |
| RoundTrip.PrintedTextParses | src/dsl_formatter.cpp:103-177 | the parser reads all of the text printed for any tree; which tree comes back is given in closed form |
| RoundTrip.RoundTripIff | src/dsl_formatter.h:3-7 | it is a structurally equal tree if and only if no literal is negative, infinite, NaN or a negative zero, no resolved parameter is left, no logical AND stands directly right of a logical OR and no relation directly right of an equality |
| RoundTrip.OrOfAndComesBackRegrouped | src/dsl_formatter.h:3-7 | the unconditional promise fails: `a OR (b AND c)` is accepted, printed without parentheses and read back as `(a OR b) AND c` |
| RoundTrip.FormattingTwiceDiffers | src/dsl_formatter.h:5-6 | and so does idempotence, on the same program |
| RoundTrip.RegroupsMeans | src/dsl_formatter.cpp:34-50 | the nodes that regroup are a logical AND right of a logical OR and a relation right of an equality, and no others |
| ParensNeeded.LeftParensNeededIff | src/dsl_formatter.h:10-11 | the parentheses of a left operand are needed exactly when its operator is at another level than the node's: otherwise the text without them is read as the same tree |
| ParensNeeded.RightParensNeeded | src/dsl_formatter.h:10-11 | those of a right operand are always needed |
| ParensNeeded.SignParensNeeded | src/dsl_formatter.h:10-11 | and so are those of the operand of a sign |
| ParensNeeded.RedundantPair | src/dsl_formatter.h:10-11 | so the promise to print only needed ones fails on `(a OR b) AND c` |
| Stability.StableIff | src/dsl_formatter.h:5-6 | the tree that comes back prints the same tokens at a given strength if and only if the tree is stable: no node regroups, and literals and parameters are judged by their own closed cases |
| Stability.FormattingTwiceIff | src/dsl_formatter.h:5-6 | idempotence, exactly: formatting the text of a definition again gives the same text if and only if its body is stable |
| ProgramText.ProgramRoundTripIff | src/dsl_formatter.h:3-7 | through the program parser, which also folds constants and resolves parameters: what it keeps of the printed line is the very tree that was printed if and only if the tree survives (nothing in it regroups or folds, names mean what they meant, no negative zero, no NaN but that of 0 / 0) |
| ProgramText.AcceptedRoundTripIff | src/signal_program.cpp:140-200 | for every line the parser accepts, what the program keeps of it comes back as the same tree if and only if no logical AND stands directly right of a logical OR, no relation directly right of an equality, and no literal is a negative zero or a NaN other than that of 0 / 0 |
| FoldMeaning.FoldKeepsMeaning | src/constant_fold.cpp:23-103 | folding keeps the stream meaning on every run, under any operators that do on literals what the folding table says |
| FoldMeaning.FoldsAll | src/constant_fold.cpp:23-103 | it leaves nothing that could be folded, and a second time changes nothing |
| FoldMeaning.FoldedEqualityIff | src/constant_fold.cpp:58-59 | equality is the operator that does not follow the table: a folded equality of literals keeps its value exactly when they are the same number or at least 1e-12 apart |
| Canonical.CanonicalIffEqual | src/ast_clone.cpp:106-183 | for trees with identifier names, two canonical strings are equal if and only if AstEquals holds, also with arbitrary text appended to both |
| Canonical.Decodes | src/ast_clone.cpp:114-176 | a text decodes uniquely whatever follows it |
| Canonical.TextBuilder.CanonicalAppend | src/ast_clone.cpp:114-176 | appending piece by piece builds exactly the specified text |
| Autodiff.SymbolicIsForward | src/autodiff.cpp:92-195 | for every stateless expression the derivative tree evaluates to the forward gradient wherever that is defined, through quotient, abs, log, sqrt and conditionals; and the two differ exactly when the tree is rescued: an abs at 0 over an undefined gradient on the evaluated path, and the rest of the tree's derivative defined around it |
| Autodiff.ForwardValue | src/autodiff.cpp:270-349 | the forward pass computes the plain value beside the gradient |
| Autodiff.KinkDiffers | src/autodiff.cpp:332-336 | both sides of that condition: abs(sqrt(p)) at p = 0 is rescued and the two differ; abs(sqrt(p)) / 0 is not, and both are undefined |
| EvalLaws.ComparisonsMean | src/autodiff.cpp:297-304 | on defined operands the strict comparisons follow the order of the numbers, the others are their complements, and equality holds up to 1e-12 |
| EvalLaws.ComparisonsRelate | src/autodiff.cpp:297-304 | >= is 1 exactly where < is 0, <= where > is 0, != where == is 0; swapped operands swap the comparison; all this on undefined operands too |
| EvalLaws.ConnectivesAreConditionals | src/autodiff.cpp:303-304 | on defined operands the connectives evaluate like nested conditionals |
| EvalLaws.QuotesMean | src/interpreter.cpp:247-285 | bid and ask are read, mid lies halfway between them, spread is their distance |
| EvalLaws.LogMeans | src/autodiff.cpp:318-349 | log is undefined exactly at 0 and below |
| EvalLaws.SqrtMeans | src/autodiff.cpp:318-349 | sqrt is undefined exactly below 0 |
| TrueDerivative.GradientIsDerivative | docs/autodiff_derivations.md:239-241 | away from switching boundaries both are exact: one number, and the derivative of the expression in the parameter by the limit of difference quotients |
| TrueDerivative.ForwardFollows | src/autodiff.cpp:270-349 | there the forward gradient is the slope of the expression as a function of the parameter, and predicates are locally constant |

## Left out

- LLVM: optimisation passes, ORC, bitcode files, assembly dumps, struct layouts and address computations; the emitted code has a small target language of its own.
- Program.ScalarProgramCorrect: does not model the cache of market loads, symbol-id binding, or the errors for bad periods and noise, which the two evaluators check at different times.
- InterpreterStreams.InterpreterIsStreams: a stateful call that occurs only in a branch skips ticks by design, so the plain meaning is claimed only where branches repeat unconditional calls.
- WarmOps.LoweredProgramSpecialises: machine arithmetic is one uninterpreted set of operations shared by both variants; periods are literals that truncate to integers, by a function that is a parameter.
- Spsc.EveryInterleaving: does not model memory orders: each atomic load or store is one step in a single order; the acquire and release annotations themselves are not modelled.
- RingStats.RunIsSound, LoweredStd.LoweredIsRuntime, PairStats.PairRunIsSound: reals in place of double and long double, samples that are numbers; rounding, the refresh it motivates and the AVX2 summation order are not modelled. A change of period is in the methods, not in the runs.
- LoweredStd.LoweredIsRuntime: the truncation of sums to double between ticks is not modelled.
- PairGradient.GradientsOfRun: a gradient whose denominator is zero is "not a number" here; which infinity or NaN it is, is not modelled.
- Gradient of rolling_std and zscore: its refresh clamps a derivative that may be negative, so no derivative claim holds between refreshes.
- ema_alpha with an alpha that changes from tick to tick: the interpreter and the runtime helper treat it differently; the operator stays abstract.
- Autodiff.SymbolicIsForward: does not model the constant folding applied to the finished tree; folded equality is exact while evaluation has a tolerance.
- TrueDerivative.GradientIsDerivative: the logarithm is any function with slope 1/x at each positive x; the root any non-negative inverse of squaring.
- RoundTrip.RoundTripIff: literals are tokens; number text, exponent forms and the lexer are not part of this model.
- ProgramText.AcceptedRoundTripIff: the type check between parsing and folding is not modelled; double arithmetic on literals is a parameter, of which only the quotients by zero that the printer writes are fixed.
- Stability.FormattingTwiceIff: speaks of the bare parser; idempotence through the folding of constants is not stated.
- FoldMeaning.FoldKeepsMeaning: operators that do not do on literals what the folding table says are left out; the tolerance of `==` and `!=` is such a case, and `FoldMeaning.FoldedEqualityIff` says when it shows.
- Grammar.RejectsIffNotInGrammar: which message goes with a rejected line is not stated.
- LoweredRuns.SmaOutput, LoweredRuns.EmaOutput: reals in place of doubles, samples that are numbers.
- Canonical.CanonicalIffEqual: the decimal text of a literal is a parameter that contains no bracket; its exact bits are in the text as well.
- InlineProgram.InlineSignalDependencies: returns the resolved bodies; copying each signal's name beside its body is not modelled.
- Per-signal allocation of ids on a program of several signals, where ids collide.
- The gradient compile path, its emission cache, and the lowered forms of vwap, cross, correlation, slope and Kalman filter.
- On-disk module cache, profilers, latency histograms, shard arithmetic, simulators, command lines, CSV and journal input and output, and parameter calibration.
