# Verified models of Bun's table generators, runtime helpers and build scripts

The modules here model the self-contained algorithms and state machines of the repository and prove, for all
inputs and all runs, what their comments, callers or standards promise. Each has a plain reference meaning (a
predicate, a set of intervals, a concatenation, a fold, an evaluation order) and the stateful code is proved
to agree with it.

| module | what it models |
|---|---|
| `SerialWindows`, `CriticalPath` (over `BuildUnits`) | the two build-timing analyses of `scripts/rust-timings.ts` |
| `UnicodeTables`, `PackedTables` | the three-stage, block-deduplicated tables and their bit-packed form |
| `ContextSwitch`, `ChunkWriter` | the context stack, the provider rendering around it, and the chunk writer of the bundled server renderer |
| `EsmInit`, `EsmStandard`, `Namespaces`, `Decorators`, `Disposal` | the bundler's runtime helpers, with the standard's module evaluation beside them |
| `Prefetch`, `PrefetchWorkers`, `PrefetchReturns` | the work list, the four workers and the publish protocol of the prefetch cache |
| `ZipTail`, `CompletionTable`, `Completions` (over `LittleEndian`) | the ZIP tail reader and the package table with its emitted decoder |
| `Vlq`, `Mappings` | Base64 VLQ numbers and delta-coded source map mappings |
| `LogAccounting`, `Aggregate` | time accounting over CI logs |

Code that changes things step by step is a class or a method with loops, proved against functions on values;
the lemmas are about those functions. Times are exact reals, log times and JavaScript numbers that are used as
integers are integers, and 32-bit conversions are written out where they matter (`Vlq`). Interleaved workers
and file system steps are transition relations; errors and rejections are ordinary outcomes.

## What the code relies on

* `ValidUnits`: cargo reports no negative start or duration.
* A `Generator` is fresh for each table. `SecondRun` proves what a second use of one gives: an empty second
  stage. The block map is keyed by the block itself, so hashing is taken to be injective.
* Package names are ASCII, so a character is a byte.
* Log timestamps do not decrease, where a bound on spans is stated (`SpansDisjoint`).
* Times parsed from a log are not negative, where sums and maxima are compared (`Aggregate`); `SpansDisjoint` and
  `InlineNonNegative` say that they are not.
* An extract name does not end in `.staging`, and an identity stands for one tree (`Honest`).

## Where a natural claim fails

* Low-parallelism windows are the maximal low stretches if and only if the sweep's own count has no brief peak
  inside a long one (`CoversIffNoPeak`), stretch by stretch (`StretchReportedIff`). A unit that starts at the instant
  another ends can make such a peak (`TieSplits`); without ties there is none (`NoTiesNoPeak`).
* The packed lookup answers whether a code point differs from code point 0. It is the predicate itself if and
  only if the predicate is false at 0 (`GenerateTable`).
* A stamp can be trusted throughout any history of runs if and only if no run goes back to an identity that an
  earlier run had replaced, unless its tree is nothing but the stamp (`TrustedIffNoReturn`). Otherwise a run that is interrupted while it removes the
  old tree leaves a torn tree with a matching stamp (`TornTreeAccepted`).
* The per-letter slices are right if and only if the sorted names with a letter come first, letter by letter
  (`SlicesIff`); a scoped name such as `@x` breaks that (`ScopedNotOrdered`), and lower-case initials ensure it
  (`LowerCaseOrdered`).
* Reading back an encoded number gives it if and only if it fits 32 bits with sign (`NumberRead`).
* The run-once wrappers leave modules as Evaluate of ECMA-262 does if and only if no module that ended normally is
  on a cycle with one that failed (`AgreesIff`): the standard fails an unfinished cycle as a whole (`PairSplits`).
* Disposal ends as the Explicit Resource Management proposal says if and only if no `Symbol.dispose` that an
  `await using` falls back to returns a promise that rejects (`OutcomeIff`, `BorrowedRejects`): the proposal ignores
  what such a method returns, the code awaits it. And the code refuses a null `Symbol.asyncDispose`, where the
  proposal falls back (`UsingIff`). It returns a promise exactly when the proposal waits, unless borrowed disposers
  throw and nothing else is waited for (`PromiseIff`, `BorrowedThrows`): then it throws at once.
* An archive with a comment of more than 65514 bytes is not read, although the format allows 65535 (`OwnEndIff`): the
  end record is then before the last 65536 bytes.
* A decorator context refuses initialisers once its decorator has returned. If the decorator throws, its
  context stays open (`CallDecorator`).

## Model

| member | source | states |
|---|---|---|
| SerialWindows.SerialWindows | scripts/rust-timings.ts:145-177 | the windows are the report of all low runs of the sorted events, ordered and disjoint, longer than `minDur`, with at most `maxActive` units running; each long maximal low stretch is one of them if and only if no brief peak is inside it; a name is listed if and only if some unit of that name runs at an instant of the window (a unit without duration: lies inside it, at its end only if the window closes with the build), in the order of the first such units; a negative bound reports the whole build |
| SerialWindows.Sweep | scripts/rust-timings.ts:152-168 | the loop's windows are those of the maximal low runs of the sorted events, and what is still open at the end is the last such run |
| SerialWindows.SweepAll | scripts/rust-timings.ts:152-177 | with the final window added, the windows are the report of all low runs |
| SerialWindows.CollectEvents | scripts/rust-timings.ts:146-150 | events 2k and 2k+1 are the start of unit k and its end, start plus duration |
| SerialWindows.CoversIffNoPeak | scripts/rust-timings.ts:157-168 | every long low stretch lies in one window if and only if the sweep's count has no brief peak inside one |
| SerialWindows.StretchReportedIff | scripts/rust-timings.ts:157-168 | whatever happens elsewhere, a long maximal low stretch is reported if and only if the sweep's count has no peak strictly inside it |
| SerialWindows.OneReport | scripts/rust-timings.ts:157-177 | the low runs, and so the report, are determined by the events |
| SerialWindows.ReportsExactly | scripts/rust-timings.ts:144-177 | without brief peaks, an interval is reported if and only if it is a maximal low stretch longer than `minDur` |
| SerialWindows.ReportedIsMaximal | scripts/rust-timings.ts:160-167 | a reported interval cannot be extended |
| SerialWindows.NoTiesNoPeak | scripts/rust-timings.ts:151-160 | if no start equals an end, there is no brief peak |
| SerialWindows.TieSplits | scripts/rust-timings.ts:151-166 | whenever one unit hands over to one listed before it, the stretch of one running unit is split by a peak of two |
| SerialWindows.ActiveNonNegative | scripts/rust-timings.ts:153-159 | the running count is never negative, whatever the order of ties |
| SerialWindows.ActiveEndsAtZero | scripts/rust-timings.ts:146-159 | the running count ends at zero |
| SerialWindows.RunningIsActive | scripts/rust-timings.ts:146-159 | the count after all events up to an instant is the number of units that run at it |
| SerialWindows.SortSorts | scripts/rust-timings.ts:151 | the sort orders events by time |
| SerialWindows.SortIsStable | scripts/rust-timings.ts:151 | the sort keeps the order of events at one instant |
| SerialWindows.StableSortUnique | scripts/rust-timings.ts:151 | time order and stability determine the sorted events |
| SerialWindows.NamesInMeaning | scripts/rust-timings.ts:163-174 | the listed names are those of the units kept by the filter, each once |
| SerialWindows.OverlapsIsPresent | scripts/rust-timings.ts:163-174 | the two filters keep exactly the units that run at an instant of the window, and those without duration inside it |
| SerialWindows.NamesInFirst | scripts/rust-timings.ts:163-174 | names stand in the order of the first listed unit with each |
| SerialWindows.LastEndIsMax | scripts/rust-timings.ts:171 | the end of the build is the greatest end of a unit |
| CriticalPath.CriticalPath | scripts/rust-timings.ts:120-142 | in terms of the records: the path ends at a latest-finishing unit, each step is to a unit that released the next one latest among those within the tolerance, it has at most 81 units even on cyclic data, and a shorter one starts at a unit that none released in time; no units is an error |
| CriticalPath.Walk | scripts/rust-timings.ts:131-140 | the backward walk keeps those properties at every length and ends only at the bound or without a blocker |
| CriticalPath.WaitsOn | scripts/rust-timings.ts:121-129 | the inverted index lists, for every unit, exactly its blockers in the order found |
| CriticalPath.Push | scripts/rust-timings.ts:123-125 | pushing to one unit's dependents leaves all other lists alone |
| CriticalPath.LastToFinish | scripts/rust-timings.ts:130 | the start of the walk is the last listed of the latest-finishing units |
| CriticalPath.BlockersMeaning | scripts/rust-timings.ts:121-129 | a blocker is a unit that names the dependent in either list, with its end or its frontend end as time |
| CriticalPath.Latest | scripts/rust-timings.ts:136 | filter, sort and first give an eligible blocker with the latest time, if there is one |
| CriticalPath.LatestIsFirst | scripts/rust-timings.ts:136 | among equally late blockers the first found is taken |
| CriticalPath.NextIsLastBlocker | scripts/rust-timings.ts:133-139 | the next unit is a blocker after which no eligible one unblocked |
| CriticalPath.RmetaEndMeaning | scripts/rust-timings.ts:104-107 | metadata is there at the start plus the end of the first section named `frontend`, or at the end of the unit if it has none |
| CriticalPath.StepMeaning | scripts/rust-timings.ts:131-140 | in terms of the records: each step goes to a unit that released the one after it at most half a second after its start, and none released it later |
| CriticalPath.UnblockedMeaning | scripts/rust-timings.ts:133-138 | in terms of the records: no unit released the first one within half a second |
| UnicodeTables.Generator.Generate | misctools/unicode-generator.ts:30-91 | a fresh generator gives tables that resolve every code point to an equal element, with equal blocks stored once; it fails exactly when there are too many elements or distinct blocks; a used one stores no blocks |
| UnicodeTables.Generator.Run | misctools/unicode-generator.ts:39-90 | the loop over code points stores all blocks, the last one cut to its length |
| UnicodeTables.Generator.Take | misctools/unicode-generator.ts:40-87 | one code point fills the block and, at its end, stores it |
| UnicodeTables.Generator.Classify | misctools/unicode-generator.ts:43-48 | a code point gets the number of the first element equal to its own, or of a new one |
| UnicodeTables.Generator.StoreBlock | misctools/unicode-generator.ts:63-83 | a block is looked up whole and stored cut to its length if it is new |
| UnicodeTables.AddressedRepresents | misctools/unicode-generator.ts:68-90 | stored blocks resolve every code point, the cut last block included, and equal blocks have one place |
| UnicodeTables.ClassRepresents | misctools/unicode-generator.ts:43-48 | with a reflexive equality the chosen element equals the code point's |
| UnicodeTables.ClassesGrow | misctools/unicode-generator.ts:45-48 | elements keep their numbers |
| UnicodeTables.FindMeaning | misctools/unicode-generator.ts:44 | the search finds the first equal element |
| UnicodeTables.PutProgress | misctools/unicode-generator.ts:68-83 | storing a block keeps what is stored, or fails only with more than 256 distinct blocks |
| PackedTables.GenerateTable | misctools/gen-unicode-table.ts:40-68 | all lookups are in range and say whether the predicate differs from its value at 0; they are the predicate if and only if that value is false; generation fails exactly with more than 256 distinct blocks |
| PackedTables.BitsToU64Array | misctools/gen-unicode-table.ts:26-38 | bit j of word i is set exactly when entry 64i+j is not zero, and words fit 64 bits |
| PackedTables.PackWord | misctools/gen-unicode-table.ts:29-34 | a word holds the bits of its entries |
| PackedTables.SetBitMeaning | misctools/gen-unicode-table.ts:32 | setting a bit sets it and keeps the others |
| PackedTables.TwoClasses | misctools/gen-unicode-table.ts:41-44 | a predicate has at most two elements, the first its value at 0 |
| PackedTables.ClassIsDifference | misctools/gen-unicode-table.ts:31 | an entry is not zero exactly when the predicate differs from its value at 0 |
| PackedTables.PackedResolves | misctools/gen-unicode-table.ts:50-59 | the emitted shifts and masks stay in range and read the bit of the code point |
| PackedTables.SecondRun | misctools/unicode-generator.ts:18-75 | a generator used twice gives tables that do not represent the elements |
| ContextSwitch.Renderer.SwitchContext | bench/react-hello-world/react-hello-world.workerd.js:56 | switching between any two nodes of the tree leaves every context with the value of its nearest provider on the target path, or its default; the throwing branches are not reached |
| ContextSwitch.PopToNearestCommonAncestor | bench/react-hello-world/react-hello-world.workerd.js:56 | the same for two nodes of one depth, by a common ancestor |
| ContextSwitch.PopAllPrevious | bench/react-hello-world/react-hello-world.workerd.js:56 | leaving all providers restores the defaults |
| ContextSwitch.PushAllNext | bench/react-hello-world/react-hello-world.workerd.js:56 | entering a path from the root shows its nearest providers |
| ContextSwitch.PopPreviousToCommonLevel | bench/react-hello-world/react-hello-world.workerd.js:56 | switching from a deeper node |
| ContextSwitch.PopNextToCommonLevel | bench/react-hello-world/react-hello-world.workerd.js:56 | switching to a deeper node |
| ContextSwitch.Renderer.PushProvider | bench/react-hello-world/react-hello-world.workerd.js:68 | a provider binds its value over the path and the tree stays well-formed |
| ContextSwitch.Renderer.PopProvider | bench/react-hello-world/react-hello-world.workerd.js:68 | leaving a provider restores what was shown outside it |
| ContextSwitch.Renderer.RenderProvider | bench/react-hello-world/react-hello-world.workerd.js:68 | consumers below a provider read its value, also when rendering is suspended inside it |
| ContextSwitch.Renderer.RenderNode | bench/react-hello-world/react-hello-world.workerd.js:68 | a suspended part becomes a task with the path at which it stopped, and the path before is restored |
| ContextSwitch.Renderer.Resume | bench/react-hello-world/react-hello-world.workerd.js:68 | a task resumed on its own path reads what it would have read in place |
| ContextSwitch.Renderer.RenderAll | bench/react-hello-world/react-hello-world.workerd.js:68 | in any order of resumption, all consumers read exactly the value of their nearest provider, and rendering ends |
| ContextSwitch.PendingSplit | bench/react-hello-world/react-hello-world.workerd.js:68 | taking any task leaves the reads of the others |
| ChunkWriter.Writer.Write | bench/react-hello-world/react-hello-world.workerd.js:42 | what was enqueued and what is buffered grow by exactly the written bytes; the chunk that is enqueued, if any, is the full view, or what is gathered and then the array itself, by length and space left; chunks enqueued before are not changed |
| ChunkWriter.Writer.WriteLarge | bench/react-hello-world/react-hello-world.workerd.js:42 | more than 2048 bytes pass by the buffer as one chunk of their own, after what is in it |
| ChunkWriter.Writer.WriteSmall | bench/react-hello-world/react-hello-world.workerd.js:42 | a write that does not fit fills the view, passes it on as a chunk of 2048 bytes and goes on in a new one; one that fits enqueues nothing |
| ChunkWriter.Writer.Flush | bench/react-hello-world/react-hello-world.workerd.js:42 | after a flush the chunks are all that was written, with what was gathered as the last |
| ChunkWriter.Writer.BeginWriting | bench/react-hello-world/react-hello-world.workerd.js:68 | a new buffer, never one that was enqueued |
| ChunkWriter.WriteAll | bench/react-hello-world/react-hello-world.workerd.js:42 | after any writes of any sizes and a flush, the concatenation of the chunks is that of the writes |
| ChunkWriter.KeptPush | bench/react-hello-world/react-hello-world.workerd.js:42 | enqueueing keeps the contents of earlier chunks |
| EsmInit.Runtime.Init | src/runtime.js:329-338 | the new state is exactly that of one call: nothing changes for a module that was started; else its body runs, its imports in the order listed, and its end is kept for good; it terminates on any import graph |
| EsmInit.Runtime.RunBody | src/runtime.js:331-335 | the body's steps run in the order listed up to the first error, which it throws |
| EsmInit.Runtime.RunStep | src/runtime.js:331-337 | one step: an import calls the other wrapper, and its error ends the body unless it is caught |
| EsmInit.CallOk | src/runtime.js:329-338 | a call keeps what was started or has ended; afterwards the module has settled, unless it is on the evaluation stack; the next module to start is the one called |
| EsmInit.StepsOk | src/runtime.js:331-335 | a body returns only when each import has finished normally or is on the stack, and throws only an error of its own or of a failed import that it does not catch |
| EsmInit.CallAll | src/runtime.js:328-338 | over any calls, the state is that of the calls one after another, each body starts at most once, and every call, repeated or not, gives what the module settled on; without cycles that is what evaluating the imports afresh would give |
| EsmInit.OnceIsEnough | src/runtime.js:329-338 | on an acyclic graph the settled result is the result of plain recursive evaluation |
| EsmInit.ErrorHasOrigin | src/runtime.js:334-336 | a failed module rethrows an error that some module it reaches throws |
| EsmInit.EnterLemma | src/runtime.js:330-332 | starting a body keeps the invariants and leaves fewer modules to start |
| EsmInit.LeaveLemma | src/runtime.js:332-337 | ending a body settles it for good |
| EsmInit.StackReaches | src/runtime.js:330-332 | a module on the stack imports, directly or not, the one being evaluated |
| EsmStandard.AgreesIff | src/runtime.js:329-338 | over any calls of static programs, cycles included, the modules are as Evaluate of section 16.2.1.5 of ECMA-262 leaves them throughout if and only if at no point a module that ended normally is on a cycle with one that failed |
| EsmStandard.CallAgrees | src/runtime.js:329-338 | where the two agreed before, a call has the outcome of the standard, and they agree afterwards if and only if it leaves no such cycle |
| EsmStandard.PairSplits | src/runtime.js:329-338 | two modules that import each other, the first of which then throws: the second has ended normally here and not by the standard |
| EsmStandard.InnerLock | src/runtime.js:330-337 | a wrapper's call and InnerModuleEvaluation run side by side: same error, or evaluated, or waiting on the standard's stack |
| EsmStandard.StepsLock | src/runtime.js:331-335 | so do a body and the standard's loop over requested modules |
| EsmStandard.WaitsOnCycle | src/runtime.js:329-338 | a module that has ended and is still on the standard's stack is on a cycle with one that has not |
| EsmStandard.PopClosed | src/runtime.js:329-338 | what the standard takes off its stack requests nothing but itself and what was evaluated before |
| EsmStandard.AgreesUnmixed | src/runtime.js:329-338 | where the two agree, nothing that ended normally reaches anything that failed |
| Namespaces.Runtime.ToEsm | src/runtime.js:58-83 | the new state is that of one conversion, cached or new; from the heap before: in node mode and for null, undefined and primitives `default` is the module; else it reads the own `default` if and only if there is one and `__esModule`, own or inherited, is truthy, and is the module otherwise; all other own names read the module, no others are there, and the prototype is that of the module |
| Namespaces.NewMade | src/runtime.js:65-79 | a new namespace reads the module for every own name, and `default` follows the rule of node mode, `__esModule` and own `default` |
| Namespaces.NewNamespace | src/runtime.js:65-80 | the same rule for the object that a conversion adds to the heap |
| Namespaces.NearestOwner | src/runtime.js:67 | reading and assigning go by the nearest object on the prototype chain that has the name |
| Namespaces.OwnMeaning | src/runtime.js:17-19 | an own property gives its value, or what the object behind its getter has under that name |
| Namespaces.NamespaceReads | src/runtime.js:15-19 | in any heap, names other than `default` read the module's current value, and `default` is the module or its current own `default` |
| Namespaces.MadeKept | src/runtime.js:73-79 | no later operation changes what a namespace reads from |
| Namespaces.Runtime.Assign | src/runtime.js:73-79 | an assignment changes one own property and nothing else, or is refused by a getter or read-only property, own or inherited, and changes nothing |
| Namespaces.ExtendMeaning | src/runtime.js:31-36 | defining getters keeps existing names and adds exactly the missing ones |
| Namespaces.ExtendKeeps | src/runtime.js:31-36 | a new getter refers to an older property, so that reading ends, in re-export cycles too |
| Namespaces.LiveReads | src/runtime.js:17-19 | a getter reads what the other object has now |
| Namespaces.Runtime.ReExport | src/runtime.js:27-48 | both targets get the missing names of the module as it was, and the second is returned |
| Namespaces.Runtime.ReExportAll | src/runtime.js:27-48 | any sequence of re-exports resolves each name but `default` to the existing export or else to the first module that owns it, on both targets, and changes nothing else |
| Namespaces.StepResolved | src/runtime.js:30-44 | one more re-export keeps that, though the modules may themselves be targets |
| Namespaces.RunAll | src/runtime.js:27-83 | any run of conversions, re-exports, assignments and new objects ends in the state, and returns the results, of the operations' effects one after another |
| Namespaces.NamespaceOverRun | src/runtime.js:58-83 | for any run, any conversion in it and any later point: the namespace returned was made by the first such conversion of the object, and then reads the module's current value for every name that the module had when it was made; `default` is by the rule of that moment |
| Namespaces.DefaultOverRun | src/runtime.js:58-83 | at any later point of any run, `default` reads the module itself or its own `default` of then, by the mode, the own `default` and `__esModule` when the namespace was made |
| Namespaces.NoOtherNames | src/runtime.js:73-79 | a namespace never has a name that the module lacked when it was made, but for `default` and names re-exported or assigned to the namespace itself |
| Namespaces.ConversionResult | src/runtime.js:59-82 | a conversion returns a namespace exactly if its module is there, and it is the object added by its maker |
| Namespaces.OneNamespace | src/runtime.js:60-64 | an object converted once is converted again to the same namespace in that mode, whatever happens between |
| Namespaces.NamespacesApart | src/runtime.js:65 | namespaces with different makers are different objects |
| Namespaces.CacheIsFirst | src/runtime.js:59-64 | after any run a cache holds exactly the objects converted in its mode, each with the namespace made the first time |
| Namespaces.RunResolves | src/runtime.js:27-83 | after any run, every property of every object is what the history of that one property says: first giver, then assignments |
| Namespaces.EffectGives | src/runtime.js:27-83 | one operation gives or changes a property exactly by the heap at its own call |
| Namespaces.ExportsOverRun | src/runtime.js:27-48 | over any run with any targets, a name that was not there and was not assigned comes from the first re-export to that object of a module that owned it then |
| Namespaces.NotOffered | src/runtime.js:32 | without such a re-export or assignment there is no such name, and `default` never comes from a re-export |
| Namespaces.EffectKeeps | src/runtime.js:27-83 | every operation keeps getters well-founded and what cannot be written |
| Decorators.Decoration.DecorateElement | src/runtime.js:258-326 | the result, the slots and the member table after an element, or the error of the first failing decorator; no slot but the element's own changes, even on an error |
| Decorators.ElementMeaning | src/runtime.js:266-325 | the last listed decorator is called with what the prototype or constructor has under the name, or with the private function, the pair of storage functions, the class or undefined; each one before it with what the one after it returned, if anything; the last result is the element, and fields and accessors collect initialisers in listing order; the first call that fails gives the error |
| Decorators.MissingElement | src/runtime.js:271-307 | decorating a public method, getter or setter that is not there is a type error |
| Decorators.ElementPlaces | src/runtime.js:267-270 | extra initialisers of the class go to slot 0, of static functions to slot 1, of others to slot 2, and of fields and accessors to two new slots; all other slots stay |
| Decorators.Decoration.ApplyAll | src/runtime.js:291-319 | decorators run from last to first: the first listed is outermost, initialisers stand in listing order, extra ones in the order added |
| Decorators.Decoration.ApplyOne | src/runtime.js:292-318 | one decorator's call and what is done with its result |
| Decorators.Decoration.Accept | src/runtime.js:311-318 | which results are errors, what a result replaces, and where its initialiser goes |
| Decorators.Decoration.CallDecorator | src/runtime.js:246-251 | the context is closed exactly if the decorator returns |
| Decorators.Decoration.AddInitializer | src/runtime.js:246-251 | a closed context refuses, an open one takes functions only |
| Decorators.Decoration.RunAdds | src/runtime.js:250 | while a decorator runs, only its own context takes initialisers |
| Decorators.AddsNext | src/runtime.js:250 | call by call: a function is added at the end, a foreign context or no function is refused, and the first refusal that is not caught ends the calls |
| Decorators.Decoration.OpenSlots | src/runtime.js:267-270 | a field or accessor gets two new slots at the end, methods share one, the class has the first |
| Decorators.Decoration.RunInitializers | src/runtime.js:253-257 | the functions of a slot are called in order up to the first that throws, each with the value of the one before or, on odd flags, with none |
| Decorators.PipedNext | src/runtime.js:254-256 | each initialiser gets what the ones before it returned, and nothing is called after one that throws |
| Decorators.EffectsFirst | src/runtime.js:254-255 | extra initialisers leave the value alone, and the first that throws decides |
| Decorators.Decoration.constructor | src/runtime.js:243 | the array starts with three empty slots and the metadata |
| Decorators.InitialisersInOrder | src/runtime.js:253-257 | running the initialisers of a field applies those of the first listed decorator first |
| Decorators.FirstStep | src/runtime.js:291-319 | one round of the loop is one more composition outwards |
| Decorators.FailureStays | src/runtime.js:291-319 | after an error no further decorator is called |
| Decorators.SlotsApart | src/runtime.js:267-270 | no two fields or accessors own the same slots |
| Decorators.RunPush | src/runtime.js:258-326 | one more element leaves the slots of all earlier owners alone |
| Decorators.DecorateAll | src/runtime.js:243-326 | after all elements the n-th field or accessor owns slots 4+2n and 5+2n with its initialisers and extra ones, slots 0 to 2 hold the shared ones in order, all contexts are closed; or the first error |
| Disposal.Using | src/runtime.bun.js:4-17 | what is refused, and exactly which entry is pushed for an object, an awaited null, or nothing |
| Disposal.Disposing.Next | src/runtime.bun.js:24-34 | up to a suspension or the end, calls made and still due, and the outcome still to come, are kept |
| Disposal.Disposing.Resume | src/runtime.bun.js:28 | a continuation counts a rejection and goes on |
| Disposal.Disposing.Fail | src/runtime.bun.js:20-23 | a failure suppresses the error so far |
| Disposal.CallDispose | src/runtime.bun.js:19-36 | across all suspensions, each disposer is called once, last first, and the outcome is the fold of failures over the incoming error; there is a promise if and only if some `await using` had null or a disposer whose call returns |
| Disposal.AwaitsIff | src/runtime.bun.js:28 | something is waited for if and only if an async entry has nothing to call or its call returns |
| Disposal.PromiseIff | src/runtime.bun.js:19-36 | there is a promise exactly when DisposeResources of the proposal performs an Await, if and only if it is not the case that nothing is waited for here and the call of a borrowed disposer throws |
| Disposal.ProposedAwaitsIff | src/runtime.bun.js:19-36 | the proposal waits if and only if an async entry has nothing to call, is borrowed, or its call returns |
| Disposal.NullWaits | src/runtime.bun.js:13-28 | an awaited null alone is waited for once, as by the proposal |
| Disposal.BorrowedThrows | src/runtime.bun.js:10-31 | a lone borrowed disposer that throws gives no promise here and one Await by the proposal |
| Disposal.NothingLost | src/runtime.bun.js:20-23 | the chain of suppressed errors holds every failure, latest first, and the incoming error |
| Disposal.OutcomeIff | src/runtime.bun.js:8-34 | the outcome is that of DisposeResources of the Explicit Resource Management proposal if and only if no borrowed `Symbol.dispose` returns a promise that rejects |
| Disposal.UsingIff | src/runtime.bun.js:8-12 | acquisition is that of GetDisposeMethod of the proposal if and only if it is not an awaited object with a null `Symbol.asyncDispose` and a callable `Symbol.dispose` |
| Disposal.BorrowedRejects | src/runtime.bun.js:10-28 | an awaited object whose `Symbol.dispose` returns a rejecting promise fails here and completes by the proposal |
| Disposal.BlockIff | src/runtime.bun.js:4-36 | a whole block whose declarations have no null `Symbol.asyncDispose` to pass over ends as the proposal says if and only if no acquired entry is borrowed and rejects |
| Disposal.CallsReverse | src/runtime.bun.js:25-27 | calls are the disposers in reverse order of acquisition |
| Disposal.RunBlock | src/runtime.bun.js:4-36 | a block disposes exactly what was acquired before an error of its declarations or body, with that error as the incoming one |
| Disposal.CountMeaning | src/runtime.bun.js:5-11 | the first declaration with a primitive or without a method stops the acquisition |
| Prefetch.WorkList.Add | scripts/prefetch-deps.ts:79-91 | a known URL changes nothing; a claimed extract name loses its extraction |
| Prefetch.AddAll | scripts/prefetch-deps.ts:77-91 | whatever the sequence of additions, URLs and extract names are distinct, and the list holds the first addition of every URL in order, with its extraction exactly if no item before it claims the name |
| PrefetchWorkers.ListIsOk | scripts/prefetch-deps.ts:77-196 | honest additions give a list that is fit for the workers, whatever their sequence |
| PrefetchWorkers.WorkersStep | scripts/prefetch-deps.ts:135-199 | every step of every interleaving keeps what each busy worker has achieved |
| PrefetchWorkers.NoSharedDirectory | scripts/prefetch-deps.ts:79-91 | two busy workers never share a URL, nor an output or staging directory |
| PrefetchWorkers.StepFrame | scripts/prefetch-deps.ts:161-191 | an item changes only its own two directories |
| PrefetchWorkers.StepPhase | scripts/prefetch-deps.ts:161-191 | a worker that gets to publishing holds the complete, pruned and stamped tree |
| PrefetchWorkers.CompleteTree | scripts/prefetch-deps.ts:178-183 | a path is in the finished tree if and only if it is the stamp, or in the archive and neither one of the removed paths nor below one; files keep their bytes and the stamp holds the identity |
| PrefetchWorkers.PublishedTree | scripts/prefetch-deps.ts:182-185 | in every execution, what publishing leaves is exactly the archive without the removed paths, and the stamp |
| PrefetchWorkers.StaysInPlace | scripts/prefetch-deps.ts:161-191 | in every execution, a complete tree stays in place for the rest of its run, whatever fails and whatever the other workers do |
| PrefetchWorkers.OldStays | scripts/prefetch-deps.ts:174-191 | the old directory is not touched before its removal nor by the cleaning up |
| PrefetchWorkers.StepStamp | scripts/prefetch-deps.ts:167-185 | after any step a stamp is on an untouched directory, on the tree just published, or was another identity's before |
| PrefetchWorkers.RunKeepsTrust | scripts/prefetch-deps.ts:161-191 | from any step, failure or interruption point, if the run began with trustworthy stamps, a matching stamp means the complete tree |
| PrefetchWorkers.SystemStep | scripts/prefetch-deps.ts:135-200 | over runs, every stamp was wanted by a run and vouches for its tree unless replaced since |
| PrefetchWorkers.WorkersApart | scripts/prefetch-deps.ts:135-200 | at every point of every execution, whatever the runs before: each URL is dequeued at most once, all of them if a worker finished normally, and no two busy workers share a URL or a directory |
| PrefetchWorkers.NothingLeft | scripts/prefetch-deps.ts:189-191 | in every execution, a run whose workers all finish, whatever failed for its items, leaves no staging directory of theirs that it did not find, with the same files, at its start |
| PrefetchWorkers.TornTreeAccepted | scripts/prefetch-deps.ts:167-184 | a run interrupted in removing a tree leaves its stamp on what remains, and a later run for that identity accepts it |
| PrefetchReturns.TrustedIffNoReturn | scripts/prefetch-deps.ts:161-191 | for any history of runs, matching stamps mean complete trees in all executions if and only if no run goes back to a replaced identity whose tree has a file besides its stamp |
| PrefetchReturns.ReturnFails | scripts/prefetch-deps.ts:167-184 | every such history has an execution that ends with a torn tree and a matching stamp |
| PrefetchReturns.ExecutionParts | scripts/prefetch-deps.ts:174-191 | at every point of every execution a stamped directory holds some of its identity's tree and nothing else |
| PrefetchReturns.CacheIsSafe | scripts/prefetch-deps.ts:161-191 | at every point of every execution, if no run goes back to a replaced identity, a matching stamp means the complete tree |
| PrefetchReturns.StampedTree | scripts/prefetch-deps.ts:161-191 | at every point of every execution without a lossy return, a directory with the stamp of an item of the run holds exactly the archive without the removed paths, and the stamp |
| PrefetchReturns.ToRemoveOld | scripts/prefetch-deps.ts:174-184 | from any start a worker can get to the removal of the old tree with its own complete tree staged |
| ZipTail.ZipBinarySize | scripts/binary-size.ts:332-355 | for any bytes all reads are in range and the walk ends; the result is the largest size of a file entry of the directory found, or the error that applies |
| ZipTail.FindEnd | scripts/binary-size.ts:332-338 | the last end record signature within reach, or none |
| ZipTail.LargestFrom | scripts/binary-size.ts:344-353 | the walk's size is the largest of the entries it passes |
| ZipTail.WalkPositions | scripts/binary-size.ts:344-353 | for any bytes, the walk goes from signature to signature by the lengths in each header, reads sizes and names from their bytes, and stops at the first place without a signature or room |
| ZipTail.LargestMeaning | scripts/binary-size.ts:351 | no file entry is larger, and one has that size |
| ZipTail.HeaderRead | scripts/binary-size.ts:346-352 | a header written by section 4.3.12 of APPNOTE.TXT is read as its member |
| ZipTail.WalkReads | scripts/binary-size.ts:344-353 | a written directory is read as its members |
| ZipTail.ReadTail | scripts/binary-size.ts:322-355 | for any file the outcome is that of the last end record signature in its tail, or that there is none |
| ZipTail.OwnEndIff | scripts/binary-size.ts:332-338 | the reader uses the archive's own end record if and only if the comment has at most 65514 bytes and no decoy signature |
| ZipTail.AnyMember | scripts/binary-size.ts:346-352 | every size, name, extra field and comment in range has a header |
| ZipTail.ReadBack | scripts/binary-size.ts:322-355 | for any archive with a comment of at most 65514 bytes and no decoy signature: an error if the directory begins more than 65536 bytes before the end, else the size of the largest member that is no directory, or the error that there is none; otherwise the last decoy in the tail decides, or there is no end record |
| ZipTail.SignatureBytes | scripts/binary-size.ts:334-351 | the two signatures byte by byte, and the slash of a directory |
| LogAccounting.ParseLog | scripts/ci-slowest-tests.ts:27-79 | each file's time is its reported durations plus its spans, and so is the total; the files with an entry are exactly those with a span or a reported duration |
| LogAccounting.LineCharges | scripts/ci-slowest-tests.ts:33-74 | a header with a file charges it the time to the next header or phase, or to the last stamp: all of it behind dashes or up to 500 ms, else exactly 500; a summary charges its own time; other lines charge nothing |
| LogAccounting.Parser.Take | scripts/ci-slowest-tests.ts:42-74 | one line moves its charge from what is owed to what is charged |
| LogAccounting.Parser.Close | scripts/ci-slowest-tests.ts:33-41 | the open span is charged once, clamped in the concurrent phase |
| LogAccounting.SpansDisjoint | scripts/ci-slowest-tests.ts:33-77 | with non-decreasing times, spans are non-negative and together at most the time from the first header to the last stamp |
| LogAccounting.SerialChargesAll | scripts/ci-slowest-tests.ts:47-77 | a log of serial file headers charges exactly the time from its first header to its last stamp |
| LogAccounting.InlineNonNegative | scripts/ci-slowest-tests.ts:55-60 | reported durations are never negative |
| Aggregate.RunAll | scripts/ci-slowest-tests.ts:154-180 | in every interleaving of sixteen workers every job is done once, and each entry has the per-platform sums, their maximum and a platform that attains it |
| Aggregate.Fold | scripts/ci-slowest-tests.ts:163-172 | one log is added, file by file, in any order |
| Aggregate.ChargeKeeps | scripts/ci-slowest-tests.ts:166-171 | adding to a sum keeps the maximum and a platform that attains it |
| Aggregate.ChargeLevel | scripts/ci-slowest-tests.ts:166-171 | the slowest platform changes only when another gets strictly above it |
| Aggregate.Aggregator.Take | scripts/ci-slowest-tests.ts:158-159 | a job is handed to one worker |
| Aggregate.Aggregator.Finish | scripts/ci-slowest-tests.ts:160-178 | a fetched log is added, a failed one is not, and no job is lost |
| Aggregate.SumPermuted | scripts/ci-slowest-tests.ts:166-167 | sums do not depend on the order of jobs |
| Aggregate.OrderDoesNotMatter | scripts/ci-slowest-tests.ts:151-180 | any two orders give the same files, sums and maxima |
| Completions.GenerateAndRead | misctools/generate-add-completions.ts:15-167 | the lists read from the generated table hold just the names of their letters if and only if the sorted names are ordered by letter; in any case they are the parts of the sorted list between the offsets; `BIGGEST_LIST` is the size of the largest group; it fails exactly when a number does not fit |
| CompletionTable.RoundTrip | misctools/generate-add-completions.ts:42-152 | decoding the encoded table gives the names back and stops at the recorded size, if and only if there are fewer than 2^32 names of fewer than 2^16 bytes |
| CompletionTable.Encode | misctools/generate-add-completions.ts:42-61 | the table is the count and the length-prefixed names, and the recorded size is its length; it fails exactly when a field is too small |
| CompletionTable.TableLayout | misctools/generate-add-completions.ts:45-59 | the count in four bytes and each name behind its length in two, low byte first, one record after another |
| CompletionTable.BuildTable | misctools/generate-add-completions.ts:141-149 | for any bytes, no read out of range; it returns a list exactly when the bytes begin with the table of that list |
| Completions.Group | misctools/generate-add-completions.ts:22-40 | group sizes by first letter, and their maximum |
| Completions.BuildIndex | misctools/generate-add-completions.ts:76-84 | each entry has the number of names of earlier letters and of its own |
| Completions.SlicesIff | misctools/generate-add-completions.ts:160-167 | each letter's slice is the list filtered by that letter if and only if the names are ordered by letter |
| Completions.SliceInRange | misctools/generate-add-completions.ts:160-167 | whatever the names and their order, a slice is in range, and is what lies between its letter's offset and the next |
| Completions.LowerCaseOrdered | misctools/generate-add-completions.ts:15-19 | sorted names with lower-case initials are so ordered |
| Completions.ScopedNotOrdered | misctools/generate-add-completions.ts:78 | a scoped name is not |
| Completions.SortSorts | misctools/generate-add-completions.ts:19 | sorting orders the names and keeps them all |
| Completions.LexMeaning | misctools/generate-add-completions.ts:19 | a name comes first if it is a prefix, or by the first byte that differs |
| Completions.FilterMeaning | misctools/generate-add-completions.ts:27-38 | a group has the names that begin with its character, for a letter small or capital, in the order of the list |
| Completions.KeyMeaning | misctools/generate-add-completions.ts:27-78 | the order of letters: by the initial, small or capital, and all other names last |
| Completions.OffsetIsBelow | misctools/generate-add-completions.ts:78-84 | an entry's offset is the number of names of earlier letters |
| LittleEndian.Le32RoundTrip | misctools/generate-add-completions.ts:48 | four written bytes are read as the number |
| LittleEndian.Le32Read | misctools/generate-add-completions.ts:141 | any four bytes are those of the number read |
| LittleEndian.Weights | misctools/generate-add-completions.ts:48-55 | byte k has weight 256^k, in reading and in writing |
| Vlq.EncodeVlq | bench/sourcemap/append-vlq-bench.ts:18-28 | the loop on 32-bit integers writes the base-32 digits of magnitude and sign, lowest first |
| Vlq.AlphabetIsStandard | bench/sourcemap/append-vlq-bench.ts:17 | the alphabet is that of section 4 of RFC 4648 |
| Vlq.NumberRead | bench/sourcemap/append-vlq-bench.ts:18-28 | whatever follows, decoding gives the number back if and only if it fits 32 bits with sign |
| Vlq.AtMostSeven | bench/sourcemap/append-vlq-bench.ts:21-26 | one to seven digits |
| Vlq.PrefixFree | bench/sourcemap/append-vlq-bench.ts:18-28 | no encoding begins another, so a text divides into numbers in one way |
| Vlq.Samples | bench/sourcemap/append-vlq-bench.ts:17-28 | the texts of some numbers, of one digit and of more |
| Mappings.TextRead | bench/sourcemap/append-vlq-bench.ts:32-54 | decoding delta-coded lines of any entries below 2^31 gives every absolute position |
| Mappings.DifferencesRead | bench/sourcemap/append-vlq-bench.ts:38-45 | a segment of differences, with or without a name, leads from one position to the other |
| Mappings.BuildDense | bench/sourcemap/append-vlq-bench.ts:32-54 | the text decodes to 200000 mappings: four a line, at columns 3, 7, 12 and 18, with original columns 18 further each line |
| Mappings.BuildLine | bench/sourcemap/append-vlq-bench.ts:37-51 | one line's entries and separators |

## Left out

- Network, process and CI plumbing, annotations, spawning and downloads: effects with little logic.
- `packages/*`, `docs/*`, `misctools/lldb/*`, the other benchmarks, native probes and type declarations: user interface, wrappers of foreign interfaces, or no behaviour of their own.
- Other runtime helpers (`__commonJS`, `__toCommonJS`, exports, private members): each is one guarded assignment or property definition.
- Other parts of the bundled renderer: hooks, attributes, resource hints, Suspense accounting and fatal render errors. A suspension is modelled as a value thrown at an element.
- `EsmStandard`: imports that a body catches, and top-level await, have no counterpart in the model of the standard.
- `UnicodeTables.Generator`: awaiting `get` is modelled as a plain call.
- `LogAccounting`: the regular expressions that classify lines and titles are parameters of the model, as is `isPhaseGroupHeader`.
- `PrefetchWorkers`: hoisting a single top-level directory and the newline that ends a stamp are left out, as are the counters. Paths to be removed are relative and normalised.
- `CompletionTable`: compression is left out, and `.trim()` and the dropping of empty lines come before the model.
- `Namespaces`: getters of modules' own, proxies, deletion and change of prototypes, and the prototypes of primitives are left out.
- `Decorators`: the `access` objects and metadata contents are left out, as is setting function names.
- `Mappings`: the reader does not compare source and name indexes with the lists of a source map.
- Floating point: times are reals, and no rounding is modelled except that of reported durations to milliseconds.
- Aliasing of the names in a decoded table with its bytes: the decoder's slices are values.
