# A model of the interpreter, its agents and their store

This project models, in Dafny, the parts of the repository that carry its hardest promises, and
proves those promises for all inputs, all runs and all reachable states.

- **Compiling and evaluating** (`LispObjects`, `FormExpander`, `LexicalCompiler`, `Store`, `AddressedEval`,
  `NamedEval`, `CompilerCorrectness`, `Interp`, `StepLimit`, `Arguments`, `SpecialForms`). `compileFunc` replaces names by
  (level, offset) addresses, re-scanning code once per nested lambda. A reference semantics
  evaluates names over nested scopes; the compiled code over the chain of frames means the same,
  and the loop over tail calls means the same as direct recursion. What calls bind and what the
  special forms do is also said directly, by the arguments and the forms.
- **Images** (`ImageFormat`, `ImageWriter`, `ImageRestore`, `ImageExtract`, `ImageImplant`,
  `CompiledImages`). A worklist numbers a cyclic graph of objects, three passes rebuild it, and `extract` and
  `implant` move one reachable part of it. The results are graph isomorphisms, exactly where the
  second pass finds built what it reads.
- **Threads** (`ThreadProtocol`, `ThreadHistory`, `Thread`). One driver per mailbox, guarded against lost
  wakeups by a counter: steps interleave at every `await`.
- **Jobs** (`Outcomes`, `JobMachine`, `JobHistory`, `Threads`). Asking, holding, following up, cancelling and
  stopping. The lookup that `settle` awaits is a step of its own, and that is where a cancel can
  be overwritten.
- **Checkpoint layers** (`CheckpointLayers`, `CheckpointHistory`, `CheckpointEffects`,
  `CheckpointStore`). A tree of
  layers shared between repls and messages, collected by reference. With no purge scheduled the
  table holds exactly what is needed.
- **Quasiquote** (`Quasiquote`), **checks over a growing trace** (`TemporalChecks`, `Checks`),
  **the streamed turn and its stored transcript** (`TurnTranscript`, `TurnHistory`,
  `TurnWire`), **printing and
  reading** (`LispText`, `PrintRead`, `PrintedForm`, `ReadBack`, `Reader`, `Printer`), **JSON** (`ExactJson`, `LispJson`),
  **budgets** (`BudgetTree`, `Budget`), **sorting** (`MergeSort`, `ListCells`) and **paged
  output** (`PagedText`, `Compactor`).

Where the source is an object whose fields change, the model has a class whose methods change
them, each proved against a function on values, and the invariants and theorems are about that
function.

Some promises turned out to hold only under a condition. Each has an input on which it fails, and
the exact condition:

- A body headed by the bare symbol `lambda`, `macro` or `quasiquote`, or by `try` in another shape
  than a `try` form's, does not compile to what it means, because the passes take the list of forms
  for a form: `(lambda (s) lambda s)` throws where a closure is meant
  (`CompilerCorrectness.LambdaHeadsBody`). `LexicalCompiler.CompileTopLevel` and
  `CompilerCorrectness.LambdaExactly` have the condition. Bodies headed by `cond`, `progn` or
  `setq` compile as they should. One headed by `quote` may get wrong code, but throws either way
  (`CompilerCorrectness.QuoteHeadThrows`).
- Snapshot and restore lose the code of a closure whose code is itself a function that no global
  is bound to, as after `(lambda (s) lambda (x) x)`, because the second pass reads it before it is
  built (`ImageRestore.NestedLambdaLost`, `CompiledImages.NestedCompiles`; `ImageRestore.ReadExactly`
  and `ImageRestore.SnapshotRestore` have the condition, `ImageRestore.OrderedExactly` puts it in
  terms of the heap). A fragment numbers its objects anew, so it can lose what its image keeps
  (`ImageImplant.OrderLost`; `ImageImplant.ExtractImplant` and
  `ImageImplant.FragmentOrderedExactly` have the condition).
- A check latched on a held turn, where more events join the step just judged, can report what
  the finished trace does not (`TemporalChecks.HeldTurnLatched`, `TemporalChecks.SameStepFlips`;
  the conditions are in `TemporalChecks.AlwaysTurns`, `TemporalChecks.CallTurns` and
  `TemporalChecks.HindsightExactly`).
- A job that was cancelled, or stopped with all who would hear it, can still reply when the cancel
  or the stop falls into the lookup of its root (`JobMachine.ReplyInGap`, and
  `JobMachine.ReplyAfterCancel` and `JobMachine.StopEnds` for the condition).
- A revision of a message without an id is lost with a host that hands such messages out as they
  are (`TurnTranscript.RevisionLost`, `TurnTranscript.StoredIsWire`); the repository's own store
  refuses it instead, and the refusal takes the rest of the recording with it
  (`TurnTranscript.RefusedRevision`).
- A printed datum reads back exactly when no comma comes to stand before an `@` in it and no
  string holds a line separator (`ReadBack.ReadsBackExactly`; `PrintRead.CommaBeforeAt` and
  `PrintRead.SeparatorBreaks` are inputs).
- The marker under a word too long to show sends the reader to a character of the value, counted from
  the word: the right place only if the value starts with that word (`CompactorObject.CutMarkerLeads`).

`dafny verify dfyconfig.toml` verifies all of it.

## Model

| member | source | states |
|---|---|---|
| `LexicalCompiler.MakeArgTable` | `packages/interpreter/src/compile.ts:154-180` | the loop that fills the table gives every parameter the offset, and the list the arity and the refusals (second `&rest`, second `&key`, nothing after `&key`, duplicate or non-symbol), of the recursive reading of the list |
| `FormExpander.QuasiquoteGoes` | `packages/interpreter/src/compile.ts:48-64` | expanding a list headed by `quasiquote`, wherever the passes meet one, leaves one symbol `quasiquote` less than there was |
| `LexicalCompiler.QuasiquoteLost` | `packages/interpreter/src/compile.ts:108-126` | so a list headed by `quasiquote` never comes out of the passes as code that holds that symbol as often as it does: the head does not survive |
| `LexicalCompiler.ScanAddressed` | `packages/interpreter/src/compile.ts:182-221` | scanning code that outer lambdas have already addressed, quasiquote templates and their nested levels included, with one more table, is addressing the source once under all the scopes, whatever their parameters are called: levels go up by one, shadowing wins, quoted data is untouched |
| `LexicalCompiler.ParamsAddressed` | `packages/interpreter/src/compile.ts:128-180` | outer scans turn an inner lambda's own parameters, those named as special forms too, into addresses, and its argument table still comes out the same, as long as no outer parameter is called `&rest` or `&key` |
| `LexicalCompiler.CompileAddressed` | `packages/interpreter/src/compile.ts:108-126` | after any number of outer scans, the passes give a form the code in which every free name has its address if and only if the form is fine: a condition on the heads of the bodies and clauses in it |
| `LexicalCompiler.CompileForms` | `packages/interpreter/src/compile.ts:108-126` | the same for the list of forms that a body or a clause is, whatever stands at its head: it is not fine headed by `lambda`, `macro` or `quasiquote`, nor by `try` in any shape but a `try` form's; headed by `quote` it is fine exactly if what the outer scans made of it is its code already; headed by anything else it is fine exactly if each of its forms is |
| `LexicalCompiler.CompileTry` | `packages/interpreter/src/compile.ts:80-106` | a list headed by `try` comes out as its code if and only if it has the shape that expansion demands of a `try` form and its forms are fine |
| `LexicalCompiler.CompileClauses` | `packages/interpreter/src/compile.ts:108-126` | the same for the clauses of a `cond` |
| `LexicalCompiler.CompileFuncAddressed` | `packages/interpreter/src/compile.ts:32-46` | `compileFunc` on an inner lambda, re-scanned once per enclosing lambda, gives the arity of the source's parameter list and the body's code under one table more, if and only if the body is fine |
| `LexicalCompiler.CompileTopLevel` | `packages/interpreter/src/compile.ts:32-46` | a lambda read at the top level, of any nesting and shadowing, compiles to the code in which every name is replaced by the (level, offset) its scopes give it, if and only if its body is fine |
| `LexicalCompiler.QuoteRightByChance` | `packages/interpreter/src/compile.ts:108-126` | why the condition on `quote` is what it is: in `(lambda (s) (lambda (s) quote s))` the address an outer scan left is the right one by chance, although the inner lambda binds the name anew |
| `CompilerCorrectness.ResolveLookup` | `packages/interpreter/src/func.ts:306-326` | the address a name gets leads along the chain of frames to the slot that lookup in the nested scopes finds, and is within both chain and frame |
| `CompilerCorrectness.Slots` | `packages/interpreter/src/func.ts:317-326` | reading and writing a slot of a frame are the same in the named and in the addressed store, and a write keeps the store's shape |
| `Store.MakeKeyedFrame` | `packages/interpreter/src/func.ts:58-101` | the two loops that put the arguments of a function with `&key` into its frame, with the set of slots already given, give the frame, or the complaint, of the recursive reading of the list |
| `Store.KeywordsCommute` | `packages/interpreter/src/func.ts:77-101` | two keyword arguments that are accepted in one order give the same frame in the other, whatever follows them |
| `CompilerCorrectness.FrameMade` | `packages/interpreter/src/func.ts:38-101` | positional, rest and keyword arguments go to the same slots before and after addressing, or are refused for the same reason |
| `CompilerCorrectness.CorrectArgs` | `packages/interpreter/src/func.ts:38-101` | making the frame, keyword arguments included, and evaluating its arguments in order gives translated arguments, the same errors, and a frame of the length the addresses index |
| `CompilerCorrectness.CorrectCall` | `packages/interpreter/src/lisp.ts:539-560` | calling a closure whose body is addressed, in a new frame on its own environment, gives what calling it by names in a new scope gives |
| `CompilerCorrectness.CorrectCond` | `packages/interpreter/src/lisp.ts:617-637` | `cond` agrees clause by clause, a clause without a body handing back its test's value included |
| `CompilerCorrectness.CorrectSetq` | `packages/interpreter/src/lisp.ts:700-724` | `setq` of addresses writes the slot that `setq` of names writes, pair after pair |
| `CompilerCorrectness.Correct` | `packages/interpreter/src/compile.ts:32-46` | compiling preserves meaning: in every store, scope and under every bound, evaluating a core form's addressed code over the frame chain gives the translated result of evaluating the form over named nested scopes, leaves the translated store, and never follows an address out of the chain; a form run as read at the top level, whose lambdas are compiled when they are met, must be fine |
| `CompilerCorrectness.TopLevel` | `packages/interpreter/src/lisp.ts:730-736` | the same for a fine program read at the top level; no address leaves the chain of frames, and nothing that the model leaves out is met |
| `CompilerCorrectness.LambdaExactly` | `packages/interpreter/src/compile.ts:32-46` | for a lambda evaluated at the top level the condition is exact: it gives the reference's closure, compiled, if and only if it is fine |
| `CompilerCorrectness.LambdaHeadsBody` | `packages/interpreter/src/compile.ts:108-126` | one that is not: `(lambda (s) lambda s)` throws that a parameter list is expected, where the reference gives a closure |
| `CompilerCorrectness.QuoteHeadThrows` | `packages/interpreter/src/lisp.ts:606-615` | a body headed by the bare symbol `quote` throws that the variable is void, compiled or not, unless there is a global of that name, which `setq` never makes |
| `StepLimit.MoreEval` | `packages/interpreter/src/lisp.ts:472-491` | what an evaluation gives under one bound on nesting it gives under every larger one |
| `StepLimit.OneResult` | `packages/interpreter/src/lisp.ts:472-491` | a form has at most one result, whatever the bounds it is found under |
| `Arguments.CompiledArgs` | `packages/interpreter/src/func.ts:38-101` | what a call of compiled code binds: without keywords, slot `i` of the frame holds the value of argument `i`, each evaluated in the state the one before it left, and with `&rest` the last slot holds a proper list of the values of the others; with keywords, what stands before the first keyword goes to the first slots, what follows a keyword to that keyword's slot, and every other slot is nil; arguments that no frame can hold are refused before any is evaluated |
| `Arguments.ReferenceArgs` | `packages/interpreter/src/func.ts:38-101` | the same of the reference by names |
| `Arguments.KeyedFrameIs` | `packages/interpreter/src/func.ts:58-101` | the frame of a function with `&key` is a placement of its arguments, each keyword known, given once and for a slot still free, and there is none when they are refused |
| `Arguments.ParamsByPosition` | `packages/interpreter/src/compile.ts:154-180` | the name at place `i` of a parameter list, marks aside, is slot `i`, and the arity is the number of names, negative with `&rest` |
| `Arguments.KeywordsByPosition` | `packages/interpreter/src/compile.ts:154-180` | the names behind `&key` differ and have the last slots, in order |
| `Arguments.CallBinds` | `packages/interpreter/src/lisp.ts:539-560` | calling a closure evaluates its body in a new innermost scope, where the parameter at place `i` evaluates to what slot `i` of the frame holds |
| `SpecialForms.PrognMeans` | `packages/interpreter/src/lisp.ts:606-615` | `progn` gives the value of its last form, all evaluated in order, nil if there is none, and the first failure as it is |
| `SpecialForms.CondMeans` | `packages/interpreter/src/lisp.ts:617-637` | `cond` is decided by the first clause whose test is not nil, by the test's own value if nothing is behind it and otherwise by the forms behind it in order; the tests before it were nil and evaluated in order; it is nil if every test is |
| `SpecialForms.SetqMeans` | `packages/interpreter/src/lisp.ts:700-724` | `setq` evaluates each form after the assignment before it and gives the last value |
| `SpecialForms.AssignedIsRead` | `packages/interpreter/src/lisp.ts:700-724` | what was assigned to a variable is what the variable then evaluates to, slot or global |
| `Interpreter.Interp.EvalNow` | `packages/interpreter/src/lisp.ts:458-470` | atoms: a slot, a global, a closure over the current frames, or themselves |
| `Interpreter.Interp.EvalGen` | `packages/interpreter/src/lisp.ts:472-491` | the loop over tail calls ends with exactly the value, error and store of direct recursion, under every bound |
| `Interpreter.Interp.QuoteOrLambda` | `packages/interpreter/src/lisp.ts:496-516` | `quote` and `lambda` as direct recursion has them, malformed quotes and parameter lists included |
| `Interpreter.Interp.EvalSpecial` | `packages/interpreter/src/lisp.ts:493-527` | a special form, a quasiquote expanded on the spot included, hands back a value or one tail call, and making that call gives the direct result |
| `Interpreter.Interp.EvalProgN` | `packages/interpreter/src/lisp.ts:606-615` | all but the last form are evaluated in order; the last is handed back as the tail call |
| `Interpreter.Interp.EvalCond` | `packages/interpreter/src/lisp.ts:617-637` | the loop over clauses hands back the chosen clause's last form, a quoted test value, or nil |
| `Interpreter.Interp.EvalSetQ` | `packages/interpreter/src/lisp.ts:700-724` | the loop over pairs assigns each value in turn and gives the last |
| `Interpreter.Interp.EvalEach` | `packages/interpreter/src/lisp.ts:541-550` | arguments are evaluated left to right, and the first error stops them |
| `Interpreter.Interp.EvalApplication` | `packages/interpreter/src/lisp.ts:529-561` | head, then frame, then arguments, then call, as direct recursion has them |
| `Interpreter.Interp.EvalFrame` | `packages/interpreter/src/lisp.ts:539-550` | the arity and the keywords are checked, then the slots and the rest are evaluated into one frame: where it gives one, slot by slot the frame holds the values of the arguments as `Arguments` says, the rest as a list |
| `Interpreter.Interp.ApplyTo` | `packages/interpreter/src/lisp.ts:539-560` | a builtin's value, or the body's last form in the new frame as a tail call; arity and applicability errors |
| `Interpreter.Interp.EvalTopLevel` | `packages/interpreter/src/lisp.ts:730-736` | a fine core form evaluated by the loop gives the named reference's result on the source |
| `ImageWriter.Writer.WriteRef` | `packages/interpreter/src/image.ts:78-87` | an object met for the first time gets the next number and is put in line; one met before keeps its number |
| `ImageWriter.Writer.WriteObject` | `packages/interpreter/src/image.ts:89-131` | an object is written field by field with every reference as its number |
| `ImageWriter.Writer.Drain` | `packages/interpreter/src/image.ts:71-76` | the worklist ends, with everything numbered written, closed under reference, and only what the roots reach numbered |
| `ImageWriter.Snapshot` | `packages/interpreter/src/image.ts:154-185` | an image numbers the reachable objects one to one and onto its slots, those bound to globals and sources before all others, writes each under its number, and every global and source under the numbering |
| `ImageRestore.ImageReader.BuildMutable` | `packages/interpreter/src/image.ts:219-229` | the first pass leaves an empty shell in every mutable slot |
| `ImageRestore.ImageReader.BuildImmutable` | `packages/interpreter/src/image.ts:219-262` | the second pass builds every other object from what the slots then hold, an unbuilt slot being undefined |
| `ImageRestore.ImageReader.Fill` | `packages/interpreter/src/image.ts:230-268` | the third pass fills every shell with its decoded fields: a settled promise with the value or the reason it had, and only one that was pending with a rejection as interrupted |
| `ImageRestore.ImageReader.Read` | `packages/interpreter/src/image.ts:219-268` | after the three passes every slot holds its object, decoded from the slots as they were when it was read, and the host's own objects are as they were |
| `ImageRestore.ReadExactly` | `packages/interpreter/src/image.ts:219-268` | the second pass reads no unbuilt slot, and what is left is what the image describes, if and only if every object that pass builds refers only to shells and to objects with lower numbers |
| `ImageRestore.ImageReadable` | `packages/interpreter/src/image.ts:89-131` | whatever heap is imaged, every reference in the image is in range and only a closure has an environment |
| `ImageRestore.OrderedExactly` | `packages/interpreter/src/image.ts:89-131` | an image meets that condition if and only if, in the heap it was taken of, whatever is neither a cell, a vector, a frame nor a promise refers only to such objects and to ones with lower numbers |
| `ImageRestore.ListsOrdered` | `packages/interpreter/src/image.ts:89-131` | where every function's code and environment are lists of cells, the image of the heap meets that condition |
| `ImageRestore.CodeLost` | `packages/interpreter/src/image.ts:219-229` | where a closure bound to a global has for code a function that is not bound to one, it does not: the restored closure has no code |
| `ImageRestore.NestedLambdaLost` | `packages/interpreter/src/compile.ts:32-46` | such a heap: a closure bound to one global, the function that is its code, and that one's code |
| `CompiledImages.NestedCompiles` | `packages/interpreter/src/compile.ts:32-46` | it is the heap of the closure that `(lambda (s) lambda (x) x)` compiles to |
| `LexicalCompiler.LambdaInBodyCompiles` | `packages/interpreter/src/compile.ts:108-126` | under any two names, such a lambda compiles without complaint to a function whose code is not a list but a function |
| `ImageRestore.SnapshotRestore` | `packages/interpreter/src/image.ts:438-452` | snapshot then restore is an isomorphism of the reachable graph, sharing and cycles kept, if and only if the image is ordered as the second pass needs it; every global and source is bound to the image of its value in any case; each object is itself, renamed, a promise that was settled with its value or reason, and only a pending one comes back rejected as interrupted |
| `ImageRestore.SnapshotAndRestore` | `packages/interpreter/src/image.ts:154-452` | end to end: the restored graph is isomorphic, settled promises with their values and reasons and pending ones rejected as interrupted, if and only if the image is ordered, as it is for every heap whose functions' code and environments are lists; the globals are bound to renamed values, the host's objects are unchanged |
| `ImageExtract.DrainPending` | `packages/interpreter/src/image.ts:391-428` | the worklist over an image ends in a numbering closed under reference, or in a refusal that some reachable object justifies |
| `ImageExtract.Extract` | `packages/interpreter/src/image.ts:391-428` | for the first global of that name: a fragment holds exactly the objects reachable from it, each once, every reference in range; it is refused exactly for a missing name, a reference out of range or a reachable pending promise |
| `ImageExtract.FragmentWhole` | `packages/interpreter/src/image.ts:391-428` | a fragment that is given has nothing broken or waiting among what its global reaches |
| `ImageImplant.FragmentReadable` | `packages/interpreter/src/image.ts:430-436` | a fragment of a readable image is itself readable |
| `ImageImplant.FragmentOrdered` | `packages/interpreter/src/image.ts:430-436` | a fragment of an image whose functions refer to shells only is ordered |
| `ImageImplant.GraphMoved` | `packages/interpreter/src/image.ts:391-436` | where both are rebuilt as described, the implanted objects are the restored image's reachable objects, renamed one to one |
| `ImageImplant.FragmentOrderedExactly` | `packages/interpreter/src/image.ts:391-429` | a fragment is ordered if and only if, in the image, whatever the second pass builds refers to shells and to what was taken before it |
| `ImageImplant.FragmentCodeLost` | `packages/interpreter/src/image.ts:391-429` | a global's closure is taken first: if its code is a function, the fragment is not ordered, wherever the two stand in the image |
| `ImageImplant.OrderLost` | `packages/interpreter/src/image.ts:391-429` | an image that can be read and is ordered, with a global whose fragment is not |
| `ImageImplant.ExtractImplant` | `packages/interpreter/src/image.ts:391-436` | extract then implant, from any image that can be read, binds a value isomorphic to the one the whole image describes (which restoring gives if the image is ordered), and nothing that one does not reach, if and only if the fragment, which has numbers of its own, is ordered |
| `ImageImplant.Implant` | `packages/interpreter/src/image.ts:430-436` | implanting builds the fragment's objects beside the host's, as the fragment describes them if and only if it is ordered, and gives the decoded root |
| `ThreadProtocol.SingleKept` | `packages/ai/src/thread.ts:145-224` | every step keeps at most one driver, there exactly while `running` says so |
| `ThreadProtocol.AwakeKept` | `packages/ai/src/thread.ts:145-224` | every step keeps: a driver about to stop with the counter unchanged leaves nothing in the mailbox whose post has bumped it |
| `ThreadProtocol.ConservedKept` | `packages/ai/src/thread.ts:145-347` | every step keeps every posted envelope in exactly one place |
| `ThreadProtocol.AccountedKept` | `packages/ai/src/thread.ts:174-347` | every step keeps: an envelope has one way out exactly when it is no longer being sent or waiting, and, if taken out of the mailbox by a cancel or a withdrawal, ends by its outcome |
| `ThreadProtocol.EndedStays` | `packages/ai/src/thread.ts:197-200` | no step ends an envelope a second time or changes how it ended |
| `ThreadProtocol.NoLostWakeup` | `packages/ai/src/thread.ts:145-224` | over every interleaving, one driver at most; when none runs and none has failed, the mailbox holds only envelopes whose post has yet to bump the counter |
| `ThreadHistory.ExactlyOnce` | `packages/ai/src/thread.ts:174-347` | over every interleaving, each posted envelope is in one place, tracked until it ends, and ended by the one way it left the mailbox: one that opened a turn or joined it by the step that ended that turn, with the turn's outcome, and one that a cancel or a withdrawal took by its release, with the reason |
| `ThreadHistory.EndedByItsTurn` | `packages/ai/src/thread.ts:226-347` | over every run, how an envelope ended is the outcome of some step of the run that it was in the hands of: the end of the turn that consumed it exactly if it was opened or steered |
| `ThreadHistory.TurnEndsAll` | `packages/ai/src/thread.ts:226-233` | the end of a turn ends everything the turn consumed, with the turn's outcome |
| `ThreadHistory.ReleaseEndsAll` | `packages/ai/src/thread.ts:174-200` | a release ends everything that was in hand, for the reason it was taken |
| `ThreadHistory.CancelReleases` | `packages/ai/src/thread.ts:174-200` | a cancel, once it has released what it took, has ended everything that waited, for its reason, and nothing waits; the running turn and what it consumed are as they were |
| `ThreadHistory.WithdrawReleases` | `packages/ai/src/thread.ts:191-200` | a withdrawal of an envelope that waits ends that one as withdrawn, leaves every other waiting and ends no other; of one that does not wait it changes nothing |
| `ThreadHistory.InboxEnds` | `packages/ai/src/thread.ts:226-311` | what waits when a turn looks into its inbox ends with that turn and its outcome, as what it began with does |
| `ThreadHistory.RunRecalls` | `packages/ai/src/thread.ts:145-224` | over every run, the envelopes known are those whose posts began, open posts are those that have yet to bump the counter, and a failed drive counts until the next post bumps it |
| `ThreadHistory.FirstInFirstOut` | `packages/ai/src/mailbox.ts:31-53` | over every run, what waits and what a turn has taken is in the order in which the mailbox took it in, and while an envelope waits none that came later has left it, unless withdrawn |
| `ThreadProtocol.EndedForever` | `packages/ai/src/thread.ts:197-200` | once ended, an envelope stays ended with the same outcome, whatever follows |
| `ThreadProtocol.QuietMeansReleased` | `packages/ai/src/thread.ts:207-347` | when nothing is under way, every envelope posted has been released, but for those a failed drive took |
| `ThreadProtocol.FailureStrands` | `packages/ai/src/thread.ts:207-224` | a drive that fails leaves a completed post in the mailbox with no driver: a run that strands it, which is why a failed drive is excepted above |
| `ThreadObjects.MemoryMailbox.Post` | `packages/ai/src/mailbox.ts:31-35` | the envelope goes to the end of its thread's queue; other queues are unchanged |
| `ThreadObjects.MemoryMailbox.TakeUpTo` | `packages/ai/src/mailbox.ts:37-43` | up to `max` envelopes leave from the front, in order; the rest stay |
| `ThreadObjects.MemoryMailbox.Withdraw` | `packages/ai/src/mailbox.ts:45-53` | the first envelope of that id leaves, and the answer says whether there was one |
| `ThreadObjects.Thread.Post` | `packages/ai/src/thread.ts:145-151` | the part of `post` before the mailbox call |
| `ThreadObjects.Thread.PostContinues` | `packages/ai/src/thread.ts:151-158` | the counter is bumped, and a driver started only if none runs |
| `ThreadObjects.Thread.MailboxAnswers` | `packages/ai/src/thread.ts:210-211` | the first waiting envelope is handed to the driver |
| `ThreadObjects.Thread.DriveContinues` | `packages/ai/src/thread.ts:210-219` | the driver opens a turn, looks again because the counter moved, or stops |
| `ThreadObjects.Thread.InboxAnswers` | `packages/ai/src/thread.ts:303-311` | all that waits is handed to the running turn |
| `ThreadObjects.Thread.InboxContinues` | `packages/ai/src/thread.ts:303-311` | the turn adds what it was handed to what it consumed, in order |
| `ThreadObjects.Thread.TurnEnds` | `packages/ai/src/thread.ts:226-233` | everything the turn consumed is released, and what was tracked ends with the turn's outcome |
| `ThreadObjects.Thread.ReleaseEach` | `packages/ai/src/thread.ts:197-200` | each tracked id among those released ends with the outcome and is no longer tracked; the others are unchanged |
| `ThreadObjects.Thread.DriveFails` | `packages/ai/src/thread.ts:220-223` | a failing drive takes its envelopes with it and says it no longer runs |
| `ThreadObjects.Thread.CancelTakes` | `packages/ai/src/thread.ts:174-179` | a cancel takes all that waits |
| `ThreadObjects.Thread.WithdrawTakes` | `packages/ai/src/thread.ts:191-195` | a withdrawal takes one envelope if it waits, and says so |
| `ThreadObjects.Thread.HandContinues` | `packages/ai/src/thread.ts:174-200` | what a cancel or a withdrawal took is released, and what was tracked ends for the reason it was taken |
| `JobMachine.StepKeeps` | `packages/ai/src/threads.ts:200-482` | every step keeps the job invariant, every outcome once set, and every hand-out made |
| `JobMachine.FinishKeeps` | `packages/ai/src/threads.ts:443-455` | setting an outcome hands it out at most once: to the waiter, or as one event if the job is not cancelled and there is something to say |
| `JobMachine.ReleaseKeeps` | `packages/ai/src/threads.ts:409-414` | releasing the job that a thread asks about keeps the invariant, every outcome that was set and every hand-out made |
| `JobMachine.FollowUpKeeps` | `packages/ai/src/threads.ts:262-273` | a follow-up, to a held job or not, keeps the invariant, every outcome that was set and every hand-out made |
| `JobMachine.HaltEachKeeps` | `packages/ai/src/threads.ts:390-407` | halting any list of threads, one after another, keeps the invariant |
| `JobMachine.OutcomeSetOnce` | `packages/ai/src/threads.ts:429-455` | over every run, an outcome once set never changes, nor the state beside it |
| `JobMachine.HandedOutOnce` | `packages/ai/src/threads.ts:429-482` | over every run, a job is handed out at most once, with its outcome, to its waiter or as one event, whose text is the answer itself or `failed: ` and why; no event is for a cancelled job; and once it ended, whoever waits for it has been told, and if nobody waited its asker, unless it was cancelled or there is nothing to say |
| `JobMachine.AskingNamesHeld` | `packages/ai/src/threads.ts:262-273` | over every run, `asking` names held, outcome-free jobs of its threads, and a job without an outcome is under way or held |
| `JobMachine.ReplyAfterCancel` | `packages/ai/src/threads.ts:347-361` | a cancelled job without an outcome may yet send a reply if and only if the cancel came while its settlement as held was looking up its root, it has someone to reply to, and its thread is not its own root |
| `JobMachine.HaltEachEnds` | `packages/ai/src/threads.ts:390-407` | halting a list of threads ends exactly the jobs held on them, and leaves those held on others |
| `JobMachine.StopEnds` | `packages/ai/src/threads.ts:366-388` | a stop ends every job held on its threads, as stopped or, where the asker is stopped too, as cancelled; a pending job nobody will hear may yet reply if and only if its settlement is looking up a root above its thread |
| `JobMachine.ReplyInGap` | `packages/ai/src/threads.ts:429-455` | the run in which it does: the lookup's end overwrites the cancel, a follow-up resumes the job, and its answer is delivered |
| `JobHistory.OutcomeFrom` | `packages/ai/src/threads.ts:347-455` | over every run, the outcome of a job is one that a step of the run set: a settlement the one its envelope ended with, a release or a stop the one it says |
| `JobHistory.SettlementSets` | `packages/ai/src/threads.ts:429-455` | a settlement that does not hold its job sets exactly the outcome the envelope ended with, the state beside it, and tells the waiter that outcome, or the asker the answer or `failed: ` and why unless the job was cancelled; every other job is as it was |
| `JobHistory.RootedSets` | `packages/ai/src/threads.ts:429-455` | a held question whose thread is its own root is settled as that question |
| `JobHistory.RootedHolds` | `packages/ai/src/threads.ts:429-442` | one below its root is held, without an outcome, and its thread asks with it |
| `JobHistory.FollowUpAnswered` | `packages/ai/src/threads.ts:262-273` | a follow-up to a thread that asks resumes the job it asks about and no other, which can then be answered: the answer is set and said as if it had never been held; to a thread that asks nothing it changes no job |
| `JobHistory.CancelDoes` | `packages/ai/src/threads.ts:347-361` | a cancel ends a held job at once, telling its waiter and not its asker; one with its envelope under way ends later with whatever the envelope ends with, told to a waiter only; one with an outcome it leaves alone |
| `JobHistory.RootingFrom` | `packages/ai/src/threads.ts:429-442` | over every run, the question held while the root is looked up is the one the job's envelope ended with |
| `JobHistory.WaiterTold` | `packages/ai/src/threads.ts:309-325` | over every run, whoever waits for a job before it has an outcome, and is neither replaced nor gives up, is told that job's outcome once it has one |
| `JobHistory.RunAskers` | `packages/ai/src/threads.ts:200-223` | over every run, a thread owes its replies to whoever last asked it for one |
| `JobHistory.JobFrom` | `packages/ai/src/threads.ts:200-482` | over every run, a job is of the thread that was asked and replies to the one that asked it; a reply that reaches a thread which owes one itself is asked on, for whoever last asked that thread |
| `ThreadsObject.Threads.AskOf` | `packages/ai/src/threads.ts:200-223` | a new pending job, and the asker noted for the thread asked |
| `ThreadsObject.Threads.Follow` | `packages/ai/src/threads.ts:262-273` | the held job asked about is resumed, or the message is posted on its own |
| `ThreadsObject.Threads.FinishJob` | `packages/ai/src/threads.ts:443-455` | the outcome, the state and the one hand-out |
| `ThreadsObject.Threads.EnvelopeEnds` | `packages/ai/src/threads.ts:429-443` | an end that is held and not cancelled looks up the root first; any other settles at once |
| `ThreadsObject.Threads.RootFound` | `packages/ai/src/threads.ts:433-442` | a job of a thread below its root is held and asked about; one of a root settles as held |
| `ThreadsObject.Threads.WaitFor` | `packages/ai/src/threads.ts:309-325` | an outcome that is there at once, `lost` for an unknown job, or a new waiter in place of any earlier one |
| `ThreadsObject.Threads.Release` | `packages/ai/src/threads.ts:409-414` | a release, as several callers share it |
| `ThreadsObject.Threads.CancelJob` | `packages/ai/src/threads.ts:347-356` | the part of `cancel` before the withdrawal, and whether it was already decided |
| `ThreadsObject.Threads.HaltThreads` | `packages/ai/src/threads.ts:390-401` | the loop over threads releases or settles the job held on each |
| `ThreadsObject.Threads.MarkUnheard` | `packages/ai/src/threads.ts:373-381` | every pending job among the stopped threads whose asker is stopped too is marked cancelled, and no other |
| `ThreadsObject.Threads.StopThreads` | `packages/ai/src/threads.ts:366-388` | marking, then halting |
| `ThreadsObject.Threads.DeliverEvent` | `packages/ai/src/threads.ts:457-482` | a reply event is posted, or asked onward when its receiver owes a reply itself |
| `CheckpointLayers.DeleteOne` | `packages/backend/convex/repls.ts:188-208` | deleting an unreferenced layer takes a reference from its parent and from nothing else |
| `CheckpointLayers.CollectKeeps` | `packages/backend/convex/repls.ts:210-225` | collection ends, deletes nothing referenced, and leaves no layer unreferenced that was not so before, nor the one it started from |
| `CheckpointLayers.RecordAt` | `packages/backend/convex/repls.ts:124-162` | a record keeps every reference it moves: the old head becomes a parent, relabelled messages name a layer that is there |
| `CheckpointLayers.SettleLabels` | `packages/backend/convex/repls.ts:99-122` | relabelling messages trades the parent's label for the new layer's and changes no other |
| `CheckpointLayers.LabelsThere` | `packages/backend/convex/messages.ts:119-137` | every label given to appended messages names a layer that is there |
| `CheckpointLayers.ForkAt` | `packages/backend/convex/chats.ts:359-398` | forking a chat keeps safety and owes nothing new |
| `CheckpointLayers.DropAt` | `packages/backend/convex/chats.ts:413-425` | whatever dropping a chat leaves unreferenced is owed to a purge it schedules |
| `CheckpointLayers.PageAt` | `packages/backend/convex/repls.ts:227-249` | a page of a purge forgets no layer: what it leaves unreferenced another scheduled purge will come to |
| `CheckpointLayers.BatchAt` | `packages/backend/convex/messages.ts:259-275` | the same for a batch of a dropped chat's messages |
| `CheckpointLayers.StepKeeps` | `packages/backend/convex/repls.ts:27-249` | every mutation keeps both halves: whatever is referenced is there, and whatever is there is referenced or owed to a scheduled purge |
| `CheckpointHistory.LayersAreExact` | `packages/backend/convex/repls.ts:188-249` | after any run of mutations, purges interleaved at will: the parent chain of every live head and live label is there, everything there lies on such a chain or one a scheduled purge has yet to come to, and with no purge scheduled the table is exactly what those chains need |
| `CheckpointHistory.PassComplete` | `packages/backend/convex/repls.ts:227-249` | one uninterrupted pass of a purge leaves no layer of the repl unreferenced, whatever was left before it |
| `CheckpointHistory.LatestStays` | `packages/backend/convex/repls.ts:164-186` | what a live repl restores is changed by nothing but a record of its own: not by repls sharing its layers, nor by any purge |
| `CheckpointHistory.LatestRecorded` | `packages/backend/convex/repls.ts:124-186` | a record appends its chunks to what the repl restores, or replaces it when whole |
| `CheckpointHistory.ForkRestores` | `packages/backend/convex/chats.ts:351-398` | a fork is never refused for want of its layer: at a message that is no answer it restores what that message's own label restores, at an answer what the label of the message before it restores, and at an answer that comes first, or where there is no label, it has no repl; its messages are those up to there with their labels |
| `CheckpointEffects.AppendLabels` | `packages/backend/convex/messages.ts:119-173` | a message appended with a layer of its own carries it; one without carries that of the last message before it that has one; before all of those, the layer the first of them was recorded over, and if none has one, the head; a chat without a repl labels nothing |
| `CheckpointEffects.RecordLabels` | `packages/backend/convex/repls.ts:99-162` | a record that is not refused makes a layer over the head, which becomes the head, and gives it to exactly the messages that waited for it: from the first with its origin on, as long as they carry the layer recorded over; nothing else is changed |
| `CheckpointEffects.RecordRefused` | `packages/backend/convex/repls.ts:124-162` | a record changes nothing if and only if its repl is unknown, or it is neither whole nor over the repl's head |
| `CheckpointEffects.Dropped` | `packages/backend/convex/repls.ts:56-68` | dropping takes the chat and its repl at once, and leaves messages and layers to purges it schedules |
| `CheckpointEffects.BatchTakes` | `packages/backend/convex/messages.ts:259-275` | a batch takes the first messages of the chat, at most as many as a batch holds, and no other chat's, and is scheduled again unless it was not full |
| `CheckpointStore.Store.Open` | `packages/backend/convex/repls.ts:27-38` | a chat's repl, made if it has none |
| `CheckpointStore.Store.CollectFrom` | `packages/backend/convex/repls.ts:210-225` | the loop up the parents is the recursive collection |
| `CheckpointStore.Store.CollectAll` | `packages/backend/convex/repls.ts:239` | collection of each layer in turn |
| `CheckpointStore.Store.SettleMessages` | `packages/backend/convex/repls.ts:99-122` | the loop relabels the run of messages from the layer's origin on |
| `CheckpointStore.Store.RecordOver` | `packages/backend/convex/repls.ts:124-162` | the new layer, head and labels, or the refusal for an unknown repl or a stale head |
| `CheckpointStore.Store.AppendTo` | `packages/backend/convex/messages.ts:139-173` | appended messages carry the labels of `layersOf` |
| `CheckpointStore.Store.LabelEach` | `packages/backend/convex/messages.ts:119-137` | the running head gives each entry its label |
| `CheckpointStore.Store.ForkFrom` | `packages/backend/convex/chats.ts:359-398` | the forked chat, its repl and its messages |
| `CheckpointStore.Store.DropWhole` | `packages/backend/convex/repls.ts:56-68` | the chat and its repl go, and their purges are scheduled |
| `CheckpointStore.Store.PurgeLayersPage` | `packages/backend/convex/repls.ts:227-249` | one page of a purge and what it schedules next |
| `CheckpointStore.Store.PurgeMessagesBatch` | `packages/backend/convex/messages.ts:259-275` | one batch of messages, and the layers they were labelled with |
| `CheckpointStore.Store.Latest` | `packages/backend/convex/repls.ts:164-186` | the loop reads the layers down to the last whole one, oldest first, and never stops for a layer that is gone |
| `Quasiquote.ConcatArgs` | `packages/interpreter/src/quasiquote.ts:62-65` | joining two argument lists evaluates the first's arguments, then the second's |
| `Quasiquote.ConsConsEval` | `packages/interpreter/src/quasiquote.ts:67-73` | nested conses evaluate their elements in order, then the tail, and give the list of the elements before it |
| `Quasiquote.MergeMeans` | `packages/interpreter/src/quasiquote.ts:54-60` | merging an argument of `append` into the next changes neither the value, nor the error, nor what is evaluated when |
| `Quasiquote.SpineMeans` | `packages/interpreter/src/quasiquote.ts:39-52` | the arguments made for `append` evaluate to the list with its holes filled |
| `Quasiquote.ElementMeans` | `packages/interpreter/src/quasiquote.ts:75-92` | the form made for an element evaluates to the list of what it contributes |
| `Quasiquote.TemplateMeans` | `packages/interpreter/src/quasiquote.ts:13-31` | for every template without an inner quasiquote, expansion succeeds and evaluates, in every state and whatever the holes do, to the template with its holes filled from left to right |
| `Quasiquote.PlainMeans` | `packages/interpreter/src/quasiquote.ts:13-31` | a template without holes evaluates to itself, and evaluating it changes nothing |
| `Quasiquote.AppendIs` | `packages/interpreter/src/prelude.ts:125-133` | appending succeeds exactly on a proper list, and puts the other value behind its items |
| `Quasiquote.LastSplice` | `packages/interpreter/src/prelude.ts:125-133` | not copying the last splice makes no difference exactly when it is a proper list |
| `TemporalChecks.HitStays` | `packages/checks/src/checks.ts:218-242` | when events are added, in the step just judged too, a hit is lost exactly if it is a form that wrote the call and a call of it then ran in the form's own step; none is gained |
| `TemporalChecks.JudgeIs` | `packages/checks/src/checks.ts:422-531` | the verdict found by lists of positions is what each combinator means of the trace: whether its event occurs, in which order the first of each occur, by which step, in every step, how many times; and which verdicts are final |
| `TemporalChecks.PassIs` | `packages/checks/src/checks.ts:188-216` | a pass holds, for each name, the verdict of the last check of that name, and no other names |
| `TemporalChecks.OrderIs` | `packages/checks/src/checks.ts:188-216` | the names of a source are listed once each, in the order in which they first come |
| `TemporalChecks.AtStays` | `packages/checks/src/checks.ts:218-242` | whether a position is matched does not change where nothing it looks for is so taken over |
| `TemporalChecks.PositionsStay` | `packages/checks/src/checks.ts:410-421` | position lists are then prefix-stable, and what comes lies beyond the old trace |
| `TemporalChecks.PositionsExactly` | `packages/checks/src/checks.ts:218-242` | every position list is prefix-stable if and only if no form is taken over |
| `TemporalChecks.VerdictStays` | `packages/checks/src/checks.ts:422-531` | a true or false verdict of any combinator but `always` survives whatever is added, in the step just judged or later, as long as no call takes over a form the check looks for |
| `TemporalChecks.CallTurns` | `packages/checks/src/checks.ts:218-242` | a tool call added in the step just judged leaves every definite verdict of every such combinator alone if and only if it takes over no form |
| `TemporalChecks.AlwaysTurns` | `packages/checks/src/checks.ts:422-531` | an `always` that is false turns if and only if what is added, in the step just judged, makes good the only step that failed it |
| `TemporalChecks.HeldTurn` | `packages/evals/src/runner.ts:380-389` | on a held turn it does: an `always` judged false at the result of a step is no longer so once the halt is added to that step |
| `TemporalChecks.LatchingIsHindsight` | `packages/checks/src/checks.ts:188-211` | after passes between which nothing is added that turns a verdict, as nothing in later steps does, every check reports what one pass over the final trace reports, in the same order |
| `TemporalChecks.SteppingIsHindsight` | `packages/checks/src/checks.ts:188-211` | so it is whatever the checks, `always` included, wherever each pass is of a later step than the one before |
| `TemporalChecks.LaterKeeps` | `packages/checks/src/checks.ts:188-211` | events of later steps turn no verdict of any combinator, `always` included |
| `TemporalChecks.HindsightExactly` | `packages/checks/src/checks.ts:188-211` | of any passes over traces that grew in any way: a check reports in the end what the last pass alone would if and only if its first definite verdict is the last pass's answer |
| `TemporalChecks.HeldTurnLatched` | `packages/evals/src/runner.ts:380-389` | on a held turn it is not: the check latched false at the result stays so after the halt, which alone would have it hold |
| `TemporalChecks.EvaluateLatches` | `packages/checks/src/checks.ts:188-199` | a pass latches as a function of the verdicts it finds |
| `TemporalChecks.LatchedFirst` | `packages/checks/src/checks.ts:188-199` | a check is latched exactly when some pass was definite about it, with the verdict and step of the first such pass |
| `TemporalChecks.SameStepFlips` | `packages/checks/src/checks.ts:218-242` | a call that takes over a form already judged can turn a verdict right round |
| `ChecksObject.Checks.Record` | `packages/checks/src/checks.ts:213-216` | a name is listed once, and the last verdict of a pass stands |
| `ChecksObject.Checks.Run` | `packages/checks/src/checks.ts:188-190` | running the source records every check's verdict |
| `ChecksObject.Checks.LatchPass` | `packages/checks/src/checks.ts:191-198` | the loop latches what is definite and not latched, and leaves the rest pending |
| `ChecksObject.Checks.EvaluateStep` | `packages/checks/src/checks.ts:188-199` | one pass |
| `ChecksObject.Checks.Hits` | `packages/checks/src/checks.ts:218-242` | the calls that ran, and those written in steps in which none ran, in order |
| `ChecksObject.Checks.Results` | `packages/checks/src/checks.ts:201-211` | the outcomes in the order of first recording, latched ones with their step |
| `TurnTranscript.ChangeKeeps` | `packages/ai/src/stream.ts:385-397` | a message changed in place after it was sent is down for revision with its newest keywords |
| `TurnTranscript.HaltKeeps` | `packages/ai/src/stream.ts:313-321` | writing the steps into the metadata that wire, batches and revisions share keeps all of them in agreement |
| `TurnTranscript.StepKeeps` | `packages/ai/src/stream.ts:226-397` | every event of a turn keeps: what was sent is the wire's message, or is down for a revision that makes it so |
| `TurnTranscript.StoredIsWire` | `packages/ai/src/thread.ts:380-398` | after any turn, the batches stored, revised and completed are the final wire, each message once and in order, for a host that hands out messages without an id as such; there a message keeps the keywords it had, and differs from the wire, if and only if it has no id, is the last human message of the history, and a text that changes it rides before the turn adds another human message |
| `TurnTranscript.RevisionLost` | `packages/ai/src/thread.ts:380-398` | one that is lost: the only message of the history has no id, and a text rides on it |
| `TurnTranscript.RefusedRevision` | `packages/backend/convex/messages.ts:192-204` | in the repository's own store, which gives such a message its key as a handle (packages/backend/src/thread-host.ts:98-105) but finds rows by id alone, the revision is refused and `record` ends there, if and only if a text rode on a message without an id: the rows revised before it are the wire's, the others are as they were stored, and what was never flushed is missing |
| `TurnTranscript.FoundById` | `packages/backend/convex/messages.ts:192-204` | a revision's id finds its own row and no other |
| `TurnHistory.EntryGoes` | `packages/ai/src/stream.ts:226-253` | an entry takes the place and the id of the last unflushed one about the same, and goes to the end if there is none; its keywords are its kind, its value and what it is about; every other message stays |
| `TurnHistory.TextsRide` | `packages/ai/src/stream.ts:385-408` | over every run, a human message ends with exactly the texts that rode before the next human message was added, as paragraphs behind what rode on it before, and nothing else of it is changed; one that is not the last gets none |
| `TurnHistory.StepsCount` | `packages/ai/src/stream.ts:313-321` | over every run, an answer ends with the steps of the last halt while it was the last answer, in that one field of its metadata, and nothing else of it is changed |
| `TurnHistory.OthersStay` | `packages/ai/src/stream.ts:226-397` | over every run, a message that is neither human nor an answer nor an unflushed entry is never changed |
| `TurnWireObject.TurnWire.FlushMessages` | `packages/ai/src/stream.ts:255-263` | everything not yet flushed is queued for storing |
| `TurnWireObject.TurnWire.InsertMessage` | `packages/ai/src/stream.ts:265-271` | a message is pushed and flushed at once, or refused once the turn is sealed |
| `TurnWireObject.TurnWire.SealWire` | `packages/ai/src/stream.ts:273-279` | no more inserts, and a last flush |
| `TurnWireObject.TurnWire.StoreSome` | `packages/ai/src/stream.ts:255-263` | queued messages are stored as they are when their turn comes |
| `TurnWireObject.TurnWire.AddMessage` | `packages/ai/src/stream.ts:288-304` | steered and evaluated messages go on the wire |
| `TurnWireObject.TurnWire.ResultMessage` | `packages/ai/src/stream.ts:376-383` | a result goes on the wire and flushes it |
| `TurnWireObject.TurnWire.AssistantMessage` | `packages/ai/src/stream.ts:360-374` | an answer with metadata of its own, which is the last from then on |
| `TurnWireObject.TurnWire.HaltTurn` | `packages/ai/src/stream.ts:313-321` | the steps reach every message that shares the metadata, and a flushed one is down for revision |
| `TurnWireObject.TurnWire.RodeText` | `packages/ai/src/stream.ts:385-408` | the last human message is replaced by one that carries the text too |
| `TurnWireObject.TurnWire.Record` | `packages/ai/src/stream.ts:226-253` | an entry takes the place and id of the last unflushed one of its subject, or goes at the end |
| `TurnWireObject.TurnWire.LastHumanAt` | `packages/ai/src/stream.ts:42-46` | the last human message |
| `TurnWireObject.TurnWire.UnflushedAt` | `packages/ai/src/stream.ts:242-253` | the last unflushed entry of the same kind and subject |
| `TurnWireObject.TurnWire.RecordTurn` | `packages/ai/src/thread.ts:380-398` | the revisions are made in their order, each finding its row by id, and what was never flushed is appended; a store that refuses one ends it there |
| `LispText.UnquotedQuoted` | `packages/interpreter/src/print.ts:31-36` | unquoting a quoted string gives it back, every character of it |
| `PrintRead.EscapedCloses` | `packages/shared/src/lisp-tokens.ts:1-3` | the pattern's string token ends exactly at the closing quote of a quoted string without line separators, by the choices the pattern tries first |
| `PrintedForm.ListPrinted` | `packages/interpreter/src/print.ts:38-112` | a list is printed in parentheses, item by item with one space between, and a dot before what it ends in if that is not nil; one of two items headed by `quote`, `quasiquote`, `unquote` or `unquote-splicing` as its mark and the second item |
| `PrintedForm.StringPrinted` | `packages/interpreter/src/print.ts:20-36` | a string is printed character by character between quotes, eight of them as a backslash and their letter |
| `PrintRead.LexText` | `packages/shared/src/lisp-tokens.ts:1-3` | the printed text of a datum, before a space, a parenthesis or the end, splits into exactly its tokens |
| `PrintRead.TokensParse` | `packages/interpreter/src/reader.ts:93-139` | parsing the printed tokens gives the datum and takes those tokens and no more |
| `PrintRead.ReadsBack` | `packages/interpreter/src/reader.ts:81-139` | reading the printed text of a datum of atoms, strings, lists, dotted lists and quote marks gives the datum |
| `PrintRead.PrintsApart` | `packages/interpreter/src/print.ts:38-76` | different data never print the same |
| `PrintRead.CommaBeforeAt` | `packages/interpreter/src/print.ts:38-43` | an unquoted symbol that starts with `@` prints like a splice: a datum that does not read back |
| `PrintRead.SeparatorBreaks` | `packages/shared/src/lisp-tokens.ts:1-3` | a string with a line separator prints to text that cannot be read |
| `ReadBack.LexClean` | `packages/shared/src/lisp-tokens.ts:1-3` | a string token of any text holds no line separator |
| `ReadBack.ReadMade` | `packages/interpreter/src/reader.ts:93-139` | whatever is read from any tokens has no line separator in its strings, and as many `unquote-splicing`s as the tokens taken make |
| `ReadBack.TextWeighs` | `packages/interpreter/src/print.ts:38-112` | the tokens of a printed text make at least the splices of the datum, and more if a comma stands before an `@` |
| `ReadBack.ReadsBackExactly` | `packages/interpreter/src/reader.ts:81-139` | for atoms that tokenise to themselves and any strings and lists of them, the printed text reads back as the datum if and only if no comma comes to stand before an `@` and no string holds a line separator |
| `ReaderObject.PushedReads` | `packages/interpreter/src/reader.ts:60-71` | the same through the reader's lines: the printed text pushed on a reader reads as the datum |
| `ReaderObject.Reader.Push` | `packages/interpreter/src/reader.ts:60-71` | the text's lines become tokens, each line ended by a newline token |
| `ReaderObject.Reader.PushLine` | `packages/interpreter/src/reader.ts:60-71` | the loop over matches splits a line as the pattern does |
| `ReaderObject.Reader.ReadToken` | `packages/interpreter/src/reader.ts:141-157` | newlines are skipped and counted, and the next token is turned into what it stands for, or the complaint |
| `ReaderObject.Reader.ParseToken` | `packages/interpreter/src/reader.ts:93-119` | one datum is parsed by shifting tokens |
| `ReaderObject.Reader.ParseBody` | `packages/interpreter/src/reader.ts:121-139` | the rest of a list |
| `ReaderObject.Reader.ParseAfterDot` | `packages/interpreter/src/reader.ts:126-135` | one datum and the closing parenthesis after a dot |
| `ReaderObject.Reader.ReadOne` | `packages/interpreter/src/reader.ts:81-91` | one datum is read |
| `Printer.Printing.Str` | `packages/interpreter/src/print.ts:45-76` | printing a value of an acyclic heap, cells shared at will, gives the whole text of the datum it unfolds to |
| `Printer.Printing.StrCell` | `packages/interpreter/src/print.ts:38-43` | quote marks are used exactly where the datum has them |
| `Printer.Printing.StrListBody` | `packages/interpreter/src/print.ts:85-112` | the cycle guard never fires, and the list of cells being printed is left as it was |
| `Printer.Printing.Unmark` | `packages/interpreter/src/print.ts:107-110` | the second loop takes exactly this list's cells off |
| `ExactJson.RoundTrip` | `packages/interpreter/src/objects.ts:179-240` | every JSON value with unique keys comes back unchanged |
| `ExactJson.TaggedExactlyWhenMisread` | `packages/interpreter/src/objects.ts:175-188` | an array is tagged if and only if its plain list would be read as something else |
| `ExactJson.WrittenUnique` | `packages/interpreter/src/objects.ts:200-240` | whatever is written has no key twice in one object |
| `ExactJson.ListWritten` | `packages/interpreter/src/objects.ts:210-240` | a list that is written is proper: tagged it is the array of its other items, a plist the object of its keywords' names and what follows each, an alist that of its pairs, any other the array of its items, each item by its own conversion and in order |
| `ExactJson.WriteReadWrite` | `packages/interpreter/src/objects.ts:179-240` | any Lisp value that JSON can hold settles after one trip, however it spelled its lists |
| `LispJson.ProperItems` | `packages/interpreter/src/objects.ts:154-160` | the items of a list, or the complaint that it is dotted |
| `LispJson.ObjectFrom` | `packages/interpreter/src/objects.ts:200-208` | an object, or the first key that comes twice |
| `LispJson.LispToJson` | `packages/interpreter/src/objects.ts:210-240` | the loops over items, plist pairs and alist pairs give the recursive conversion, the first error included |
| `BudgetTree.ChildWithin` | `packages/ai/src/budget.ts:67-82` | a thread never has more left than its parent in any component, nor than its own account |
| `BudgetTree.ChargeConserves` | `packages/ai/src/budget.ts:84-89` | a charge adds to exactly the accounts on the thread's chain, once each |
| `BudgetTree.SolventKept` | `packages/ai/src/budget.ts:57-89` | a charge that fits what is left overspends no account above it, and an opening that asks for nothing negative neither |
| `BudgetTree.Budgets` | `packages/ai/src/budget.ts:57-103` | on any tree opened parent-first: each account has spent the sum of charges to it and all its descendants, no thread has more left than its parent, and if every charge fitted nothing is overspent |
| `BudgetTree.WithinGreatest` | `packages/ai/src/budget.ts:19-38` | what two limits allow together is the greatest that each of them allows |
| `BudgetTree.RemainingIsLeast` | `packages/ai/src/budget.ts:67-82` | each component of what a thread has left is the least that any account on its chain has left of it: none has less and one has just that; it is unlimited exactly when all of them are |
| `BudgetObject.Budget.RemainingOf` | `packages/ai/src/budget.ts:67-82` | the loop up the chain gives the tightest of what its accounts have left |
| `BudgetObject.Budget.Slice` | `packages/ai/src/budget.ts:63-65` | a grant is no more than asked for and no more than the parent has left, and the greatest such |
| `BudgetObject.Budget.OpenAccount` | `packages/ai/src/budget.ts:57-61` | a new account with the grant |
| `BudgetObject.Budget.ChargeUp` | `packages/ai/src/budget.ts:84-103` | the loop charges every account on the chain |
| `MergeSort.SortPermutes` | `packages/interpreter/src/prelude.ts:634-643` | the result is a permutation, whatever the test |
| `MergeSort.SortOrders` | `packages/interpreter/src/prelude.ts:625-643` | it is ordered, for every strict weak order |
| `MergeSort.SortIsStable` | `packages/interpreter/src/prelude.ts:625-643` | elements that are on a level keep their order |
| `ListCells.Cells.ReverseOnto` | `packages/interpreter/src/prelude.ts:314-319` | every cell is turned round in place; only their references change |
| `ListCells.Cells.Reverse` | `packages/interpreter/src/prelude.ts:320-322` | the list reversed in place |
| `ListCells.Cells.Last` | `packages/interpreter/src/prelude.ts:324-328` | the last cell |
| `ListCells.Cells.Concat` | `packages/interpreter/src/prelude.ts:330-337` | the last cell of the first list comes to point at the second; nothing else changes |
| `ListCells.Cells.MergeLists` | `packages/interpreter/src/prelude.ts:625-633` | the loop, the reversal and the join give the merge, in cells none of which were there before or stay as they were |
| `ListCells.Cells.SortFirst` | `packages/interpreter/src/prelude.ts:634-640` | the first `n` elements sorted into new cells; every cell there was is unchanged |
| `ListCells.Cells.Sort` | `packages/interpreter/src/prelude.ts:641-643` | a new list of the sorted elements; every cell of the input, and every other there was, is unchanged |
| `PagedText.SpansInOrder` | `packages/compaction/src/compaction.ts:56-62` | words come in order, apart, and without blanks |
| `PagedText.SliceWords` | `packages/compaction/src/compaction.ts:77-124` | the loop stops at the length, or before the first word other than its first that would pass the budget |
| `PagedText.WindowShows` | `packages/compaction/src/compaction.ts:77-124` | a window shows at least one word and no more than asked for, with their exact text; it is cut if and only if its first word alone passes the budget |
| `PagedText.PagingIsExact` | `packages/compaction/src/compaction.ts:135-151` | following the offsets from the start, with whatever length each page has, ends with every word shown exactly once, if and only if no word is longer than the budget of characters |
| `PagedText.WindowWords` | `packages/compaction/src/compaction.ts:77-124` | a window's text holds exactly the words it says it shows |
| `CompactorObject.Compactor.BeginStep` | `packages/compaction/src/compaction.ts:243-245` | a step starts with nothing spent |
| `CompactorObject.Compactor.Window` | `packages/compaction/src/compaction.ts:311-351` | the user is shown what was asked, the model what the step has left; value words shown in a step never total more than the limit |
| `CompactorObject.Compactor.EchoPart` | `packages/compaction/src/compaction.ts:335-350` | what is shown is charged in full, and what is withheld altogether is counted |
| `CompactorObject.MarkersLead` | `packages/compaction/src/compaction.ts:126-151` | the marker under each page names the offset at which the next page starts, by name or without; the last names the start, unless it is cut or the only page |
| `CompactorObject.CutMarkerLeads` | `packages/compaction/src/compaction.ts:126-151` | the marker under a cut word names the number of characters shown, to slice the whole value from: that is where the showing stopped if and only if the value starts with that word |

## Left out

- CompilerCorrectness.Correct: macros and their calls, and `try` and quasiquote forms inside the code are left out of the reference; so are parameters named as special forms, one called `&key` after `&rest`, and a `catch` whose second element would be changed by expansion. The compiler's passes are modelled on all of these but macros.
- LexicalCompiler.CompileTopLevel: the tables of macros are empty, so `expandMacros` (packages/interpreter/src/compile.ts:48-78) is what it is for code without macros.
- CompilerCorrectness.TopLevel: builtins are arbitrary functions of their arguments that may not look inside a closure and change no cell; sealed globals' copying, generator and promise builtins, hooks and stack traces are not modelled.
- Interpreter.Interp.EvalGen: has a bound on nested evaluations, which `StepLimit` shows to decide only whether there is a result; the bound itself is not in the source. `try`, `macro` and calls of macros end in an outcome of their own that says they are not modelled.
- Interpreter.Interp: frames are kept by number in the interpreter, and cells are values, so a builtin that rewrites program cells is not modelled.
- ImageWriter.Snapshot: objects are kept by number in a heap; hash tables, foreign kinds and resumable promises are not modelled, builtins are names, docs and owners are copied as they are, and the text form of large integers is not part of this model.
- ImageRestore.ImageReader.Read: takes images whose references are in range, which `ImageRestore.ImageReadable` shows every written image to be; builtins get identities of their own, where the source reuses the host's builtin of the same name.
- ThreadObjects.Thread.CancelTakes: the abort of the running turn, and the answer of `cancel`, are not modelled.
- ThreadProtocol.NoLostWakeup: failures of the transcript, status and budget ports appear only as a turn that ends or a drive that fails; what a turn does between its mailbox calls is not modelled.
- ThreadHistory.ExactlyOnce: the conserved places include `lost`, for envelopes that a failing drive had taken, because the source releases those never.
- JobMachine.HandedOutOnce: a later `wait` reads the outcome again as often as it is called, and a second waiter replaces the first, so "handed out" is the call of the waiter or the reply event; port failures are not modelled, and each thread has one root for the whole run.
- JobMachine.AskingNamesHeld: a second job held on the same thread replaces the first in `asking`, which then only a cancel ends; the source has it so.
- CheckpointLayers.StepKeeps: the size limits of a record, authorisation, views and titles are not modelled; dropping a chat's children is one step for each.
- CheckpointStore.Store.PurgeLayersPage: what a paginated query answers is an input held to the index's order.
- Quasiquote.TemplateMeans: nested quasiquotes are left out, and `list`, `cons` and `append` mean what they mean in the prelude; a splice written as a call of `list` must be a proper list, since the expander takes it apart.
- TemporalChecks.LatchingIsHindsight: takes a fixed list of checks for the Lisp source, and any matching of arguments and forms; the counts of combinators are whole numbers.
- TurnTranscript.StoredIsWire: ids of new messages are new, ids in the history differ, and every batch is stored as it was sent: that the store cuts long contents and keywords (packages/backend/convex/messages.ts:157, packages/backend/convex/messages.ts:206) is not modelled; metadata objects are kept by identity in the object. Snapshots, outcomes and the entries held for a question are not modelled.
- ReadBack.ReadsBackExactly: symbols, keywords and numbers whose text is not one word that stands for them are left out, and how numbers are shown and recognised is a parameter; vectors, hash tables and functions have no readable text.
- Printer.Printing.StrListBody: data with cycles is left out.
- ExactJson.RoundTrip: numbers are finite reals; the order of an object's members is kept as given.
- BudgetTree.Budgets: accounts opened before their parents, or twice, are left out; amounts are whole numbers.
- ListCells.Cells.Sort: the test is a pure function; evaluating it, and the interpreter's cells that hold other things than the list's elements, are not part of it. Cells are kept by number in one heap.
- CompactorObject.Compactor.Window: searches, names minted for results and error texts are not modelled.
- Macro expansion, the module system of the interpreter, the model's own calls, the user interfaces, authentication, telemetry and desktop packaging: input and output around what is modelled, or a semantics of their own.
