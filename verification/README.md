# A verified model of the step runner

The step runner executes *steps*: small programs described in YAML, run directly or as sequences of
other steps, with typed inputs and outputs, environment variables that flow from step to step, and
`${{ … }}` expressions. This project models its four cores in Dafny and proves what they promise.

| part | files |
|---|---|
| Expressions: the one-pass interpolation loop, its grammar, and its laws | `Prelude.dfy`, `Expressions.dfy`, `Templates.dfy`, `Interpolation.dfy`, `InterpolationLaws.dfy` |
| Environments: the heap graph of scopes and mutations, as a value and as objects | `EnvironmentGraph.dfy`, `Environment.dfy` |
| Running: step files, the big-step semantics, its laws, what a run means from end to end, and the imperative runner that refines it | `Proto.dfy`, `StepFile.dfy`, `StepSemantics.dfy`, `RunLaws.dfy`, `StepMeaning.dfy`, `Contexts.dfy`, `Loading.dfy`, `Runner.dfy` |
| References: short references, long references, what an OCI reference means, and what its arguments do not | `References.dfy`, `LongReferences.dfy`, `OciArguments.dfy` |
| Protocols: log followers, what they deliver, resuming, the job life cycle, a job with its log, the job table | `LogLines.dfy`, `LogStreamer.dfy`, `LogDelivery.dfy`, `ClientLogs.dfy`, `Job.dfy`, `JobLog.dfy`, `Service.dfy` |

`StepSemantics` says what loading and running a step tree yields, as a function of the world's answers
(fetched definitions, commands, temporary files). `Contexts`, `Loading` and `Runner` are the mutable
objects and loops of `pkg/runner`; every `Run` method there is proved to compute what the semantics
says and to leave the shared environment in the state it says, so the laws of `RunLaws`, `StepMeaning`
and `OciMeaning` are laws of those methods. `StepMeaning` speaks of finished runs by their call, their
definition, their result and the world's answers alone. Loops over Go maps pick their entries in any order.

`World` holds the uninterpreted parts: JSON rendering, number formatting, `filepath.Join`, and the
oracles for files, fetchers, commands and logging. Errors carry no message, so "value or error" is an
`Option`. The log machine and the job are small-step transition systems over their critical sections;
their theorems speak about every interleaving.

## What the proofs found

- Step files are read with a scanner that stops at a line over 65536 bytes, and nobody asks it why: the
  line and all after it are dropped without an error. `OutputContract` and `ExportContract` say
  exactly when that changes nothing; in `LongValueIsLost` a written value becomes its default.
- The arguments of an OCI step are expanded beside the fetch step. `OciArgumentsSeeOnlyTheFetch` says
  exactly which paths have a value there. An OCI step that asks for an input or an earlier result of
  its caller fails (`OciAskingOutsideFails`); `CallersInputIsOutOfReach` is such a run, in which the
  argument has a value where it stands. The environment is expanded twice more, from its source text.
- The count `FollowLogs` returns after a failed write is not always a safe place to resume. If the
  sink takes a line and refuses its newline, the count points at that newline, and following again
  drops it. `ResumeAfterFailedWrite` gives the exact condition, `RefusedNewlineIsLost` an input.
- A failed read of the log file makes a follower end the line it is in. `FollowersShowTheLog` says
  exactly when what it shows is then no prefix of the log; `BrokenFollowerBreaksALine` is a run.
- A short reference is recognised by its trimmed text and compiled untrimmed: a space in front of a local
  one becomes part of its path (`SpaceStaysInPath`).
- `dist://` references can compile to empty path segments; `EmptySegmentsIff` says exactly when.
- A job whose `Close` gives up before its goroutine began goes from cancelled back to running
  (`StatusGoesBackIff`, `CancelledJobRuns`).
- `Run` reads the job's error without the mutex and then formats the step's. It panics exactly when the
  step came back without an error and `Close`'s timer section ran between the verdict and that look
  (`PanicIff`, `SuccessfulJobPanics`).
- `onRunCompletion` would panic on a nil result. The top-level step has none only if it is a command
  whose first log line cannot be written (`StepsKeepTheContract`).
- Cancelling a follower does not wake it; it sleeps until the next write or stop (`CancelWakesNobody`).

## Model

| member | source | states |
|---|---|---|
| Expressions.Evaluate | pkg/internal/expression/expression.go:12-33 | The key-by-key loop computes the left-to-right walk of the dotted path, or an error. |
| Expressions.EvaluationFindsTheAddressed | pkg/internal/expression/value_type.go:22-121 | The reflective walk finds exactly what its keys address: four scalars, env and job entries, inputs and step outputs down to any depth of structs; every other path is an error. |
| Expressions.EvaluationOfText | pkg/internal/expression/expression.go:12-33 | The value of a text: white space, keys joined by dots, white space; it is what the keys address. |
| Expressions.EveryTextIsAPath | pkg/internal/expression/expression.go:23-33 | Every text is such a path, whose joined keys neither start nor end with a space. |
| Expressions.NamesMean | pkg/internal/expression/value_type.go:33-121 | What each name stands for, whatever white space surrounds it: the four scalars, `env.k`, `job.k`, `inputs.k` and `steps.s.outputs.k`. |
| Expressions.SpacedName | pkg/internal/expression/expression.go:23-33 | An input's name between spaces, or on a line of its own, is that input. |
| Templates.SpellLex | pkg/internal/expression/interpolation.go:12-25 | Delimiters and the text between them tile the input. |
| Templates.TemplateIsTheGrammar | pkg/internal/expression/interpolation.go:17-93 | A forest is the parse of a string if and only if it derives the string's tokens; so parses are unique. |
| Templates.TemplateTiles | pkg/internal/expression/interpolation.go:27-76 | Literals, holes and delimiters of a parsed string put end to end are the string. |
| Templates.TemplateIffBalanced | pkg/internal/expression/interpolation.go:27-76 | A string parses exactly when its delimiters balance and no prefix closes more than it opened. |
| Interpolation.NextMatch | pkg/internal/expression/interpolation.go:21-25 | The leftmost match list cuts the string into the same tokens as the grammar's lexer. |
| Interpolation.InterpolateString | pkg/internal/expression/interpolation.go:17-93 | The loop with depth counter and two moving indices computes the meaning the grammar gives, all slices in bounds. |
| Interpolation.Join | pkg/internal/expression/interpolation.go:78-92 | A lone piece keeps its type, otherwise all pieces are rendered and joined in order, or one cannot be. |
| Interpolation.Expand | pkg/internal/expression/interpolation.go:122-136 | Strings anywhere in a value tree are interpolated, everything else is kept, one failure fails all. |
| Interpolation.ExpandStruct | pkg/internal/expression/interpolation.go:95-106 | Field by field, in any order of the fields. |
| Interpolation.ExpandList | pkg/internal/expression/interpolation.go:108-119 | Item by item, in order. |
| Interpolation.ExpandString | pkg/internal/expression/interpolation.go:139-146 | Interpolates and renders. |
| InterpolationLaws.InterpolationSucceedsIff | pkg/internal/expression/interpolation.go:17-93 | Success if and only if the delimiters balance, every top-level hole has a value, and, unless there is exactly one piece, every piece renders. |
| InterpolationLaws.LoneHoleKeepsType | pkg/internal/expression/interpolation.go:78-81 | A string that is one hole, empty or with anything nested in it, expands to the value of the text between its delimiters, type included. |
| StepMeaning.HoleEvaluates | pkg/internal/expression/interpolation.go:139-146 | As text, a hole around a plain word is a string's own text and any other value's JSON. |
| InterpolationLaws.ExpandStringOfConcat | pkg/internal/expression/interpolation.go:139-146 | If both halves expand, the whole does if and only if no delimiter match lies across the join, and then to the concatenation. |
| InterpolationLaws.CleanCutIsNoStraddle | pkg/internal/expression/interpolation.go:21-25 | The condition of the concatenation law, in terms of the matches the loop sees. |
| InterpolationLaws.PlainStringsExpandToThemselves | pkg/internal/expression/interpolation.go:17-93 | Without a delimiter, expansion is the identity. |
| InterpolationLaws.PlainValuesExpandToThemselves | pkg/internal/expression/interpolation.go:95-136 | Likewise for value trees. |
| EnvironmentGraph.FlatIsSearch | pkg/runner/environment.go:104-121 | The copy loops yield, for every key, the newest mutation that binds it, else the own variable, else the parent's value. |
| EnvironmentGraph.DomainIsReachable | pkg/runner/environment.go:104-121 | The flattened keys are exactly the variables of everything reachable. |
| EnvironmentGraph.MutationVisibility | pkg/runner/environment.go:104-136 | After a mutation of e, a node reaching e through parents has the mutation's value for a key exactly when no scope strictly below e on the way binds it; the first such scope decides otherwise. |
| EnvironmentGraph.UnreachedUnchanged | pkg/runner/environment.go:127-136 | A node that does not reach the mutated one sees no difference. |
| EnvironmentGraph.UnboundUnchanged | pkg/runner/environment.go:127-136 | A key the mutation does not bind keeps its value everywhere. |
| EnvironmentGraph.MutationKeepsAcyclicIff | pkg/runner/environment.go:127-136 | A mutation keeps the graph free of cycles exactly when the mutating environment does not reach the mutated one. |
| Environments.Environment.AddLexicalScope | pkg/runner/environment.go:92-98 | A new scope over this one, or this one itself if there is nothing to add. |
| Environments.Environment.Values | pkg/runner/environment.go:104-121 | The recursive copying on the heap returns the flattening, which is the search, key by key. |
| Environments.Environment.Len | pkg/runner/environment.go:100-102 | The number of flattened keys. |
| Environments.Environment.Mutate | pkg/runner/environment.go:127-136 | Appends the mutation unless it is nil or empty; nothing else changes and no cycle arises. |
| OutputSpec.CompileToProto | schema/v1/outputs.go:40-72 | Succeeds exactly on one of the five type keywords, and keeps type and default. |
| OutputSpec.VerifyDefaultValueMatchesType | schema/v1/outputs.go:74-110 | Accepts exactly a missing default, a missing type keyword, or a default of the type the keyword names. |
| OutputSpec.CompileOutput | schema/v1/outputs.go:28-38 | Succeeds if and only if the declaration names a type its default has. |
| OutputSpec.CompileOutputs | schema/v1/spec.go:29-48 | A spec's outputs compile if and only if all declarations do; names are kept and every default is well typed. |
| OutputSpec.CheckOutputTypeIsTyping | pkg/runner/step_file.go:207-235 | Comparing type names decides whether the value has the type. |
| OutputSpec.KeywordsMean | schema/v1/outputs.go:40-110 | Which defaults go with each of the five keywords; without a keyword, none is well declared. |
| StepFiles.WrittenIsLast | pkg/runner/step_file.go:79-125 | The value read under a key is the last one written. |
| StepFiles.LastWrittenIs | pkg/runner/step_file.go:79-125 | A value is the last written exactly if some line gives it to the key and no later line writes the key. |
| StepFiles.UnreadableIff | pkg/runner/step_file.go:95-121 | A file is refused if and only if a line that is not blank does not decode, has no name, an empty name or no value. |
| StepFiles.ReadKeyValueLines | pkg/runner/step_file.go:79-125 | Reads the lines in front of the first one too long for the scanner: an error if one is bad, otherwise the last-wins map; blank lines are skipped. |
| StepFiles.ReadValues | pkg/runner/step_file.go:176-205 | Both map loops, in any order, compute the checked and defaulted outputs. |
| StepFiles.OutputContract | pkg/runner/step_file.go:79-216 | For compiled outputs, reading succeeds if and only if every scanned line is good, every key written there is declared with its type and every other output has a default; the result has exactly the declared keys, each value of its declared type. It is the result of the whole file if and only if what a too long line cut off would have changed nothing. |
| StepFiles.ExportContract | pkg/runner/step_file.go:151-174 | Exports are those of the whole file if and only if what was cut off repeats, as text, the last exports before it, or the file is refused either way. |
| StepFiles.LongValueIsLost | pkg/runner/step_file.go:86-124 | A file whose one written value is replaced by the default. |
| StepFiles.ReadEnvironment | pkg/runner/step_file.go:151-174 | Exported values become text if all are booleans, numbers or strings, otherwise an error. |
| RunLaws.MoreFuelLazy | pkg/runner/lazily_loaded_step.go:36-60 | The outcome of a run does not depend on the nesting bound once it suffices. |
| RunLaws.LazySpine | pkg/runner/lazily_loaded_step.go:36-60 | No error exactly with a result of status success; successes have only successes below, failures at most one failing child, the last. |
| RunLaws.ExecSpine | pkg/runner/executable_step.go:34-60 | The same for commands. |
| RunLaws.ParsedSpine | pkg/runner/sequence_of_steps.go:38-59 | The same for whatever a definition parses to. |
| RunLaws.StepsSpine | pkg/runner/sequence_of_steps.go:45-52 | The results of a sequence: all but the last succeed, and all of them if there is no error. |
| RunLaws.FirstErrorEndsTheSequence | pkg/runner/sequence_of_steps.go:45-52 | Whatever steps follow the first error, results, environment and records are the same. |
| RunLaws.SuccessContinues | pkg/runner/sequence_of_steps.go:45-52 | A sequence that comes through continues exactly from the state it left. |
| RunLaws.FailureIsVisible | pkg/runner/sequence_of_steps.go:45-52 | A failed sequence lacks a result or has one that is no success. |
| RunLaws.TopLevelResult | pkg/runner/executable_step.go:34-37 | A sequence always reports a result; a command lacks one exactly if its first line cannot be logged. |
| RunLaws.FailedIsFailure | pkg/runner/step_result_builder.go:92-111 | A failed run that reports a result reports failure. |
| RunLaws.StepsExports | pkg/runner/executable_step.go:53-58 | A run adds to the global environment exactly the exports its result tree records, in execution order. |
| RunLaws.LazyExports | pkg/runner/lazily_loaded_step.go:36-60 | The same through nested loading. |
| RunLaws.WholeRunScoping | pkg/runner/steps_context.go:68-83 | Through any run of steps a context's values change only on keys no scope below the global environment binds, to the latest export in execution order. |
| RunLaws.ScopingLaw | pkg/runner/environment.go:104-121 | How exports show through scopes, key by key. |
| RunLaws.SnapshotStaysFixed | pkg/runner/lazily_loaded_step.go:86-103 | A nested step's snapshot holds everything the caller sees with the step's variables on top, and those keys keep their values whatever is exported later. |
| RunLaws.StepsRecorded | pkg/runner/steps_context.go:105-111 | What is recorded under a name is the last result with that name, and keys stay the results' names. |
| RunLaws.DelegationIsLastWins | pkg/runner/sequence_of_steps.go:61-92 | A delegating sequence returns the outputs of the last sub-step with the name, and with all steps successful fails exactly if there is none. |
| RunLaws.LoadedInputs | pkg/runner/runner.go:21-33 | A loaded step's inputs have exactly the declared names, each the argument expanded in the caller's view or the default. |
| RunLaws.KthStep | pkg/runner/sequence_of_steps.go:45-52 | The k-th result of a sequence is that of the k-th step, run with the results and after the exports of those before it. |
| StepMeaning.CommandsSeeTheirArguments | pkg/runner/executable_step.go:34-109 | For every executed command: each reported word, and the directory, is the definition's expanded in one view, whose inputs are exactly the declared ones, each the argument expanded in the caller's view or the default; without step results; with the directory loaded from and the two temporary files in their roles; and with the caller's variables, the call's on top, the definition's on top of these. |
| StepMeaning.CommandsExecuteIff | pkg/runner/executable_step.go:34-93 | A command is executed if and only if its variables, all its words and its directory expand there. |
| StepMeaning.CommandsLeaveTheirOutcome | pkg/runner/executable_step.go:45-60 | By the world's answer to the reported words, directory and environment: a command comes through if and only if it exits well and leaves readable files; its outputs are those written, defaulted or delegated; its exports are the last values written, as text, and the newest of the global environment; a failed one exports nothing. |
| StepMeaning.SubStepsSeeTheSequence | pkg/runner/sequence_of_steps.go:38-59 | The arguments and variables of the k-th sub-step are the definition's, expanded in a view of the sequence's own inputs, of the outputs of the last earlier step with each name, and of the environment with the earlier exports; it is fetched from the sequence's directory. |
| StepMeaning.SequencesHandOn | pkg/runner/sequence_of_steps.go:38-92 | A sequence whose steps all came through succeeds if and only if its variables and every declared output expand, or its delegate is there; its outputs are exactly these expansions, after all steps, or the delegate's. |
| StepMeaning.OutputOfLastStep | pkg/runner/sequence_of_steps.go:69-82 | An output written as step `a`'s output `x` is the `x` of the last step named `a`, and an error if there is none. |
| StepMeaning.SuccessfulSequencesRanAll | pkg/runner/sequence_of_steps.go:45-59 | A sequence that succeeds ran all its steps, each with success. |
| StepMeaning.SequencesReport | pkg/runner/sequence_of_steps.go:38-59 | A sequence reports no command and no exports of its own, and no outputs if it failed. |
| StepMeaning.NamesInContext | pkg/runner/steps_context.go:85-102 | What step_dir, work_dir, the two files, env, job, inputs and step outputs are in a context. |
| StepMeaning.ReferencesAreLoaded | pkg/runner/step_resource_parser.go:24-58 | Where each kind of reference is loaded from: a local one from its expanded path, as it is if it begins with a slash and else under the definition's directory; the other kinds with their url, version, path and file; and which kinds are refused. |
| StepMeaning.StepsLoadIff | pkg/runner/lazily_loaded_step.go:62-112 | A step loads if and only if it is fetched, its arguments are declared and expand, its variables expand, no input is missing, and its definition is a command or a sequence of known references. |
| StepMeaning.ResultsAreReportedIff | pkg/runner/lazily_loaded_step.go:36-60 | A finished run has a result if and only if the step loaded, both temporary files were made and, for a command, its first line was logged; without one it failed and exported nothing. |
| StepMeaning.CommandsFinish | pkg/runner/executable_step.go:34-60 | A command always finishes: its run needs no nesting. |
| Contexts.GlobalContext.PushScope | pkg/runner/steps_context.go:150-152 | A scope over an environment; the global environment stays an ancestor of it and no older environment changes. |
| Contexts.GlobalContext.AddGlobalEnv | pkg/runner/global_context.go:46-48 | The exported variables go on top of the global environment, unless there are none. |
| Contexts.StepsContext.GetEnvs | pkg/runner/steps_context.go:56-58 | The context's scopes over base and exports. |
| Contexts.StepsContext.View | pkg/runner/steps_context.go:85-102 | The expression view, with the outputs of every recorded result. |
| Contexts.StepsContext.ExpandEnv | pkg/runner/steps_context.go:68-79 | In any order, fails if one value does, otherwise the pointwise expansion in the view from before. |
| Contexts.StepsContext.ExpandAndApplyEnv | pkg/runner/steps_context.go:68-83 | Pushes the expanded variables as one scope, or changes nothing on failure. |
| Contexts.StepsContext.EnvWithLexicalScope | pkg/runner/lazily_loaded_step.go:100-103 | The values of the environment with a scope on top. |
| Contexts.StepsContext.RecordResult | pkg/runner/steps_context.go:105-111 | Records a result under its name, failed or not. |
| Contexts.StepsContext.StepResults | pkg/runner/steps_context.go:113-115 | Exactly the recorded results, in no particular order. |
| Loading.FetchResource | pkg/runner/file_system_step_resource.go:28-65 | Reads the definition under the expanded path, absolute or joined to the working directory. |
| Loading.BuildInputVars | pkg/runner/lazily_loaded_step.go:114-128 | Fails exactly on an undeclared argument; otherwise one fresh variable for each. |
| Loading.ExpandInputs | pkg/runner/lazily_loaded_step.go:74-86 | Assigning in place, in any order, gives every variable its expansion in the caller's view. |
| Loading.ValidateInputs | pkg/runner/step_parser.go:62-70 | Every input is given or has a default. |
| Loading.ParseStepType | pkg/runner/step_parser.go:38-60 | A command, or a sequence with every sub-step's resource, or an error. |
| Loading.ParseStep | pkg/runner/step_parser.go:24-36 | Validation, then parsing by type. |
| Loading.NewInputsWithDefault | pkg/runner/runner.go:21-33 | Argument, else default, for every declared input. |
| Loading.LoadStep | pkg/runner/lazily_loaded_step.go:62-112 | Loading as the semantics says, with nothing visible changed. |
| Runner.StepResultBuilder.ObserveEnv | pkg/runner/step_result_builder.go:65-70 | Observes the values of the environment at that moment. |
| Runner.StepResultBuilder.ObserveStepResult | pkg/runner/step_result_builder.go:51-56 | Appends a result unless it is nil. |
| Runner.StepResultBuilder.ObserveExports | pkg/runner/step_result_builder.go:58-63 | Observes the values of the exported environment. |
| Runner.ExpandArguments | pkg/runner/executable_step.go:62-73 | Every argument expanded, in order, or an error. |
| Runner.DetermineWorkDir | pkg/runner/executable_step.go:95-109 | The global working directory unless one is given, which is expanded. |
| Runner.ReadExecOutputs | pkg/runner/executable_step.go:111-122 | A delegating command's own result, or the checked output file. |
| Runner.RunExecutable | pkg/runner/executable_step.go:34-60 | Result, error, context and global environment are those of the semantics on every exit path. |
| Runner.FindOutputsWithName | pkg/runner/sequence_of_steps.go:84-92 | Finds outputs of a result with the name, or fails exactly if there is none. |
| Runner.InterpolateStepOutputs | pkg/runner/sequence_of_steps.go:69-82 | The declared outputs expanded pointwise, in any order. |
| Runner.ReadSequenceOutputs | pkg/runner/sequence_of_steps.go:61-67 | For every order of the recorded results, delegation finds the one recorded under the name. |
| Runner.RunLazyStep | pkg/runner/lazily_loaded_step.go:36-60 | Load, snapshot, fresh context, run: as the semantics says; the caller's context is untouched. |
| Runner.RunSequence | pkg/runner/sequence_of_steps.go:38-59 | Result, error, context and global environment of a sequence are those of the semantics. |
| Runner.RunEach | pkg/runner/sequence_of_steps.go:45-52 | The loop runs, observes and records one step after the other and ends at the first error. |
| ShortReferences.PathFilename | schema/v1/short_reference.go:89-110 | Last segment as file name, leading slash as root, empty segments dropped. |
| ShortReferences.RemoteParts | schema/v1/short_reference.go:62-80 | Text without an at sign is refused; any other is the url, the first separator with the path if there is one, an at sign, and a revision without one; the path starts with steps and has no empty segment. |
| ShortReferences.RemoteRoundTrip | schema/v1/short_reference.go:22-87 | Printing url, segments, file and revision and compiling gives them back, with https in front of a url without a scheme. |
| ShortReferences.RemoteWithoutFile | schema/v1/short_reference.go:62-110 | Without a file name the last segment is a directory and the file is step.yml. |
| ShortReferences.RemoteWithoutPath | schema/v1/short_reference.go:62-80 | Without a path it is step.yml in steps. |
| ShortReferences.AbsoluteRoundTrip | schema/v1/short_reference.go:53-60 | The same for absolute local references. |
| ShortReferences.RelativeRoundTrip | schema/v1/short_reference.go:53-60 | The same for relative local references. |
| ShortReferences.DistRoundTrip | schema/v1/short_reference.go:43-51 | The same for dist references; every segment is kept. |
| ShortReferences.DynamicIff | schema/v1/short_reference.go:22-41 | A text compiles to a dynamic reference, as it is, if and only if it holds an expression on one line. |
| ShortReferences.SpaceStaysInPath | schema/v1/short_reference.go:22-41 | A reference whose leading space becomes part of its path. |
| ShortReferences.EmptySegmentsIff | schema/v1/short_reference.go:22-110 | A compiled reference has an empty path segment if and only if its text starts as a dist reference, holds no expression, and its path is empty, has a slash at an end or two in a row. |
| ShortReferences.DistPathWithEmptySegment | schema/v1/short_reference.go:43-51 | A dist reference with an empty segment. |
| LongReferences.CompileReference | schema/v1/reference.go:50-64 | Compiles exactly if one of git and oci is given, to an inline definition exactly for oci. |
| LongReferences.ShortAndLongAgree | schema/v1/reference.go:66-82 | A printed short reference and the git form that spells its directory out compile to the same reference. |
| LongReferences.ShortAndLongDefaults | schema/v1/reference.go:66-82 | The same without a file name; and what a git reference to a bare repository is. |
| LongReferences.StepsKeepTheirArguments | schema/v1/reference.go:66-144 | A git step keeps its inputs; an OCI step has none and hands them, and the environment, to the step it delegates to. |
| OciMeaning.CompiledReferencesResolve | pkg/runner/step_resource_parser.go:24-58 | No compiled short reference is refused when its step is parsed; url, version, joined directory and file name reach the resource. |
| OciMeaning.FetchStepArguments | schema/v1/reference.go:84-126 | The fetch step gets exactly registry, repository, tag (or latest) and path (or empty), unchanged if they hold no expression, and the step's environment as it expands. |
| OciMeaning.PathExpressionDenotesOutput | schema/v1/reference.go:131 | For every name the schema allows, the second step's path expression denotes the fetch step's recorded path, and is an error if there is none. |
| OciMeaning.SecondStepIsLoadedFromFetchedPath | pkg/runner/file_system_step_resource.go:54-65 | The second step is read from the fetched directory; an absolute path is used as it is. |
| OciMeaning.CompiledOciStep | schema/v1/reference.go:84-144 | What an OCI step compiles and parses to, in whatever directory. |
| OciMeaning.OciLoads | schema/v1/reference.go:102-141 | Loading it fails exactly if its environment does not expand. |
| OciMeaning.OciRunsFetchThenStep | schema/v1/reference.go:84-144 | Running it is: expand the environment, fetch in a fresh context, then the second step with the fetch recorded. |
| OciMeaning.OciMeaningPreserved | schema/v1/reference.go:84-144 | A successful OCI step has two differently named sub-results, returns exactly the second one's outputs, and ran the definition read from under the path the first reported, with arguments and environment as they expand beside the recorded fetch. |
| OciArguments.OciArgumentsSeeOnlyTheFetch | schema/v1/reference.go:127-136 | Where the second step's arguments are expanded, a path has a value if and only if it is one of the four scalars, a bound environment or job variable, or leads into the outputs of the fetch. |
| OciArguments.OciAskingOutsideFails | schema/v1/reference.go:119-136 | An OCI step whose inputs or environment ask, at any depth, for an input or another step's result fails in every world in which it ends. |
| OciArguments.CallersInputIsOutOfReach | schema/v1/reference.go:119-136 | A run in which the argument has a value for the caller, the fetch comes through and the step fails. |
| LogLines.NAppend | pkg/api/internal/streamer/file/file.go:85-99 | What a text shows can be put together from pieces cut after newlines. |
| LogStreamer.NextKeepsInv | pkg/api/internal/streamer/file/file.go:28-102 | One step of writer, stopper, canceller or follower keeps the invariant of every follower. |
| LogStreamer.FollowersAreStarts | pkg/api/internal/streamer/file/file.go:52-62 | There is one follower for each call with a non-negative offset, in order, and it starts at the offset asked for. |
| LogStreamer.StateOfHistory | pkg/api/internal/streamer/file/file.go:28-40 | The log is everything written, in order, and is stopped exactly after a stop. |
| LogStreamer.FollowersShowTheLog | pkg/api/internal/streamer/file/file.go:28-102 | In every interleaving without a write after stop, the i-th call to follow has shown a prefix of what all that was written shows from the offset it asked for, and all of it once Follow returned nil. One whose read of the file failed has done so if and only if it has not ended a line that the log goes on with differently. |
| LogStreamer.BrokenFollowerBreaksALine | pkg/api/internal/streamer/file/file.go:64-83 | A run in which a failed read makes a follower show a newline the log does not have. |
| LogStreamer.NoLostWakeUp | pkg/api/internal/streamer/file/file.go:28-83 | A sleeping follower is at the end of an unstopped log, and every write and stop leaves nobody asleep. |
| LogStreamer.CancelWakesNobody | pkg/api/internal/streamer/file/file.go:64-83 | A sleeper is woken by writes and stops and by nothing else, so not by its own cancellation. |
| LogStreamer.CancelledShowsNoMore | pkg/api/internal/streamer/file/file.go:64-83 | Over any continuation, a cancelled follower reads no more and shows at most the newline of the line it had just written. |
| LogStreamer.StoppedFollowersReturn | pkg/api/internal/streamer/file/file.go:64-102 | After a stop every follower that has not returned can move, and each of its moves leaves less to do. |
| LogStreamer.MovesAfterStopAreBounded | pkg/api/internal/streamer/file/file.go:64-102 | Over any continuation after a stop, a follower makes no more moves than the work it had left. |
| LogStreamer.TooLongMeansALongLine | pkg/api/internal/streamer/file/file.go:64-102 | A follower fails for a too long line only if the log holds 65536 bytes in a row without a newline. |
| LogDelivery.ShownIsWritten | pkg/api/internal/streamer/file/file.go:85-99 | What a follower has shown is its writes joined, and of one that failed the bytes it was accepted with. |
| LogDelivery.FollowersWriteTheMessages | pkg/api/service/service.go:146-160 | In every interleaving the writes of the i-th call to follow are the first messages of the log from the offset it asked for, and all of them once Follow returned nil, unless its read of the file failed. |
| LogDelivery.ResumeAfterFollowing | pkg/api/client/basic/client.go:125-144 | End to end: relaying what a call to follow from an offset wrote, resuming from the count after a failed write completes the log if and only if the failing message is a line not taken whole or a newline that was taken. |
| LogDelivery.FollowingAgain | pkg/api/client/basic/client.go:125-144 | A later call that follows from the count shows, whatever happened in between, what comes after the first relay, and completes the log once it returned nil. |
| ClientLogs.FollowLogs | pkg/api/client/basic/client.go:115-145 | The count is the offset plus the bytes the sink took; messages are relayed in order up to the first failure, and all of them if there is no error. |
| ClientLogs.ResumeLaw | pkg/api/internal/streamer/file/file.go:52-102 | For a log followers show as it is, a cut and following from the cut make up the log if and only if the cut is not in front of a newline. |
| ClientLogs.CleanIffTidy | pkg/api/internal/streamer/file/file.go:85-99 | Followers show a log as it is if and only if it is ended and no newline is at its start, after another newline or after a CR. |
| ClientLogs.MessagesShow | pkg/api/internal/streamer/file/file.go:85-99 | The messages of a text are lines and newlines in turn, and together what it shows. |
| ClientLogs.CutLaw | pkg/api/client/basic/client.go:125-144 | A relay broken off anywhere has relayed the log up to its count; resuming completes the log if and only if it did not break between a line and its newline. |
| ClientLogs.ResumeAfterFailedWrite | pkg/api/client/basic/client.go:139-143 | After a failed write, resuming from the returned count loses nothing if and only if the failing message is a line not taken whole or a newline that was taken. |
| ClientLogs.RefusedNewlineIsLost | pkg/api/client/basic/client.go:139-143 | An input on which resuming from the returned count loses a newline. |
| Jobs.Job.OnRunCompletion | pkg/api/internal/jobs/jobs.go:122-157 | The end section computes the verdict, or panics on a nil result or a nil error it needs. |
| Jobs.JobSafety | pkg/api/internal/jobs/jobs.go:99-182 | In every interleaving the step runs at most once, the send never blocks, an end time implies a start time, the log closes after the step returned, and Close returns before Run has left only if its timer fired. |
| Jobs.NobodyIsStuck | pkg/api/internal/jobs/jobs.go:99-182 | In every reachable state Run can go on once its step returned, or Close can release the mutex, and Close can always go on. |
| Jobs.StatusGoesBackIff | pkg/api/internal/jobs/jobs.go:99-182 | An action takes the status back, or changes a terminal one, if and only if it begins the job after Close's timer section. |
| Jobs.StatusOnlyGoesForward | pkg/api/internal/jobs/jobs.go:99-182 | Without that, the status goes from unspecified over running to one terminal value and stays there. |
| Jobs.CancelledJobRuns | pkg/api/internal/jobs/jobs.go:160-178 | A run in which a cancelled job starts running. |
| Jobs.VerdictOnContract | pkg/api/internal/jobs/jobs.go:122-157 | For outcomes steps can have: no panic, success exactly if the step succeeded, cancelled exactly on a context error or when killed after a cancellation, and the error is the step's. |
| Jobs.VerdictInGeneral | pkg/api/internal/jobs/jobs.go:122-157 | The verdict on any outcome: which are dereferenced, which are failures and with what error, which stand. |
| Jobs.SuccessIff | pkg/api/internal/jobs/jobs.go:99-157 | In every history with such outcomes, a finished job is successful if and only if its step came back without an error. |
| Jobs.ErrorOfJob | pkg/api/internal/jobs/jobs.go:99-182 | In every history with such outcomes, a finished job's error is its step's, as a cancellation if it is one; without one it has none until Close's timer section comes after the verdict. |
| Jobs.RecordOfHistory | pkg/api/internal/jobs/jobs.go:99-182 | Start time, end time, cancellation, closed logs and expiry are recorded exactly if the sections that set them ran. |
| Jobs.PanicIff | pkg/api/internal/jobs/jobs.go:113-119 | Over every history: Run has panicked if and only if the step returned no error and Run looked at the job's error after Close's timer section ran after the verdict. |
| Jobs.SuccessfulJobPanics | pkg/api/internal/jobs/jobs.go:113-119 | A run in which a successful job panics. |
| JobLog.LogIsNotWrittenAfterStop | pkg/api/internal/jobs/jobs.go:99-120 | In every interleaving of a job, its step's writes and its followers, no write follows the stop, so the followers' laws apply to the log of every job. |
| JobLog.FollowersOfJobs | pkg/api/internal/jobs/jobs.go:187-192 | Each follower of a job shows a prefix of what its step wrote from the offset it asked for, all of it once it returned nil, and none sleeps once Run has left. |
| JobContract.StepsKeepTheContract | pkg/api/internal/jobs/jobs.go:113-114 | The outcome of any top-level step is one onRunCompletion takes, unless the step is a command whose first log line could not be written. |
| JobTable.ServeConserves | pkg/api/service/service.go:49-139 | Each job ever created is the table's entry for its id exactly while it is not closed, and is executed at most once. |
| JobTable.RequestEffects | pkg/api/service/service.go:49-139 | Over every history: a run on a live id changes nothing; any other run is accepted exactly if every stage of preparing it succeeds, and then adds one open, executed job, while a failed one leaves the table and closes its job if it got one; a close removes the id; no request touches jobs of other ids. |
| JobTable.ExecutedOnceBetweenCloses | pkg/api/service/service.go:49-139 | Between two closes an id is executed at most once: not while it is live, and otherwise exactly if it is live afterwards. |
| Service.StepRunnerService.Run | pkg/api/service/service.go:49-105 | The new table and the jobs are those the table's law says, and so is the answer. |
| Service.StepRunnerService.Close | pkg/api/service/service.go:129-139 | The job is closed and leaves the table; an unknown id changes nothing. |

## Left out

- RunLaws: fuel bounds the nesting of lazily loaded steps, because self-referring steps need not end; what is proved of a run is proved of every run that ends within some bound, and the bound does not matter (`MoreFuelLazy`).
- Interpolation: strings are sequences of characters, so positions are not byte offsets.
- ShortReferences.RemoteRoundTrip: a reference is recognised after trimming white space but compiled untrimmed, as in the code; so the round trip is for printed references, which have no leading space.
- ClientLogs.ResumeLaw: for logs that followers show as they are (`CleanIffTidy`); in others the count is of shown bytes, which from the first changed line on are not bytes of the log.
- LogStreamer: opening and seeking the file succeed; a negative offset is refused without following.
- JobTable.ExecutedOnceBetweenCloses: requests are serialized; concurrent runs for one id look up and insert in two critical sections and are not covered.
- Service: status listing and following logs by id only look a job up.
- StepFiles.ReadKeyValueLines: lines come decoded from JSON, each with whether it is too long; their bytes are not modelled.
- StepSemantics: fetching from git, distributions and dynamic references, loading of YAML, commands, temporary files and the clock are the world's answers.
- StepSemantics: a command with no words, which the schema excludes and the code would panic on, is passed to the world.
- Runner: cancelling a context is not part of a run; its effect is a failing command.
- Loading: the Sensitive flag, since evaluation never yields a sensitive value and assigning never fails.
- LongReferences: decoding of references from JSON.
- OutputSpec: inputs, which compile the same way, and the Sensitive flag.
- Jobs: temporary directories, log messages and the values of times. The start section and Close's timer section have no row of their own; their laws are `JobSafety`, `StatusGoesBackIff` and `PanicIff`.
- Error messages, the extended client, proxy, command line tools and reports.
