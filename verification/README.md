# NeuroGrim broker engine, verified

A Dafny model of the concurrent and recursive parts of NeuroGrim: the broker dispatch engine, its limiters, the
peer-task protocol with its event framing, and the smaller state machines around them. `dafny verify dfyconfig.toml`
checks everything.

## What is modelled

**The dispatch engine** is modelled three times, and the three are proved to agree.

- `Dispatching` is a big-step semantics: catalog lookup, governance, parameters, preconditions, debit, steps, snapshot
  delta, audit record, with `SubPipeline` steps re-entering the whole ceremony. It also returns the call tree.
  `Audit`, `KillSwitch`, `StaticSafety` and `Termination` prove what holds of every run at every nesting depth, and
  `Verdicts` what decides a dispatch and its steps.
- `Machine` and `Interleaving` split a dispatch into atomic actions: budget check and debit are separate, and so are
  reading the overlay, linking the snapshot under its lock, and appending the record outside it. Any number of tasks
  interleave with ticks, operators at the switch and budget resets. `Machine.DispatchSimulated` and
  `Schedules.SequentialIsASchedule` prove that the big-step run is one of the schedules. `Forests` keeps, beside any
  schedule, the call forest of each task, and proves the audit properties task by task; `KillSwitchRaces` adds the
  kill switch.
- `Runner`, `Governance` and `WorkBrokers` are the objects, with fields updated in place; their methods are proved to
  compute the big-step semantics. The entry point `Runner.DispatchPipeline` needs no bound on nesting, only that every
  cycle of references it can reach passes through a Surfaced pipeline. `Claims` follows the Work Broker's pipelines from
  the dispatch to the overlay.

Leaf-ops, subgates, overlays and the precondition language are parameters of the environment, so each theorem holds for
all of them. A leaf-op may change the brokers and the kill switch but not the budget. `Frames`,
`Placeholders`, `FinalTexts` and `Preconditions` are the frame scanner, parameter substitution and the precondition
language on their own.

**The limiters.** `EmitLimiter` is the semaphore-and-stamp protocol over every interleaving and cancellation. `Windows`
holds the reference count and its queue refinement; `Limiters` has the three classes and lifts the refinement to runs
over many keys.

**Peer tasks.** `PeerTasks` runs any number of POSTs concurrently, and `PeerClients` lets any number of `invoke` calls
with one response cache run against that server. `PeerInvocation` has the two objects, composed one request at a time;
`PeerClients.CallAlone` proves that this is what one call alone amounts to.
`EventStream` is the incremental framer, a subset of sections 9.2.5 and 9.2.6 of the WHATWG HTML Living Standard.

**State machines.** `ColdStores`, `Webhooks`, `Spans`, `Registry`, `Workflows`.

## Where the code does not do what is promised

The code is kept as it is. For each point there is a theorem with an input or a schedule on which the promise fails, and
one that says exactly when it holds.

- The trace promises that overlays can be rebuilt by walking the delta chain (`trace.rs:6-17`). The encoding reuses the
  key `__root__`, so a step from an object to the same object plus just `__root__` holding a non-object cannot be told
  from a replacement of the whole value. `Traces.ApplyInvertsCompute`: applying a delta undoes computing it if and only
  if the step is not of that kind; `Traces.NoDecoderForAmbiguous`: for those no decoder exists.
- `FEDERATED_PATTERN_MIN_INTERVAL` is described as the interval between successive emits, giving about ten a minute
  (`federated_pattern.rs:136-139`). The stamp is not checked again after the sleep, so what holds is the interval across
  `max_inflight + 1` grants. `EmitLimiter.NeighboursSpacedExactly`: neighbouring grants are spaced if and only if there
  is at most one permit, or no interval. With the production constants three grants take six seconds, two need none.
- The budget ceiling is overshot under races. With subgates that do not look at a pipeline's schema,
  preconditions or steps, it is kept on every schedule if and only if there is at most one task, or the ceiling is zero,
  or the subgates refuse every Surfaced pipeline in every state (`Schedules.CeilingKeptExactly`); n tasks overshoot by
  at most n - 1 (`Interleaving.BudgetBoundUnderRaces`), and from every start some schedule does
  (`Schedules.OvershootReached`).
- The disengage pipeline carries the bypass flag so that it "stays reachable", but only the kill-switch check is
  bypassed: an armed switch can be disengaged if and only if a budget unit is left and no subgate refuses the pipeline
  (`WorkBrokers.DisengageRecovers`).
- The strict catalog check makes dispatch independent of the registry if and only if the broker id contains no slash
  (`StaticSafety.StaticCheckIsSafeExactlyForSlashFreeIds`), because ownership is checked by prefix and resolved by first
  segment. Registry lookups ignore the hash map's order if and only if no broker id continues another one after a slash
  (`Registry.OrderNeverMattersExactly`).
- The sliding windows bound the accepted calls if and only if the first clock reading is late enough that "now minus
  window" does not underflow, or the limit is zero (`Windows.BoundedExactlyFromLateStart`).
- The cold store's reader stays in step if and only if nothing is appended between its length read and its line read, or
  nothing was pending (`ColdStores.ReadInSyncExactly`).
- A failed webhook sync answers 500 "so the sender retries", but the delivery is already recorded, so the retry is
  answered as a replay for a whole window (`Webhooks.RetryWithinWindowIsReplayed`). Rapid pushes are meant to collapse
  to one pull, but a failed sync records none, so the next delivery starts another at once
  (`Webhooks.FailedSyncIsNotDebounced`). `Webhooks.NextSyncExactly`: served one after the other, a delivery starts a
  sync if and only if it was not recorded recently, and its agent's last sync failed, or ended at least the debounce
  period ago, or there was none.
- Substituting parameters is meant to fill the placeholders of a text. The parameters are replaced one after the other
  in key order, so a value that spells a later placeholder, or begins one at its end, is scanned again
  (`Placeholders.RescannedInKeyOrder`). `FinalTexts.OnePassInTheEndExactly`: every text without nested braces ends as
  what one pass over its placeholders makes of it, if and only if each inserted value that no other shadows survives the
  later parameters, alone and with whatever completes the placeholder it leaves open at its end.
  `Placeholders.OnePassExactly`: this is so after every parameter, and not only at the end, if and only if no frame
  value and no earlier parameter value contains or begins the placeholder of a later parameter.
  `Placeholders.TextExactly`: a text is filled by one pass, for all parameters that meet this, if and only if no braces
  nest in it.
- Overlapping POSTs of one message id can both run the handler and be answered differently
  (`PeerTasks.OverlappingPostsCanDisagree`). `PeerTasks.RacesExactly`: however a run is settled, all replies to a
  message agree if and only if no POST passed its cache check while another POST of the message was between its own
  cache check and its cache write.
- The comment on outcome parsing says that for an unknown outcome text the layer falls back to ok
  (`diagnostics_ledger.rs:140-144`). It keeps the outcome it had (`Spans.UnknownOutcomeDoesNotReset`).
  `Spans.UnknownRecordExactly`: recording an unknown text on a mapped span leaves it at ok if and only if it was at ok.

## Model

| member | source | states |
|---|---|---|
| `Audit.DispatchAudited` | neurogrim/crates/neurogrim-brokers/src/runner.rs:213-304 | Every dispatch, at any depth and with any outcome, appends exactly one record; records come in post-order of the call tree and carry the returned outcome; ids drawn are exactly the next ones; `used` grows by exactly the Surfaced dispatches, nested ones included, that reached their steps; a success has only successes beneath it |
| `Audit.StepsAudited` | neurogrim/crates/neurogrim-brokers/src/runner.rs:382-397 | The same accounting for a list of steps: calls of the steps in order, all of them successful when the list succeeds |
| `Audit.StepAudited` | neurogrim/crates/neurogrim-brokers/src/runner.rs:399-520 | The same accounting for one step through Leaf, SubPipeline, Guard and Branch |
| `Audit.AdmitEffect` | neurogrim/crates/neurogrim-brokers/src/runner.rs:310-379 | Admission leaves trace, ids, cache and switch alone; refused dispatches debit nothing; admitted ones debit one unit exactly when Surfaced, and then the budget was not exhausted and an armed switch was bypassed |
| `Audit.OneRecordPerDispatch` | neurogrim/crates/neurogrim-brokers/src/runner.rs:230-281 | Each trace id drawn during a sequential run labels exactly one of the records the run appends |
| `Audit.SameIdsEitherOrder` | neurogrim/crates/neurogrim-brokers/src/runner.rs:221-281 | The records hold the same ids as the calls, although ids are drawn in pre-order and records written in post-order |
| `Termination.DispatchTerminates` | neurogrim/crates/neurogrim-brokers/src/runner.rs:399-487 | If every cycle of SubPipeline references reachable from the dispatched pipeline passes through a Surfaced pipeline, a sequential dispatch ends, within nesting depth (budget left + 1) * (reachable non-Surfaced pipelines + 1) |
| `Termination.DispatchBounded` | neurogrim/crates/neurogrim-brokers/src/runner.rs:310-379 | The inductive form: at any point of the run, remaining budget and unvisited private pipelines bound the remaining depth |
| `Termination.RankSuffices` | neurogrim/crates/neurogrim-brokers/src/runner.rs:399-487 | A numbering that falls along every reference between reachable non-Surfaced pipelines establishes the condition on cycles |
| `Termination.SurfacedLoopsTerminate` | neurogrim/crates/neurogrim-brokers/src/runner.rs:345-376 | For a slash-free broker id, a catalog in which a Surfaced pipeline calls itself, and a Surfaced and a private one call each other, meets the condition, and its dispatches end in every environment and under any registry |
| `Termination.PrivateLoopIsNoSurfacedCycle` | neurogrim/crates/neurogrim-brokers/src/runner.rs:345-347 | A private pipeline that calls itself does not meet the condition |
| `Termination.DispatchFuel` | neurogrim/crates/neurogrim-brokers/src/runner.rs:213-304 | The result of a dispatch does not depend on the depth bound, once it is enough |
| `Termination.PrivateLoopDiverges` | neurogrim/crates/neurogrim-brokers/src/runner.rs:345-347 | Without the condition on cycles no depth suffices: an admitted non-Surfaced pipeline that begins by calling itself never returns |
| `KillSwitch.ArmedDispatchIsGovernance` | neurogrim/crates/neurogrim-brokers/src/governance.rs:271-291 | Over validated catalogs, every Surfaced dispatch in the call tree whose own check saw the switch armed reached its steps only if its pipeline is of audit class Governance |
| `KillSwitchRaces.ArmedTasksAreGovernance` | neurogrim/crates/neurogrim-brokers/src/governance.rs:271-291 | Over every interleaving of dispatches from validated catalogs, with the switch flipped at any time, once the tasks are idle every Surfaced call in their call forests that saw it armed had reached its steps only if its pipeline is of audit class Governance |
| `Verdicts.AdmittedExactly` | neurogrim/crates/neurogrim-brokers/src/runner.rs:310-379 | A dispatch reaches its steps if and only if governance agrees, the parameters fit the schema and every precondition, with the frame put in, is true of the overlay as it then is; otherwise the error names the first of these to fail, and among the preconditions the first false one as the catalog writes it |
| `Verdicts.UnknownRefused` | neurogrim/crates/neurogrim-brokers/src/runner.rs:320-327 | A pipeline that is not in the catalog is refused as such, and nothing else is asked |
| `Verdicts.UnmetExactly` | neurogrim/crates/neurogrim-brokers/src/runner.rs:350-358 | No precondition is unmet exactly when the language says true of all of them; the one reported is the first of which it says false |
| `Verdicts.GovernedExactly` | neurogrim/crates/neurogrim-brokers/src/governance.rs:271-291 | Governance agrees if and only if the budget is not exhausted, an armed switch is bypassed and the subgates agree; the refusal is that of the first of the three, with the counter and the ceiling if it is the budget |
| `Verdicts.GatesInOrder` | neurogrim/crates/neurogrim-brokers/src/governance.rs:271-291 | Subgates are asked in order, each in the state the one before it left, up to the first that refuses, whose name and reason are reported |
| `Verdicts.GuardDecides` | neurogrim/crates/neurogrim-brokers/src/runner.rs:488-501 | A guard is its inner step if its predicate, with the frame put in, is true, and otherwise yields Null and changes nothing |
| `Verdicts.BranchDecides` | neurogrim/crates/neurogrim-brokers/src/runner.rs:502-517 | A branch is the step its predicate selects |
| `Verdicts.LeafHandsOn` | neurogrim/crates/neurogrim-brokers/src/runner.rs:409-415 | A leaf-op's value or reason is the step's |
| `Verdicts.SubPipelineHandsOn` | neurogrim/crates/neurogrim-brokers/src/runner.rs:416-487 | A sub-pipeline step has the world, the calls and the output of the dispatch it names, from its own catalog or the owner's; an error comes back wrapped in the name |
| `Basics.BeforeSlashExactly` | neurogrim/crates/neurogrim-brokers/src/runner.rs:422-425 | The owner of a sub-pipeline is what stands before the first slash of its id, and nobody if there is none |
| `Verdicts.NowhereToGo` | neurogrim/crates/neurogrim-brokers/src/runner.rs:444-468 | Without a registry, or for an owner it does not have, the step fails with that reason and changes nothing |
| `Verdicts.StepsHandOn` | neurogrim/crates/neurogrim-brokers/src/runner.rs:382-397 | Steps run in order, each from the world the one before it left; the output is that of the last, Null for none, or the error of the first to fail, after which none runs |
| `Verdicts.RecordSays` | neurogrim/crates/neurogrim-brokers/src/runner.rs:230-276 | The last record of any dispatch is its own: id, pipeline, broker, parameters, outcome, and the audit class of the pipeline, Governance if there is none |
| `StaticSafety.DispatchSame` | neurogrim/crates/neurogrim-brokers/src/runner.rs:416-487 | For a slash-free broker id and a catalog accepted under Reject, a dispatch does the same under any registry and every nested dispatch stays on the broker |
| `StaticSafety.StaticCheckIsSafeExactlyForSlashFreeIds` | neurogrim/crates/neurogrim-brokers/src/catalog.rs:91-171 | The strict check makes dispatch independent of the registry if and only if the broker id contains no slash |
| `StaticSafety.SlashedBrokerDepends` | neurogrim/crates/neurogrim-brokers/src/runner.rs:416-424 | With a slash in the broker id, an accepted catalog of two pipelines runs differently with and without a registry |
| `Machine.DispatchSimulated` | neurogrim/crates/neurogrim-brokers/src/runner.rs:213-304 | The big-step dispatch is a run of the machine of atomic actions, from the call to the return |
| `Machine.AdmissionSimulated` | neurogrim/crates/neurogrim-brokers/src/runner.rs:320-364 | Lookup, budget check, switch check, subgates, parameters, preconditions and debit, taken as separate actions, amount to the big-step admission |
| `Machine.StepSimulated` | neurogrim/crates/neurogrim-brokers/src/runner.rs:399-520 | Each step, run action by action inside its caller, has the big-step effect and outcome |
| `Interleaving.BudgetBoundUnderRaces` | neurogrim/crates/neurogrim-brokers/src/governance.rs:68-86 | Over every interleaving of n tasks, resets included, `used` plus the checks passed but not yet debited stays at most ceiling + n - 1; without resets `used` has grown by exactly the debits |
| `Interleaving.OneRecordEachUnderRaces` | neurogrim/crates/neurogrim-brokers/src/runner.rs:221-281 | Over every interleaving, once all tasks are idle, every id drawn labels exactly one record and no record has another id |
| `Forests.TasksAudited` | neurogrim/crates/neurogrim-brokers/src/runner.rs:213-304 | Over every interleaving, once the tasks are idle each record belongs to one task; a task's records are the post-order of its call forest with the calls' outcomes; no refusal lies beneath a success; a Surfaced call that saw the switch armed reached its steps only by bypassing it; without resets the debits are the Surfaced calls that reached their steps |
| `Forests.FollowStep` | neurogrim/crates/neurogrim-brokers/src/runner.rs:221-281 | Every atomic action of any task keeps stacks, call forests, records and debits in step |
| `Interleaving.DeltaChainsReplay` | neurogrim/crates/neurogrim-brokers/src/runner.rs:522-541 | Over every interleaving, each broker's records form one unforked chain that ends at the cached snapshot, and following back links from any record rebuilds the overlay it was made from, unless an ambiguous step lies on the way |
| `Interleaving.ChainStep` | neurogrim/crates/neurogrim-brokers/src/runner.rs:244-275 | Every atomic action keeps the chains, although snapshots are linked under a lock and records appended outside it |
| `Schedules.SequentialIsASchedule` | neurogrim/crates/neurogrim-brokers/src/runner.rs:213-304 | Starting a dispatch on an idle task and running only that task reaches exactly the big-step world |
| `Schedules.OvershootReached` | neurogrim/crates/neurogrim-brokers/src/governance.rs:68-82 | The race bound is tight: with a ceiling above zero and subgates that let some Surfaced pipeline through in some state, from every start some schedule of n tasks leaves `used` at ceiling + n - 1 |
| `Schedules.CeilingKeptExactly` | neurogrim/crates/neurogrim-brokers/src/governance.rs:68-86 | With subgates that do not look at schema, preconditions or steps, `used` stays within the ceiling on every schedule if and only if there is at most one task, or the ceiling is zero, or the subgates refuse every Surfaced pipeline in every state |
| `Traces.ApplyInvertsCompute` | neurogrim/crates/neurogrim-brokers/src/trace.rs:118-162 | `Apply` undoes `Compute` if and only if the step is not an object gaining just a non-object `__root__`; non-objects included |
| `Traces.NoDecoderForAmbiguous` | neurogrim/crates/neurogrim-brokers/src/trace.rs:150-159 | On an ambiguous step no decoder recovers the value: two values have the same delta |
| `Traces.ComputeDelta` | neurogrim/crates/neurogrim-brokers/src/trace.rs:122-162 | The two key loops compute the delta, each removed key listed once |
| `Traces.RevertUndoes` | neurogrim/crates/neurogrim-brokers/src/trace.rs:134-141 | Backwards, the delta of a step between objects that removes no key leads to the value before |
| `Traces.RemovedIsLost` | neurogrim/crates/neurogrim-brokers/src/trace.rs:142-146 | For every other step some other value has the same delta to the same result, so nothing can lead back |
| `Chains.Unforked` | neurogrim/crates/neurogrim-brokers/src/runner.rs:529-540 | No two records of a chain continue the same predecessor |
| `Chains.OverlayRecovered` | neurogrim/crates/neurogrim-brokers/src/trace.rs:13-17 | From the trace alone, walking back links and folding deltas rebuilds the overlay behind any record of an unambiguous chain |
| `Chains.ReplayBreaksAtAmbiguity` | neurogrim/crates/neurogrim-brokers/src/trace.rs:118-162 | At the first step that may be ambiguous, replay gives the right overlay if and only if the step is not ambiguous |
| `Runner.PipelineRunner.Admit` | neurogrim/crates/neurogrim-brokers/src/runner.rs:310-376 | Computes the big-step admission on the runner's own fields |
| `Runner.PipelineRunner.FirstUnmet` | neurogrim/crates/neurogrim-brokers/src/runner.rs:350-358 | Finds the first precondition that the language says is false after frame substitution, all before it being true |
| `Runner.PipelineRunner.ComputeSnapshotDelta` | neurogrim/crates/neurogrim-brokers/src/runner.rs:522-541 | Updates the cache and returns back link and delta as the linking function says; the first record carries the full overlay |
| `Runner.PipelineRunner.DispatchWithin` | neurogrim/crates/neurogrim-brokers/src/runner.rs:213-304 | Takes the runner from its world to the world and outcome of the big-step dispatch |
| `Runner.PipelineRunner.ExecuteSteps` | neurogrim/crates/neurogrim-brokers/src/runner.rs:382-397 | The loop over the steps computes the recursive big-step meaning, stopping at the first error, Null for no steps |
| `Runner.PipelineRunner.ExecuteStep` | neurogrim/crates/neurogrim-brokers/src/runner.rs:399-520 | Each kind of step has its big-step effect on the runner |
| `Runner.DispatchPipeline` | neurogrim/crates/neurogrim-brokers/src/runner.rs:213-304 | For catalogs whose cycles are Surfaced, the entry point returns and agrees with the semantics, with no depth supplied |
| `Governance.GovernanceComposer.PreDispatchChecksFor` | neurogrim/crates/neurogrim-brokers/src/governance.rs:271-291 | Budget first, then the switch unless bypassed, then subgates in order up to the first refusal; earlier refusals leave subgate state alone |
| `Governance.GovernanceComposer.RegisterPreDispatchSubgate` | neurogrim/crates/neurogrim-brokers/src/governance.rs:188-202 | Replaces the subgate of the same name in place or appends; reports which |
| `Governance.RegistrationKeepsOrder` | neurogrim/crates/neurogrim-brokers/src/governance.rs:215-248 | Registration keeps names distinct and in order, and the new subgate is the only one of its name |
| `Governance.GovernanceComposer.RecordDispatch` | neurogrim/crates/neurogrim-brokers/src/governance.rs:307-309 | Consumes one unit |
| `Frames.SubstitutePlaceholders` | neurogrim/crates/neurogrim-brokers/src/frame.rs:80-117 | The character scanner with its inner loop computes tokenize-then-expand |
| `Frames.EmptyFrameIsIdentity` | neurogrim/crates/neurogrim-brokers/src/frame.rs:80-117 | The empty frame changes no text, unclosed braces included |
| `Frames.SubstituteAppend` | neurogrim/crates/neurogrim-brokers/src/frame.rs:80-117 | Substitution distributes over concatenation when the left part leaves no brace open |
| `Frames.SubstituteAround` | neurogrim/crates/neurogrim-brokers/src/frame.rs:95-107 | In any context a known key becomes its value, inserted without rescanning, and any other placeholder survives unchanged |
| `Frames.ReadBraces` | neurogrim/crates/neurogrim-brokers/src/frame.rs:84-94 | The inner loop stops at the first closing brace, or at the end without one |
| `Placeholders.SubstituteEach` | neurogrim/crates/neurogrim-brokers/src/catalog.rs:211-222 | The loop over the parameters replaces them one key after the other |
| `Placeholders.OnePassExactly` | neurogrim/crates/neurogrim-brokers/src/catalog.rs:211-222 | With frame values put in first: after every parameter each text without nested braces is one simultaneous filling of its placeholders, if and only if no frame value and no earlier unshadowed parameter value contains or begins the placeholder of a later parameter that changes anything |
| `Placeholders.TwoStagesAreOnePass` | neurogrim/crates/neurogrim-brokers/src/runner.rs:350-353 | The sufficient half: frame substitution followed by any initial part of the parameters is one pass in which frame values win and unknown placeholders survive |
| `Placeholders.ParamsAllAtOnce` | neurogrim/crates/neurogrim-brokers/src/catalog.rs:211-222 | Without a frame, parameter by parameter equals all at once when no value is scanned again |
| `Placeholders.RescannedInKeyOrder` | neurogrim/crates/neurogrim-brokers/src/catalog.rs:213-220 | In key order, with a := "{b}" and b := "x", the text "{a}" becomes "x" and not "{b}" |
| `Placeholders.SpoiledAndRestored` | neurogrim/crates/neurogrim-brokers/src/catalog.rs:213-220 | A later parameter can restore what an earlier one spoiled: one pass at the end, but not after every parameter |
| `FinalTexts.OnePassInTheEndExactly` | neurogrim/crates/neurogrim-brokers/src/catalog.rs:211-222 | With frame values put in first: what comes out for each text without nested braces is one simultaneous filling of its placeholders, if and only if each inserted, unshadowed value comes out of the later parameters unchanged, alone and followed by each completion of its open end to a later placeholder |
| `FinalTexts.PassedOver` | neurogrim/crates/neurogrim-brokers/src/catalog.rs:213-220 | A value that comes out unchanged in these finitely many cases is passed over whatever text follows it, texts that earlier parameters have changed included |
| `Placeholders.TextExactly` | neurogrim/crates/neurogrim-brokers/src/catalog.rs:211-222 | A text is filled by one pass for all parameters whose values are not scanned again if and only if no braces nest in it |
| `Preconditions.LookupPath` | neurogrim/crates/neurogrim-brokers/src/catalog.rs:225-238 | The loop over the segments follows the path, numbers indexing arrays only |
| `Preconditions.PathsCompose` | neurogrim/crates/neurogrim-brokers/src/catalog.rs:225-238 | Looking up a dotted path is looking up its second part in what its first part finds |
| `Preconditions.UnequalNegatesEqual` | neurogrim/crates/neurogrim-brokers/src/catalog.rs:185-208 | For texts without further operators `!=` is the negation of `=`, and a missing path is unequal to everything |
| `Preconditions.EquationExactly` | neurogrim/crates/neurogrim-brokers/src/catalog.rs:185-208 | An equation is true if and only if its path finds a string with the literal as its text, a boolean or null of that name, or anything else that is printed so; white space around both sides does not count |
| `Preconditions.BarePathExactly` | neurogrim/crates/neurogrim-brokers/src/catalog.rs:205-207 | A bare path is true if and only if it finds something |
| `Preconditions.TrimExactly` | neurogrim/crates/neurogrim-brokers/src/catalog.rs:193-206 | Trimming removes exactly the white space around |
| `Preconditions.NumberIndexes` | neurogrim/crates/neurogrim-brokers/src/catalog.rs:230-236 | A number written in decimal picks that element of an array and nothing of an object; one too large for a machine word is a field name |
| `Catalogs.ValidateCatalog` | neurogrim/crates/neurogrim-brokers/src/catalog.rs:91-128 | Succeeds if and only if every pipeline is lawful and ids are distinct; otherwise blames the first offending pipeline with the first rule it breaks |
| `Catalogs.Escape` | neurogrim/crates/neurogrim-brokers/src/catalog.rs:130-171 | Finds, at any depth of guards and branches, the first reference in written order that leaves the broker, or none exists |
| `Catalogs.OwnedExactly` | neurogrim/crates/neurogrim-brokers/src/catalog.rs:96-107 | A broker owns exactly the ids that are its own, a slash, and whatever follows |
| `WorkBrokers.WorkCatalogAccepted` | neurogrim/crates/neurogrim-brokers/src/work_broker.rs:129-186 | The Work Broker's catalog, framework pipelines included, passes the strict check for every broker id |
| `WorkBrokers.DisengageRecovers` | neurogrim/crates/neurogrim-brokers/src/work_broker.rs:360-373 | Whatever else the host holds, subgate state included, dispatching disengage succeeds if and only if a budget unit is left and no subgate refuses it; then the switch is off and one unit is spent, otherwise switch and budget are as before |
| `WorkBrokers.RecoveryReopensGate` | neurogrim/crates/neurogrim-brokers/src/governance.rs:352-413 | Whatever else the host holds, subgate state included, from an armed state a pipeline that the gate refuses passes it after disengage if and only if two units are left and no subgate refuses either |
| `WorkBrokers.ClaimsAreConserved` | neurogrim/crates/neurogrim-brokers/src/work_broker.rs:313-343 | Over any sequence of leaf-ops each successful claim of an id uses up one Ready unit of it, nothing else does, and ids never change |
| `WorkBrokers.WorkBroker.ExecuteLeaf` | neurogrim/crates/neurogrim-brokers/src/work_broker.rs:307-380 | The in-place leaf-ops do what the abstract transformer says, errors included |
| `Json.TypedFieldExactly` | neurogrim/crates/neurogrim-brokers/src/runner.rs:561-626 | A field with a declared type is accepted exactly if its value is of that kind, integers being numbers too and unknown types accepting none, or if it is missing and not required |
| `Json.EnumFieldExactly` | neurogrim/crates/neurogrim-brokers/src/runner.rs:627-636 | A field with an enumeration is accepted exactly if its value is a member, or if it is missing and not required |
| `Claims.ClaimSchemaExactly` | neurogrim/crates/neurogrim-brokers/src/work_broker.rs:137-146 | The claim pipeline's parameters are accepted exactly if `work_unit_id` is there and is a string |
| `Claims.ClaimExactly` | neurogrim/crates/neurogrim-brokers/src/work_broker.rs:129-164 | Dispatching `dispatch-work-unit` succeeds if and only if a budget unit is left, the switch is off, no subgate refuses, the precondition is true of the overlay, and the parameter is a string naming a unit whose first occurrence is Ready; then just that unit is Claimed and the overlay shows the new backlog; otherwise both are as the subgates left them; one unit is spent exactly if all but the work unit's own state agreed |
| `Claims.CurateSnoc` | neurogrim/crates/neurogrim-brokers/src/work_broker.rs:189-204 | The overlay lists, in order, the Ready units and the ids of the Claimed ones |
| `Claims.ActiveWorkIsThere` | neurogrim/crates/neurogrim-brokers/src/work_broker.rs:147-149 | The claim pipeline's precondition is true exactly of overlays with the field `active_work`, whatever the frame and the parameters |
| `Claims.TickShowsBacklog` | neurogrim/crates/neurogrim-brokers/src/work_broker.rs:166-184 | A tick always succeeds, whatever budget and switch, and afterwards the overlay shows the backlog |
| `Claims.ArmingTakesEffect` | neurogrim/crates/neurogrim-brokers/src/governance.rs:380-394 | Arming succeeds if and only if a budget unit is left and no subgate refuses it; then the switch is armed and one unit is spent, otherwise both are as before |
| `Claims.OnlySwitchBypasses` | neurogrim/crates/neurogrim-brokers/src/governance.rs:352-413 | Of the broker's own pipelines exactly the two for the switch bypass it |
| `EmitLimiter.GrantsAreSpaced` | neurogrim/crates/neurogrim-a2a/src/federated_pattern.rs:440-485 | Over every interleaving and cancellation, any max_inflight + 1 consecutive grants span at least the interval |
| `EmitLimiter.AtMostMaxInflight` | neurogrim/crates/neurogrim-a2a/src/federated_pattern.rs:460-468 | At most max_inflight permits are held at once |
| `EmitLimiter.NeighboursSpacedExactly` | neurogrim/crates/neurogrim-a2a/src/federated_pattern.rs:470-485 | Successive grants are an interval apart in every run if and only if there is at most one permit or the interval is zero |
| `EmitLimiter.BurstOfTwo` | neurogrim/crates/neurogrim-a2a/src/federated_pattern.rs:473-481 | With two permits some schedule grants two emits at the same instant |
| `EmitLimiter.ThreeGrantsTakeSixSeconds` | neurogrim/crates/neurogrim-a2a/src/federated_pattern.rs:131-139 | With the production constants three grants span six seconds, and two need not |
| `EmitLimiter.GrantedWhenDue` | neurogrim/crates/neurogrim-a2a/src/federated_pattern.rs:456-485 | A task that finds permit and mutex free is granted at once if there was no grant or the last lies an interval back, and otherwise the moment the clock reaches the last grant plus the interval; it then holds one permit and nothing else has changed |
| `EmitLimiter.NoGrantBeforeDue` | neurogrim/crates/neurogrim-a2a/src/federated_pattern.rs:470-482 | However such a task is stepped on its own, no grant of its comes before that moment |
| `EmitLimiter.NobodyOversleeps` | neurogrim/crates/neurogrim-a2a/src/federated_pattern.rs:474-480 | Over every interleaving and cancellation, whoever sleeps has at most one interval to go |
| `EmitLimiter.NothingLeftBehind` | neurogrim/crates/neurogrim-a2a/src/federated_pattern.rs:487-494 | Abandoning a suspended call, or releasing a grant, gives its permit back and changes nothing else |
| `EmitLimiter.DoKeepsInv` | neurogrim/crates/neurogrim-a2a/src/federated_pattern.rs:440-485 | Every action keeps the counting invariant the spacing rests on |
| `Windows.PrunedQueueIsNear` | neurogrim/crates/neurogrim-brokers/src/rate_limit.rs:110-138 | What a call finds in its pruned queue is exactly the accepted history that is still near it |
| `Windows.QueueRefinesHistory` | neurogrim/crates/neurogrim-brokers/src/sensory_queue.rs:71-92 | The queue is the accepted history filtered to the window, closed or half-open, and a refusal happens only when that is full |
| `Windows.AcceptedBounded` | neurogrim/crates/neurogrim-brokers/src/rate_limit.rs:124-136 | No window ever holds more than the limit of accepted calls |
| `Windows.QueueAcceptsTheSame` | neurogrim/crates/neurogrim-brokers/src/rate_limit.rs:110-138 | The pruned queue accepts exactly the calls the unbounded reference accepts |
| `Windows.BoundedExactlyFromLateStart` | neurogrim/crates/neurogrim-a2a/src/federated_pattern.rs:689-691 | The bound holds for all runs if and only if the clock starts late enough not to underflow, or the limit is zero |
| `Limiters.FrontQueueIsQueue` | neurogrim/crates/neurogrim-brokers/src/rate_limit.rs:116-123 | For calls in time order popping from the front and filtering go through the same queues |
| `Limiters.KeysAreIndependent` | neurogrim/crates/neurogrim-brokers/src/rate_limit.rs:110-138 | In a run over many keys each key's queue and acceptances are those of its own calls alone |
| `Limiters.EveryKeyBounded` | neurogrim/crates/neurogrim-a2a/src/federated_pattern.rs:672-707 | In a run over many keys, each with its own window, no window of a key holds more than its limit |
| `Limiters.RateLimitSubgate.Check` | neurogrim/crates/neurogrim-brokers/src/rate_limit.rs:110-138 | Updates the queue of the scoped key in place as the specification says and touches no other key |
| `Limiters.RateLimitSubgate.CurrentCount` | neurogrim/crates/neurogrim-brokers/src/rate_limit.rs:87-103 | Counts and prunes the stored key; an unknown key counts zero and is not created |
| `Limiters.ReceiveLimiter.AdmitReceipt` | neurogrim/crates/neurogrim-a2a/src/federated_pattern.rs:672-707 | Appending first and popping back gives the same queue and answer as checking first |
| `Limiters.SensoryQueueEnforcer.Enforce` | neurogrim/crates/neurogrim-brokers/src/sensory_queue.rs:168-200 | The write window by retain, per-source limits, and the structural check after the slot is taken |
| `Limiters.SensoryQueueEnforcer.SetPerSourceLimits` | neurogrim/crates/neurogrim-brokers/src/sensory_queue.rs:159-174 | An override holds for its source at once and for no other |
| `Limiters.BlamedFieldIsWrong` | neurogrim/crates/neurogrim-brokers/src/sensory_queue.rs:207-250 | The field the structural check names is indeed out of order |
| `Limiters.EnvelopeCheckExact` | neurogrim/crates/neurogrim-brokers/src/sensory_queue.rs:207-250 | The ordered field checks pass if and only if the envelope is well formed |
| `EventStream.ChunkingIsIrrelevant` | neurogrim/crates/neurogrim-a2a/src/transport.rs:275-303 | However the bytes are cut, and whatever read errors come between, the events and the leftover are those of the whole stream |
| `EventStream.StreamRoundTrip` | neurogrim/crates/neurogrim-a2a/src/transport.rs:275-336 | Printed events of clean lines come back exactly and in order for every chunking, with nothing left over |
| `EventStream.SplitAppend` | neurogrim/crates/neurogrim-a2a/src/transport.rs:275-303 | Cutting events as soon as they are complete changes neither events nor leftover |
| `EventStream.ParseBlock` | neurogrim/crates/neurogrim-a2a/src/transport.rs:320-336 | Parsing a printed event joins its lines with line feeds |
| `EventStream.OneLineExact` | neurogrim/crates/neurogrim-a2a/src/transport.rs:323-329 | A single line survives if and only if it is not empty and does not begin with white space |
| `EventStream.Framer.Scan` | neurogrim/crates/neurogrim-a2a/src/transport.rs:281-297 | The drain loop over the buffer yields the events and leftover of the specification |
| `EventStream.ParseSseEvent` | neurogrim/crates/neurogrim-a2a/src/transport.rs:320-336 | The line loop computes the payload; an event without data is an error, and so is a payload the envelope decoder refuses |
| `EventStream.OtherLinesIgnored` | neurogrim/crates/neurogrim-a2a/src/transport.rs:322-330 | Lines that do not begin with `data:` make no difference to the payload |
| `EventStream.FindDoubleNewline` | neurogrim/crates/neurogrim-a2a/src/transport.rs:314-316 | The position of the first blank line, or the length when there is none |
| `PeerTasks.CachedNeverRunsAgain` | neurogrim/crates/neurogrim-a2a/src/server.rs:327-350 | Once a message id is cached it stays cached, and the handler runs that still begin for it are those of the POSTs that had passed the cache check before, one each; later POSTs never run the handler |
| `PeerTasks.IssuedForever` | neurogrim/crates/neurogrim-a2a/src/server.rs:386-402 | Every task id issued maps forever to an envelope some handler run produced for that message |
| `PeerTasks.FirstPollFinds` | neurogrim/crates/neurogrim-a2a/src/server.rs:405-415 | In every interleaving a poll for the task a POST was answered with finds it at once and always gets the same envelope, one produced for its message |
| `PeerTasks.RacesExactly` | neurogrim/crates/neurogrim-a2a/src/server.rs:326-394 | However a run is left off and settled, whatever the handlers return, all replies to one message agree, if and only if no POST passed its cache check while another POST of the message was between its cache check and its cache write |
| `PeerTasks.RaceFreeRepliesAgree` | neurogrim/crates/neurogrim-a2a/src/server.rs:303-403 | Without such a race at most one handler run succeeds per message and all replies to it agree |
| `PeerTasks.WithoutOverlapRepliesAgree` | neurogrim/crates/neurogrim-a2a/src/server.rs:303-403 | In particular when POSTs of one message id do not overlap |
| `PeerTasks.OverlappingPostsCanDisagree` | neurogrim/crates/neurogrim-a2a/src/server.rs:326-394 | Two overlapping POSTs of one message both run the handler and get different answers |
| `PeerClients.InvokeNeverWaitsInVain` | neurogrim/crates/neurogrim-a2a/src/client.rs:90-144 | Over every interleaving of any number of `invoke` calls with the concurrent server: the first poll always finds its task, no call gives up, and every answer and every cached response is one a handler run produced for the message |
| `PeerClients.RaceFreeAnswersAgree` | neurogrim/crates/neurogrim-a2a/src/client.rs:90-144 | If the server's POSTs do not race, all calls for one message are answered alike, and as the response cache holds |
| `PeerInvocation.PostedTaskIsFound` | neurogrim/crates/neurogrim-a2a/src/server.rs:386-415 | The task an accepted POST names can be fetched at once and holds what the cache holds for the message |
| `PeerInvocation.FirstPollSuffices` | neurogrim/crates/neurogrim-a2a/src/client.rs:119-144 | `invoke` polls at most once and never times out |
| `PeerInvocation.InvokeAgain` | neurogrim/crates/neurogrim-a2a/src/client.rs:99-126 | A message answered once gets the same answer from then on, for this client or another, without another handler run |
| `PeerInvocation.NewMessageAnswered` | neurogrim/crates/neurogrim-a2a/src/client.rs:90-144 | A new message of the right version and an accepted type, whose handler responds, is answered with that response, cached on both sides, if the response has the right version, and otherwise with an error, the client's cache unchanged; it costs one run |
| `PeerInvocation.NewMessageRefused` | neurogrim/crates/neurogrim-a2a/src/server.rs:352-384 | A new message is refused for its version before its type before its handler's failure; nothing is cached, and only the last costs a run |
| `PeerInvocation.KnownMessageReplayed` | neurogrim/crates/neurogrim-a2a/src/client.rs:100-110 | A message answered before is answered from the client's cache, else from the server's, without a run |
| `PeerClients.PostAlone` | neurogrim/crates/neurogrim-a2a/src/server.rs:303-403 | A POST left alone with the concurrent server ends in the state and with the reply of the sequential one |
| `PeerClients.CallAlone` | neurogrim/crates/neurogrim-a2a/src/client.rs:90-144 | One call left alone with the concurrent server ends with the caches, the tasks and the answer of the sequential `invoke` |
| `PeerClients.PollingIsBounded` | neurogrim/crates/neurogrim-a2a/src/client.rs:117-143 | Were a peer to name a task it does not have, a call would poll just as often as it may and then give up |
| `PeerInvocation.TaskServer.Post` | neurogrim/crates/neurogrim-a2a/src/server.rs:303-403 | One POST as it changes the maps: replay under a new task id, the validation order, handler failure caches nothing |
| `PeerInvocation.TaskClient.InvokePeer` | neurogrim/crates/neurogrim-a2a/src/client.rs:90-144 | The cache check and the bounded poll loop compute `Invoke`, with the number of polls made |
| `ColdStores.ExactlyOnceInOrder` | neurogrim/crates/neurogrim-brokers/src/cold_store.rs:107-146 | Over every run of appends and undisturbed reads that resume at the returned offset, the delivered records are a prefix of the appended ones, and all of them after a read |
| `ColdStores.ReadAfterAppend` | neurogrim/crates/neurogrim-brokers/src/cold_store.rs:124-140 | Reading from an offset returned by an append yields exactly the later records |
| `ColdStores.ReadInSyncExactly` | neurogrim/crates/neurogrim-brokers/src/cold_store.rs:129-139 | A read stays in step if and only if nothing is appended between its two looks at the file, or nothing was pending |
| `ColdStores.StorableExact` | neurogrim/crates/neurogrim-brokers/src/cold_store.rs:134-138 | A record comes back as one unchanged line if and only if it has no line feed and does not end in a carriage return |
| `ColdStores.JsonlColdStore.Append` | neurogrim/crates/neurogrim-brokers/src/cold_store.rs:108-122 | Adds the record and returns the new length of the file |
| `ColdStores.JsonlColdStore.ReadRecordsFrom` | neurogrim/crates/neurogrim-brokers/src/cold_store.rs:124-140 | Returns the end offset and the lines after the given one |
| `ColdStores.JsonlColdStore.Len` | neurogrim/crates/neurogrim-brokers/src/cold_store.rs:142-145 | Counts the non-empty lines of the file, which for storable records are the non-empty records |
| `Webhooks.DecisionExact` | deploy/webhook-sync/webhook_sync/app.py:167-200 | The locked section answers replay, debounced or sync exactly by what was ever recorded and pulled, whatever was purged meanwhile |
| `Webhooks.SameDeliverySyncsApart` | deploy/webhook-sync/webhook_sync/app.py:167-204 | Over every run with purges no younger than the window, two syncs of one non-empty delivery id were recorded more than the window apart |
| `Webhooks.SyncRespectsPulls` | deploy/webhook-sync/webhook_sync/app.py:180-204 | No sync starts within the debounce period after a recorded pull of its agent |
| `Webhooks.SyncStartsExactly` | deploy/webhook-sync/webhook_sync/app.py:167-204 | In every run a delivery starts a sync if and only if neither it nor a pull of its agent was recorded recently |
| `Webhooks.RetryWithinWindowIsReplayed` | deploy/webhook-sync/webhook_sync/app.py:201-236 | For a whole window after a delivery is recorded, a retry is a replay whether or not its sync succeeded |
| `Webhooks.SerialIsARun` | deploy/webhook-sync/webhook_sync/app.py:167-213 | Deliveries served one after the other, each sync ending before the next delivery is decided, are among the interleaved runs |
| `Webhooks.NextSyncExactly` | deploy/webhook-sync/webhook_sync/app.py:167-213 | In a serial run a delivery starts a sync if and only if it was not recorded recently and the last sync of its agent failed, or ended at least the debounce period before, or there was none |
| `Webhooks.CloseSyncsFailed` | deploy/webhook-sync/webhook_sync/app.py:180-213 | In a serial run, of two syncs of one agent within the debounce period the earlier one failed |
| `Webhooks.FailedSyncIsNotDebounced` | deploy/webhook-sync/webhook_sync/app.py:206-213 | After a failed sync the next delivery for the agent starts another at the same instant |
| `Webhooks.Storage.DeliveryWasSeen` | deploy/webhook-sync/webhook_sync/storage.py:62-76 | Seen means non-empty, present and not older than the window |
| `Webhooks.Storage.Record` | deploy/webhook-sync/webhook_sync/storage.py:78-87 | Inserts or replaces the row, nothing for an empty id |
| `Webhooks.Storage.PurgeDeliveriesOlderThan` | deploy/webhook-sync/webhook_sync/storage.py:89-96 | Removes exactly the older rows and returns how many |
| `Webhooks.Storage.SecondsSinceLastPull` | deploy/webhook-sync/webhook_sync/storage.py:100-110 | The age of the agent's recorded pull, if any |
| `Webhooks.Storage.RecordPullAt` | deploy/webhook-sync/webhook_sync/storage.py:112-118 | Replaces the agent's pull time |
| `Webhooks.Storage.ReceiveLocked` | deploy/webhook-sync/webhook_sync/app.py:167-204 | The locked section, operation by operation, makes the decision of the specification |
| `Spans.LedgerIsAForest` | neurogrim/crates/neurogrim-cli/src/diagnostics_layer.rs:110-203 | Over every run, from any entry exactly `depth` parent links lead to a root, always to later entries, through any number of unmapped ancestors; event ids are distinct |
| `Spans.LoggedAsItWent` | neurogrim/crates/neurogrim-cli/src/diagnostics_layer.rs:110-203 | From any reachable state, a span of a mapped name is open from its creation, and however it goes on until it closes and afterwards, closing it leaves an entry of its kind, with the outcome that its fields at creation and all it recorded since amount to, at the depth of its mapped ancestors and under the nearest one |
| `Spans.RunKeeps` | neurogrim/crates/neurogrim-cli/src/diagnostics_layer.rs:110-203 | Every creation, record and close keeps the invariant that ties each entry to a later entry or a span still open |
| `Spans.DiagnosticsLayer.OnNewSpan` | neurogrim/crates/neurogrim-cli/src/diagnostics_layer.rs:110-150 | Stores data for mapped names only, with the nearest mapped ancestor's event as parent and the outcome its creation fields name |
| `Spans.DiagnosticsLayer.VisitFields` | neurogrim/crates/neurogrim-cli/src/diagnostics_layer.rs:216-226 | The last recognised outcome among the text fields counts |
| `Spans.UnknownOutcomeExactly` | neurogrim/crates/neurogrim-cli/src/diagnostics_layer.rs:216-226 | After a last outcome field of unknown text the outcome is ok if and only if it was ok before it |
| `Spans.UnknownOutcomeDoesNotReset` | neurogrim/crates/neurogrim-core/src/diagnostics_ledger.rs:140-154 | An unknown text after `err` leaves the outcome at `err` |
| `Spans.UnknownRecordExactly` | neurogrim/crates/neurogrim-cli/src/diagnostics_layer.rs:152-163 | Recording an unknown outcome text on an open mapped span leaves it at ok if and only if it was at ok |
| `Spans.OutcomeReadBack` | neurogrim/crates/neurogrim-core/src/diagnostics_ledger.rs:131-154 | A text is read as an outcome exactly if it is how the ledger writes that outcome |
| `Spans.KindReadBack` | neurogrim/crates/neurogrim-cli/src/diagnostics_layer.rs:61-74 | Each kind of entry has exactly one span name |
| `Spans.DiagnosticsLayer.ParentEvent` | neurogrim/crates/neurogrim-cli/src/diagnostics_layer.rs:117-127 | The climb finds the nearest mapped ancestor |
| `Spans.DiagnosticsLayer.DepthBelow` | neurogrim/crates/neurogrim-cli/src/diagnostics_layer.rs:172-176 | The climb counts the mapped ancestors |
| `Spans.DiagnosticsLayer.OnRecord` | neurogrim/crates/neurogrim-cli/src/diagnostics_layer.rs:152-163 | Updates the stored outcome of a mapped span from the recorded fields |
| `Spans.DiagnosticsLayer.OnClose` | neurogrim/crates/neurogrim-cli/src/diagnostics_layer.rs:165-203 | Appends the entry of a mapped span and nothing for another |
| `Registry.LookupIgnoresOrder` | neurogrim/crates/neurogrim-brokers/src/registry.rs:343-349 | With slash-free broker ids, lookup in the cluster catalog does not depend on the map's iteration order |
| `Registry.FindAsksTheOwner` | neurogrim/crates/neurogrim-brokers/src/registry.rs:343-349 | With slash-free broker ids, lookup in the cluster catalog is lookup in the catalog of the id's first segment |
| `Registry.FullCatalogDistinct` | neurogrim/crates/neurogrim-brokers/src/registry.rs:343-380 | With slash-free broker ids, ids in the cluster catalog are globally unique |
| `Registry.OrderNeverMattersExactly` | neurogrim/crates/neurogrim-brokers/src/runner.rs:320-327 | For a set of broker ids, lookups ignore the order for all accepted catalogs if and only if no id continues another after a slash |
| `Registry.BrokerRegistry.Register` | neurogrim/crates/neurogrim-brokers/src/registry.rs:272-292 | Succeeds exactly for a declared, unregistered id with the manifest's roles; otherwise changes nothing and says which of undeclared, duplicate, unknown role and other roles is the first to apply |
| `Registry.BrokerRegistry.RegisterWithCatalog` | neurogrim/crates/neurogrim-brokers/src/registry.rs:360-380 | Succeeds exactly when the catalog is accepted and registration would; a refusal says which rule the first offending pipeline breaks, or why registration fails, and leaves no trace |
| `Registry.BrokerRegistry.RoleSetOf` | neurogrim/crates/neurogrim-brokers/src/registry.rs:187-204 | Parses the role names in order up to the first unknown one |
| `Registry.RolesReadBack` | neurogrim/crates/neurogrim-brokers/src/registry.rs:187-204 | A list of role names is read as a list of roles exactly if it is how these roles are written |
| `Registry.BrokerRegistry.Validate` | neurogrim/crates/neurogrim-brokers/src/registry.rs:296-303 | Succeeds if and only if every declared broker is registered, else names one that is not |
| `Registry.BrokerRegistry.FullCatalog` | neurogrim/crates/neurogrim-brokers/src/registry.rs:343-349 | Concatenates the catalogs in some order of the map; without slashes ids are unique and owners answer |
| `Workflows.SuspensionsConserved` | neurogrim/crates/neurogrim-brokers/src/workflow.rs:103-162 | Over every run each issued id is pending, drained or cancelled, in exactly one way and exactly once; pending and every drained batch keep suspension order |
| `Workflows.DrainExact` | neurogrim/crates/neurogrim-brokers/src/workflow.rs:134-154 | A drain takes exactly the entries whose wake condition holds |
| `Workflows.WaitsUntilDue` | neurogrim/crates/neurogrim-brokers/src/workflow.rs:103-154 | Over every run, a suspended dispatch that is not cancelled is parked, as it was given, exactly until the first drain at which it is due: any tick if it waits for one, else once its duration has passed since it was suspended |
| `Workflows.RunKeeps` | neurogrim/crates/neurogrim-brokers/src/workflow.rs:103-162 | Every suspend, drain and cancel keeps order and conservation |
| `Workflows.WorkflowEngine.SuspendDispatch` | neurogrim/crates/neurogrim-brokers/src/workflow.rs:103-122 | Appends under the next id |
| `Workflows.WorkflowEngine.DrainReady` | neurogrim/crates/neurogrim-brokers/src/workflow.rs:134-154 | The loop splits the queue into ready and kept, both in order |
| `Workflows.WorkflowEngine.CancelSuspension` | neurogrim/crates/neurogrim-brokers/src/workflow.rs:158-162 | Removes the first entry with the id and returns its dispatch |

## Left out

- In the dispatch engine the precondition language is a parameter: every theorem about dispatch holds for any decision procedure. It never returns an error, so the error branches that would propagate one are not modelled.
- Placeholders.OnePassExactly: parameter names with braces in them, which no placeholder of this syntax can name, are not covered; names are distinct, in key order or any other.
- FinalTexts.OnePassInTheEndExactly: the same restriction on parameter names.
- Preconditions.LookupPath: the JSON printer that numbers, arrays and objects are compared through is a parameter, and parameters come as a list in the order of their map.
- `LeafRun`: leaf-ops other than the Work Broker's are abstract; they can neither lower nor raise the budget and do not dispatch on their own. The Work Broker's project-root mode overwrites its state from a sensor and is not part of this model.
- `on_dispatch_complete` callbacks, durations, timestamps, `effect_class` and `tunability`.
- Trace writes are best effort in the code; here every append succeeds. The same holds for the diagnostics ledger.
- Trace ids, task ids and event ids are UUIDs; they are modelled as numbers not used before. `used` is unbounded, so wrapping of the 64-bit counter is not modelled.
- Runner.PipelineRunner.Admit: a parameter error names the pipeline, not the field and reason, because which field is reported depends on the order of the schema's keys.
- Schedules.CeilingKeptExactly: what happens between actions may put the brokers and subgates in any state, so the schedules that overshoot may pass through states a given host never reaches; subgates that judge by schema, preconditions or steps are not covered.
- Machine.AdmissionSimulated: all subgates together are one atomic action, and the frame and the registry do not change during a run.
- A registered broker without a catalog is an entry with an empty catalog in the runner's registry.
- EmitLimiter.DoKeepsInv: the limiter is a state machine over values, one peer at a time, because it is a protocol between tasks; the registry map of peers is not modelled.
- Limiters.RateLimitSubgate.Check: clock readings of one key are taken in lock order; in the code the clock is read before the lock, so two readings may be a little out of order. `now >= window` is required because the subtraction panics otherwise.
- PeerTasks.FirstPollFinds: HTTP, authentication, peer transport failures and the event endpoint are not modelled; a crash loses the maps.
- EventStream.Framer.Scan: bytes and characters are one type, so lossy UTF-8 decoding is not modelled; the JSON decoder of the envelope is a parameter.
- ColdStores.JsonlColdStore.Append: the record and its line feed appear together, and file-system errors are not modelled.
- Webhooks.SameDeliverySyncsApart: in the runs of this and the other safety theorems a delivery may be decided while a sync runs. The shipped handler awaits nothing but the request body and one worker serves it, so its runs are the serial ones; the theorems hold for them as `Webhooks.SerialIsARun` says.
- Webhooks.Storage.ReceiveLocked: the clock does not run backwards, signature, event-type and branch filters come before the modelled section, and the sync itself is only its success or failure.
- Spans.LedgerIsAForest: spans close after their children, as the span registry arranges; fields other than the outcome are not modelled.
- Registry.BrokerRegistry.Register: manifests are given as role names, loading and parsing them is not part of this model.
- Workflows.SuspensionsConserved: ids are the counter itself, not its text form, and what is suspended is opaque.
- The federated-pattern receive handler's checks around the limiter, the agent card exchange, the materializers, the command line and the user interface would add only easy members.
