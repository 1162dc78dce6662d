# OSAPI agent: a verified model

The agent of OSAPI takes jobs from a JetStream stream, runs them, and answers through a
key-value store. This project models its hard parts in Dafny and proves what holds for
every input, every interleaving and every run:

- **Job delivery** (`Delivery`, `DeliverySafety`, `DeliveryRuns`, `DeliveryFiling`,
  `DeliveryOutcome`, `DeliveryWitnesses`, `JobHandler`): one job
  message on one durable consumer, as a step machine with crashes, lost acknowledgements,
  store failures, renames and key changes between any two steps; and the handler itself as
  methods that update the agent's fields, each proved to be an undisturbed run of the machine.
- **Agent lifecycle** (`Lifecycle`, `LifecycleSafety`, `LifecycleRuns`, `AgentLifecycle`): Start, the heartbeat
  and the enrollment callback as actors whose sections under `lifecycleMu` are atomic, with
  the consumer generations they start and stop; and the same as methods of the agent.
- **`@fact.` references** (`FactStrings`, `FactEnding`, `FactRef`, `FactValues`): the rescanning
  loop against a single left-to-right pass, when it ends, and the recursion over nested parameters.
- **Audit log** (`StreamStore`, `Redaction`, `Summary`): newest-first paging, deep redaction,
  truncation on character boundaries.
- **Routing** (`Routing`, `Broadcast`): the consumers an agent asks for, the jobs that reach them,
  and who is expected to answer a broadcast.
- **Conditions** (`Conditions`): node conditions and their transition times over heartbeats.

`Base`, `Text` and `Json` hold what these share. `dafny verify dfyconfig.toml` checks all of it.

## Assumptions

- Returning nil acknowledges a message, returning an error leaves it for redelivery, and a
  termination that succeeds ends it. A message is not redelivered while its handler is alive.
- `createConsumer` succeeds, and `ConsumeJobs` returns only after its handlers have finished.
- JSON, Ed25519, the audit entry decoder and `strings.TrimSpace` are arbitrary functions. In
  `Lifecycle`, `Preflight(ok)` and the like stand for the outcome of calls to code outside the
  model; without privilege escalation preflight always succeeds.
- The audit stream's sequence numbers have no gaps. `PageBeginsRightIff` says what the page
  arithmetic does with one.
- A hostname counts by the key it is stored under (`internal/job/client/agent.go:446-452`): a
  rename that the key does not show changes nothing.

## What the code does that its comments do not say

- *Redelivery can repeat an operation.* The handler's promise holds up to an exact count:
  besides crashes and lost acknowledgements, a failed answer check and a change of hostname
  each allow one more execution, and `BoundIsTight` uses up every such allowance.
- *A rename files events away from their response.* The response goes under the hostname
  captured at `internal/agent/handler.go:425`, events under the one at the time of the write
  (`internal/agent/handler.go:128-136`): `RenameMisfilesTheEvent`. An event is misfiled exactly
  when it is written under another key than its response (`DeceptionsAreCounted`), for an
  undisturbed rest of the run exactly when the name is another than the answer's
  (`MisfiledIffAstray`), and without a rename in mid-answer never (`EventsLeadToTheirResponse`).
- *A failed event may stand beside a completed response*, when the store errs after it has
  stored (`FailedBesideCompleted`), and in no other way (`DeceptionsAreCounted`).
- *A rejected message comes back exactly if its termination fails*, since the handler returns
  an error either way: `ComesBackIff`.
- *Start can overrun a drain, or an acceptance.* A drain seen by the first registration cordons
  the agent, and Start then starts its consumers anyway (`FirstDrainIsOverrun`); an acceptance
  handled before that gives it a second generation (`EarlyAcceptanceOrphans`). The exact
  condition is in `StartEndsClean`.
- *A second acceptance orphans a generation*, and the next drain then waits with `lifecycleMu`
  held for as long as the agent lives: `SecondAcceptanceBlocksDrains`, `DrainEndsIffNothingMet`,
  `StuckForGood`.
- *The agent never assigns Draining*, although its drain check and the field's comment name it.
- *Resolving a reference need not end.* A custom fact that holds its own reference keeps the
  loop going for ever. Hygienic facts are exactly those for which the loop yields the single pass
  (`LoopIsPassIffHygienic`), and with them it ends; but it can end without. Where no value begins
  with an end of the prefix, it ends on every string exactly if no chain of references is endless
  (`EndsIffNoEndlessChain`); where values complete each other's references it can go on without
  any chain (`CompletedReferencesLoop`).
- *Paging can show an entry twice*: `AppendRepeatsAnEntry`, and `ShownOnceIff` says exactly when
  it does not.
- *No caller applies the label rules of `internal/job/subjects.go:249-267`.* Routing by a label
  is exact only within them (`ExactIff`): a wildcard or a dot in a key, or a wildcard in a value,
  hears other agents' jobs, and a key with '>' hears none. With a dotted key an agent can hear one
  job twice (`DottedKeyIsHeardTwice`). Two labels can ask for one durable consumer with two
  filters (`NamesCollide`); the consumer is created or updated (`internal/agent/consumer.go:346`),
  so one filter is lost.
- *The agents expected to answer a broadcast are not always those that take it.* They are for
  clean agents and targets without a dot in the key (`ExpectedIffTakes`), and otherwise exactly as
  far as `AgreeIffReadyIsLive` and `TargetIsJudgedIff` say.
- *An available figure above the total wraps round* to memory pressure, and only such a figure
  makes the subtraction go wrong: `UsedIsRightIff`.

## Model

| member | source | states |
|---|---|---|
| `Delivery.ParsedJob` | internal/agent/handler.go:296-337 | a job parses exactly if it is JSON with an ID and an operation type that has a dot; ID, category, operation and the verified payload are then kept, and each failure has the reason of what is missing first |
| `Delivery.PaidStep` | internal/agent/handler.go:218-589 | every step keeps the invariant behind the execution bound, paying one for an exposed interruption, a failed answer check or a rename |
| `DeliverySafety.ExecutionBound` | internal/agent/handler.go:245-258 | in every run the operation is executed at most 1 + interruptions between its start and a durable response + failed answer checks + hostname changes times; so at most once without these, even if storing the response fails |
| `DeliveryWitnesses.BoundIsTight` | internal/agent/handler.go:237-258 | for every number of interruptions, failed checks and renames there is a run that executes the operation exactly that often plus once |
| `DeliverySafety.SoundRun` | internal/agent/handler.go:218-589 | every step of every run keeps all the invariants below |
| `DeliverySafety.TerminalEventsAreBacked` | internal/agent/handler.go:497-570 | a completed or skipped event has a durable response of that status; run by run, a terminal event reports the durable response of its own run, or it is a failed event of a run whose store failed |
| `DeliverySafety.LogIsTheRuns` | internal/agent/handler.go:252-570 | the log is the events of the handler runs in order, each run a subsequence of acknowledged, started, one terminal; executions are the runs that reached the operation; answered, rejected and job-not-found runs write and execute nothing |
| `DeliverySafety.SettledIsFinal` | internal/agent/handler.go:199-215 | after a message is acknowledged or terminated nothing is executed, stored or logged for it any more |
| `DeliverySafety.OnlyAuthenticJobsRun` | internal/agent/handler.go:277-294 | with PKI every executed payload came in the job's envelope signed under a key the agent held, and an agent that never held one executes nothing; without PKI it is the job data |
| `DeliverySafety.UnwrapAuthentic` | internal/agent/handler.go:84-124 | unwrapping fails closed: only a payload signed under the current or the previous held key passes |
| `DeliveryOutcome.OpensIff` | internal/agent/handler.go:84-124 | job data opens exactly if PKI is off, or it is a complete envelope, a controller key is held, and the signature verifies under the current or the previous one; it then gives the payload |
| `DeliveryOutcome.StaysShutBecause` | internal/agent/handler.go:91-118 | and each of the three reasons is given exactly for its own failure |
| `Delivery.KeyKeeps` | internal/job/client/agent.go:446-452 | a key keeps digits, letters, underscores and hyphens in their places and has underscores elsewhere |
| `DeliveryFiling.EventsAreFiledWithTheirResponse` | internal/agent/handler.go:425-570 | terminal events filed under another key than their response are at most as many as the renames that struck while an answer was under way |
| `DeliveryFiling.EventsLeadToTheirResponse` | internal/agent/handler.go:497-570 | without such a rename every completed or skipped event has a response of its status under the very key it is filed under |
| `DeliveryFiling.DeceptionsAreCounted` | internal/agent/handler.go:505-570 | over every run, the misfiled events are exactly those written under another key than their response, and the events that contradict their run's response exactly the failures reported of a store that did store a response that is no failure |
| `DeliveryFiling.MisfiledIffAstray` | internal/agent/handler.go:425-570 | for an answer that is stored and reported, its event is misfiled exactly if the hostname's key is another than the answer's when the handler is left to itself |
| `DeliveryWitnesses.FailedBesideCompleted` | internal/agent/handler.go:505-533 | a store that errs after storing leaves a failed event beside the completed response, without any crash, rename or failed check |
| `DeliveryFiling.ComesBackIff` | internal/agent/handler.go:199-215 | after an undisturbed delivery the message is delivered again exactly if it was rejected and the termination failed, the job was not found, or the acknowledgement was lost |
| `DeliveryFiling.DeliveryIsSafe` | internal/agent/handler.go:218-589 | such a delivery keeps every invariant, executes the operation at most once, not at all when the check finds an answer, and uses up only its own excuses |
| `DeliveryOutcome.DeliveryComesTo` | internal/agent/handler.go:218-589 | for every stored state and every answer of the environment, the steps of one delivery come to exactly this end, execution, response, events and message |
| `DeliveryOutcome.ExecutesIff` | internal/agent/handler.go:237-444 | it runs the operation, once and with the verified payload, exactly if the check found no answer or erred, the subject parses, the data is there, opens and holds a job, and the facts resolve |
| `DeliveryOutcome.FailedFactsRunNothing` | internal/agent/handler.go:434-444 | facts that do not resolve keep the operation from running, and what is stored and reported is a failure |
| `DeliveryOutcome.AnswersWithTheOutcome` | internal/agent/handler.go:447-478 | otherwise completed, skipped or failed is stored as the operation succeeded, was unsupported or erred |
| `DeliveryWitnesses.RenameMisfilesTheEvent` | internal/agent/handler.go:425-425 | one rename during the operation, to any name with another key: a completed event under a key that has no response |
| `DeliveryRuns.DrivenIsRun` | internal/agent/handler.go:218-589 | an undisturbed pass of the handler is a run of the machine, excused by nothing but its answer check |
| `JobHandler.Agent.constructor` | internal/agent/agent.go:45-139 | a new agent and a new message are an initial state |
| `JobHandler.Agent.Consume` | internal/agent/consumer.go:287-297 | one delivery without disturbance takes the state where the machine takes it, acknowledgement included; it keeps the invariants and executes at most once, not at all when answered |
| `JobHandler.Agent.Rename` | internal/agent/heartbeat.go:86-97 | the hostname change of the heartbeat is the machine's rename |
| `JobHandler.Agent.HandleJobMessage` | internal/agent/handler.go:218-589 | the handler's fields end where the machine's undisturbed run ends, for every answer of the environment |
| `JobHandler.Agent.Admit` | internal/agent/handler.go:222-337 | the checks either end the run as the machine does or leave a job to process |
| `JobHandler.Agent.CheckForResponse` | internal/agent/handler.go:237-258 | answered exactly if the check succeeded and found a response under the current hostname; a failed check fails open |
| `JobHandler.Agent.AdmitData` | internal/agent/handler.go:277-337 | envelope and job checks in the code's order, each failure terminating the message with its own reason |
| `JobHandler.Agent.TerminateMessage` | internal/agent/handler.go:199-215 | the error comes back whether or not the termination succeeded, and only a success ends the message |
| `JobHandler.Agent.Process` | internal/agent/handler.go:366-478 | events, fact resolution and operation leave the state and response of the machine's run |
| `JobHandler.Agent.Execute` | internal/agent/handler.go:424-478 | failed facts give a failed response without an execution; otherwise one execution, answered under the captured hostname |
| `JobHandler.Agent.Respond` | internal/agent/handler.go:497-588 | response first, then the terminal event; a failed store writes a failed event and still returns nil |
| `JobHandler.Agent.WriteStatusEvent` | internal/agent/handler.go:126-136 | an event is appended under the current hostname's key, or nothing changes |
| `LifecycleSafety.InvRun` | internal/agent/server.go:37-121 | every interleaving of Start, heartbeats, acceptances, shutdowns and crashes keeps the lifecycle invariants |
| `LifecycleSafety.StartEndsClean` | internal/agent/server.go:106-117 | over all interleavings Start ends clean (Ready with one generation, or Pending with none) exactly when no drain check drained the agent and no acceptance was handled before Start was through with its consumers |
| `LifecycleRuns.FirstDrainIsOverrun` | internal/agent/server.go:106-115 | with the flag set at the first registration Start leaves a Cordoned agent that consumes |
| `LifecycleRuns.EarlyAcceptanceOrphans` | internal/agent/enrollment.go:102-105 | an acceptance handled before Start's consumer decision: Start ends Ready with a generation nobody can cancel |
| `LifecycleRuns.SecondAcceptanceBlocksDrains` | internal/agent/enrollment.go:279-284 | the same acceptance twice, and the next drain waits with the lock held |
| `LifecycleSafety.StaysCleanIff` | internal/agent/drain.go:53-76 | after a clean start Ready means exactly one live generation and Cordoned or Pending none, through all drains, undrains and acceptances, for exactly as long as no acceptance is handled while Ready |
| `LifecycleSafety.FollowsTheFlag` | internal/agent/drain.go:55-76 | over every run without a new acceptance, a clean enrolled agent is Ready with its one generation exactly if the last heartbeat saw no flag, and otherwise Cordoned with none; without a heartbeat it stays what it was |
| `LifecycleSafety.LiveGenerations` | internal/agent/consumer.go:264-285 | live generations are the one the handle reaches, if live, plus the orphans |
| `LifecycleSafety.OrphanStep` | internal/agent/consumer.go:264-285 | a step orphans the reached generation exactly when it starts another over it, and removes no orphan |
| `LifecycleSafety.OrphansAccumulate` | internal/agent/consumer.go:264-285 | while the agent context lives there is one orphan for every start that met a live generation |
| `LifecycleSafety.DrainEndsIffNothingMet` | internal/agent/consumer.go:272-285 | over all runs without an orphan at the start, a drain of the Ready agent returns, Cordoned with nothing live, exactly if no start has met a live generation |
| `LifecycleSafety.StuckForGood` | internal/agent/consumer.go:276-285 | a drain that waits keeps the lock until the agent context ends: no section under it runs |
| `LifecycleSafety.ShutdownReleases` | internal/agent/consumer.go:280-285 | the end of the agent context ends every generation and with them the waiting drain, which then cordons |
| `LifecycleSafety.ReadyHasKey` | internal/agent/enrollment.go:257-284 | past enrollment an agent with PKI that is not Pending has a controller key in memory and on disk, the same one unless a later acceptance is being saved or could not be |
| `LifecycleSafety.PendingIffNeverSaved` | internal/agent/enrollment.go:78-111 | an agent with PKI is Pending after enrollment exactly when no acceptance was saved before it booted or the saved key could not be read |
| `LifecycleSafety.CrashKeepsTheKey` | internal/agent/enrollment.go:78-111 | a crash at any step keeps the key file, which exists exactly if some acceptance was saved |
| `LifecycleSafety.PendingKeepsAsking` | internal/agent/enrollment.go:130-148 | until it is accepted the agent stays Pending and asks once for every heartbeat, that of the one in progress excepted |
| `LifecycleSafety.AsksAreCounted` | internal/agent/enrollment.go:95-148 | over every run a request goes out once from a Start that finds no key, once for every heartbeat retry while Pending, and at no other time |
| `LifecycleSafety.NeverDraining` | internal/agent/drain.go:68-68 | no reachable state is Draining |
| `LifecycleRuns.TickIsRun` | internal/agent/heartbeat.go:99-100 | an undisturbed heartbeat is a run of the machine |
| `LifecycleRuns.AcceptIsRun` | internal/agent/enrollment.go:235-290 | an undisturbed enrollment callback is a run of the machine |
| `LifecycleRuns.StartIsRun` | internal/agent/server.go:37-121 | an undisturbed Start is a run of the machine, with every early return |
| `LifecycleRuns.StartAloneEnds` | internal/agent/server.go:37-121 | it ends Pending without consumers when PKI is on and no saved key was read, listening if it could subscribe, otherwise with one generation and the saved key, and Ready unless the drain flag was set |
| `LifecycleRuns.GivesUpIff` | internal/agent/server.go:46-100 | Start gives up, with nothing running, exactly if the identity, the agent's keys, an unparsable key file or the preflight checks stop it |
| `LifecycleRuns.AcceptanceComesTo` | internal/agent/enrollment.go:235-290 | a rejection changes nothing, an acceptance that cannot be saved only the key in memory, a saved one makes the agent Ready with that key in memory and on disk and one more generation |
| `AgentLifecycle.Agent.SetState` | internal/agent/consumer.go:244-254 | only the state changes |
| `AgentLifecycle.Agent.StartConsumersLocked` | internal/agent/consumer.go:264-270 | a new generation and the only handle to it; the handle to the old one is lost |
| `AgentLifecycle.Agent.StopConsumersLocked` | internal/agent/consumer.go:272-285 | the reached generation ends; the call returns exactly if no other is live |
| `AgentLifecycle.Agent.HandleDrainDetection` | internal/agent/drain.go:43-77 | state, handle and generations change as the drain section says |
| `AgentLifecycle.Agent.HeartbeatTick` | internal/agent/heartbeat.go:84-101 | drain check, then the retry unless the check is stuck; the lifecycle invariants are kept |
| `AgentLifecycle.Agent.RetryEnrollmentIfPending` | internal/agent/enrollment.go:130-148 | publishes once more exactly if Pending |
| `AgentLifecycle.Agent.HandleEnrollmentResponse` | internal/agent/enrollment.go:235-290 | a rejection changes nothing; an acceptance puts the key into memory, then on disk, and only then makes the agent Ready and starts a generation; the lifecycle invariants are kept |
| `AgentLifecycle.Agent.HandlePKIEnrollment` | internal/agent/enrollment.go:48-111 | with a saved key that is read the agent goes on, with one that does not parse Start gives up, with none or an unreadable one it asks, listens and becomes Pending |
| `AgentLifecycle.Agent.Start` | internal/agent/server.go:37-121 | every field ends where the machine's undisturbed Start ends, early returns included; the lifecycle invariants are kept |
| `FactStrings.LoopIsPass` | internal/agent/factref.go:91-125 | with hygienic facts the rescanning loop ends on every string within as many turns as it has characters, with the result of one left-to-right pass |
| `FactStrings.LoopIsPassIffHygienic` | internal/agent/factref.go:101-122 | the loop yields the single pass on every string exactly if the facts are hygienic: no value holds the prefix or begins with the end of one |
| `FactStrings.Spoiler` | internal/agent/factref.go:101-122 | for unhygienic facts, a string on which it does not |
| `FactStrings.SelfReferenceLoops` | internal/agent/factref.go:101-122 | a value that is its own reference is rewritten for ever |
| `FactStrings.ResolvedIsFree` | internal/agent/factref.go:96-124 | a resolved string holds no reference, and resolving it again changes nothing |
| `FactStrings.PassDistributes` | internal/agent/factref.go:103-111 | around any delimiter both sides resolve on their own: success exactly if both succeed, and then the results with the delimiter between them |
| `FactStrings.DelimitersAre` | internal/agent/factref.go:104-111 | the delimiters are the space, both quotes, the comma and the semicolon |
| `FactEnding.PassAtReference` | internal/agent/factref.go:101-122 | text without a reference, a reference, then nothing or a delimiter: the text and the value, followed by what the pass makes of the rest, or the failure of the reference as written |
| `FactStrings.EndsOnce` | internal/agent/factref.go:101-122 | the loop's outcome does not depend on how many turns are allowed |
| `FactEnding.LoopDistributes` | internal/agent/factref.go:101-122 | whatever the facts, around a delimiter the loop does not end if it does not on the left side, fails if that fails, and otherwise does what it does on the right side, with the left's result before it |
| `FactEnding.EndsIffNoEndlessChain` | internal/agent/factref.go:101-122 | where no value begins with an end of the prefix, the loop ends on every string exactly if some number goes down along every chain of references reached before a failure |
| `FactEnding.ReachedEnds` | internal/agent/factref.go:101-122 | a text resolved in n turns resolves each reference it reaches in n turns |
| `FactEnding.CompletedReferencesLoop` | internal/agent/factref.go:101-122 | for any way to cut the prefix in two, two values that complete each other's references are rewritten for ever |
| `FactStrings.OutcomeIsFree` | internal/agent/factref.go:96-124 | with any facts: where the loop ends with a text, that holds no reference and resolves to itself |
| `FactRef.ResolveString` | internal/agent/factref.go:91-125 | on every string on which the loop ends, the method returns the loop's outcome, and with hygienic facts that of the single pass |
| `FactRef.RewriteFirst` | internal/agent/factref.go:102-121 | one turn replaces the first reference by its value or fails with reference and cause |
| `FactRef.EndOfReference` | internal/agent/factref.go:104-111 | a reference ends at the next delimiter or at the end of the text |
| `FactRef.BuiltInKeysName` | internal/agent/factref.go:137-169 | each built-in key gives its own field, or that it is not set exactly if the field is empty |
| `FactRef.OtherKeysName` | internal/agent/factref.go:170-184 | a custom key gives the fact behind its prefix or that it is not found, and any other key is unknown |
| `FactRef.NoFactsYet` | internal/agent/factref.go:133-135 | without facts every key fails with that |
| `FactRef.ReferenceBecomes` | internal/agent/factref.go:91-125 | a reference by itself becomes the value its key names, or fails with the reference and the cause |
| `FactRef.HygieneIsCheckable` | internal/agent/factref.go:128-185 | the agent's facts are hygienic exactly if its built-in values and its custom ones are clean, which can be checked before any job |
| `FactRef.DotlessIsClean` | internal/facts/keys.go:42-42 | a value without a dot is clean for the prefix "@fact." |
| `FactRef.CustomSelfReferenceLoops` | internal/agent/factref.go:170-181 | a custom fact that holds its own reference loops for any number of turns |
| `FactValues.ResolveFacts` | internal/agent/factref.go:34-53 | nil stays nil; where the loops end, success exactly with every string at every depth resolved, failure with the failure of some string in it |
| `FactValues.ResolveFields` | internal/agent/factref.go:43-52 | the same for a map in any iteration order |
| `FactValues.ResolveValue` | internal/agent/factref.go:56-71 | the same for any value |
| `FactValues.ResolveSlice` | internal/agent/factref.go:74-88 | the same for a slice, lengths kept |
| `FactValues.ResolvableIffLeaves` | internal/agent/factref.go:34-88 | resolution succeeds exactly if the string at every path can be resolved |
| `FactValues.ResolvableOrFails` | internal/agent/factref.go:34-88 | a resolution that ends succeeds exactly if no string in the value fails |
| `FactValues.HygieneTerminates` | internal/agent/factref.go:34-125 | with hygienic facts every resolution ends |
| `FactValues.FailureIsALeaf` | internal/agent/factref.go:34-88 | a reported failure is that of a string at some path |
| `FactValues.ResolvedAt` | internal/agent/factref.go:34-88 | at every path: same keys, same length, the resolved string, or the same leaf |
| `FactValues.ResolvingTwice` | internal/agent/factref.go:34-88 | resolving a resolved value changes nothing |
| `StreamStore.Reader.List` | internal/audit/stream_store.go:114-188 | the decodable part of the newest-first log from offset on up to offset + limit, cut to what there is, and the total; nothing when the offset is past it |
| `StreamStore.Reader.ListAll` | internal/audit/stream_store.go:191-244 | the decodable part of the whole log, newest first |
| `StreamStore.Reader.DecodeBatch` | internal/audit/stream_store.go:159-172 | entries in the order of the batch, undecodable messages skipped |
| `StreamStore.ReverseInPlace` | internal/audit/stream_store.go:183-185 | the slice reversed in place |
| `StreamStore.FirstOfPage` | internal/audit/stream_store.go:139-145 | where a page starts |
| `StreamStore.StartSeqInRange` | internal/audit/stream_store.go:139-145 | for any first sequence number the uint64 subtractions come out right and start no earlier than the first message, and within the stream for any offset from zero on |
| `StreamStore.ReversedDecoded` | internal/audit/stream_store.go:159-185 | reversing the entries is decoding the reversed messages |
| `StreamStore.DecodedOne` | internal/audit/stream_store.go:159-172 | a message is one entry, or none if it does not decode |
| `StreamStore.DecodedAppend` | internal/audit/stream_store.go:159-172 | the entries of two batches are those of one and then those of the other |
| `StreamStore.PageBeginsRightIff` | internal/audit/stream_store.go:133-145 | on a log with gaps a page begins at the message it should exactly if there is no gap among the older ones |
| `StreamStore.PagesAreTheList` | internal/audit/stream_store.go:112-244 | on a log at rest the pages at offsets 0, limit, 2 limit, ... concatenate to ListAll |
| `StreamStore.PagingNeverSkips` | internal/audit/stream_store.go:124-145 | stepping by limit until the offset reaches the total, with any appends and discards between the calls, shows every decodable entry that was there throughout |
| `StreamStore.PageIsItsMessages` | internal/audit/stream_store.go:139-188 | a page is the decodable ones of exactly the messages it shows, each once, newest first |
| `StreamStore.ShownAfterIff` | internal/audit/stream_store.go:124-145 | during a scan, an entry is shown again after a call exactly if by some later call as many entries have come in before it as that call's offset |
| `StreamStore.ShownOnceIff` | internal/audit/stream_store.go:124-145 | it is shown only once exactly if that never happens after the call that shows it |
| `StreamStore.QuietScansShowOnce` | internal/audit/stream_store.go:124-145 | if nothing comes in between the calls, every entry that stays is shown by exactly one, whatever is discarded |
| `StreamStore.AppendRepeatsAnEntry` | internal/audit/stream_store.go:139-145 | a scan with one append, for any entry and any decoder, that shows the entry on two pages |
| `Redaction.RedactValue` | internal/audit/summary.go:114-143 | the method computes the redaction |
| `Redaction.RedactFields` | internal/audit/summary.go:118-131 | for a map, in any iteration order |
| `Redaction.RedactItems` | internal/audit/summary.go:132-139 | for a slice |
| `Redaction.SensitiveNamesAre` | internal/audit/summary.go:47-59 | in lower case the sensitive names are the eleven listed ones, as a whole |
| `Redaction.CaseDoesNotMatter` | internal/audit/summary.go:39-40 | names that differ only in case are judged alike |
| `Redaction.SensitiveLetters` | internal/audit/summary.go:122-122 | no sensitive name holds any but ASCII letters, underscores and the two letters whose lower case is ASCII |
| `Redaction.PublicPathsAreKept` | internal/audit/summary.go:114-143 | along every path without a sensitive field the structure and the leaves are kept, nothing added or dropped |
| `Redaction.SensitivePathsAreCut` | internal/audit/summary.go:121-125 | at any depth a sensitive field stays, holds the marker, and has nothing below it |
| `Redaction.RedactingTwice` | internal/audit/summary.go:114-143 | redaction is idempotent |
| `Redaction.RedactedSameIff` | internal/audit/summary.go:110-143 | two values redact to the same one exactly if they look the same along every public path: sensitive values do not influence the result, and nothing else is lost |
| `Summary.TruncateTo` | internal/audit/summary.go:154-168 | a text that fits is kept; of a longer one the longest part within n bytes that ends where a character does, and the suffix behind it |
| `Summary.Cut` | internal/audit/summary.go:162-165 | that place: nothing between it and n is a place to cut |
| `Summary.MaskIsTail` | internal/audit/summary.go:172-177 | the mask picks out exactly the bytes UTF-8 allows after the first of a character (section 4 of RFC 3629) |
| `Summary.ValidPrefixIff` | internal/audit/summary.go:170-177 | a prefix of valid UTF-8 is valid exactly if no character is cut in two |
| `Summary.CutIsTheBest` | internal/audit/summary.go:154-168 | for valid text the cut is at most three bytes below n, leaves valid text, and no longer prefix within n is valid |
| `Summary.TruncatedIsText` | internal/audit/summary.go:145-168 | the result is valid UTF-8 of at most n + 14 bytes, and longer than n exactly if the text was cut |
| `Summary.Summarize` | internal/audit/summary.go:67-96 | the method computes the summary byte for byte, branch by branch |
| `Summary.SummarySays` | internal/audit/summary.go:62-112 | case by case: nothing, kind and size, unparsable or unsummarizable and size, or the encoded redaction, cut off at 2048 bytes if it does not fit |
| `Summary.DecimalDenotes` | internal/audit/summary.go:76-92 | sizes are written in decimal digits that denote them, most significant first, without a leading zero |
| `Summary.DescribeContentType` | internal/audit/summary.go:98-112 | the trimmed part before the first semicolon, capped at 64 bytes |
| `Summary.SecretsStayOut` | internal/audit/summary.go:62-96 | two JSON bodies that agree outside their sensitive fields have the same summary, except for the size reported when encoding fails |
| `Summary.MessageTellsSize` | internal/audit/summary.go:75-93 | messages of one kind differ exactly if the sizes in them do |
| `Summary.SummariesAreBounded` | internal/audit/summary.go:28-36 | whatever the request, at most 2048 + 14 bytes, and at most 64 + 14 + 29 for a body that is not JSON |
| `Summary.SummariesAreText` | internal/audit/summary.go:145-177 | a summary is valid UTF-8 if what the encoder and the trimming give is |
| `Routing.BuildConsumers` | internal/agent/consumer.go:53-97 | the three standard consumers and exactly one for every prefix of every label value, whatever the map order |
| `Routing.AddLabel` | internal/agent/consumer.go:77-97 | the inner loop: one consumer for each prefix of one label value |
| `Routing.OnlyAnyIsShared` | internal/agent/consumer.go:57-66 | of all an agent's consumers exactly the one for any agent is in the queue group |
| `Routing.NamesSayWhich` | internal/agent/consumer.go:58-69 | the standard filters stand under the names that say which they are |
| `Routing.StandardJobsAreDelivered` | internal/agent/consumer.go:57-69 | a job for any agent or for all reaches exactly its one consumer, a direct one exactly that of the machine it names |
| `Routing.NameKeeps` | internal/job/subjects.go:236-244 | a sanitized name keeps digits, letters and underscores in their places and has underscores elsewhere |
| `Routing.LabelSubjectsDiffer` | internal/job/subjects.go:287-302 | label subjects are the same exactly if key and value are |
| `Routing.PrefixIff` | internal/agent/consumer.go:77-80 | a string is one of the prefixes exactly if its segments begin the value's |
| `Routing.FiltersAreDistinct` | internal/agent/consumer.go:53-97 | if no key continues another behind a dot, no two consumers have the same filter |
| `Routing.FiltersMeetIff` | internal/agent/consumer.go:77-94 | labels of two keys can have one filter exactly if one key continues the other behind a dot |
| `Routing.DottedKeyIsHeardTwice` | internal/agent/consumer.go:77-94 | labels with which any agent has two consumers with one filter |
| `Routing.LabelJobsFindTheirAgents` | internal/agent/consumer.go:72-97 | the subject of a label job is the filter of exactly one consumer if the agent has the label and the job's segments begin its value, and of none otherwise |
| `Routing.LabelJobsAreDelivered` | internal/agent/consumer.go:173-194 | the same for NATS matching, with labels free of wildcards |
| `Routing.ExactIff` | internal/job/subjects.go:249-267 | for every label, routing is exact for all jobs exactly if its key is one token and neither key nor value holds a wildcard, or its key holds '>' and hears nothing |
| `Routing.ExpectedIff` | internal/job/subjects.go:371-381 | the controller's string-prefix test of a label value asks exactly whether the segments begin the agent's |
| `Broadcast.TargetComesBack` | internal/job/subjects.go:271-285 | a target is for any or for all exactly if it is that word, a label exactly if it has a colon, which then divides it, and otherwise a host |
| `Broadcast.TargetReaches` | internal/job/subjects.go:290-302 | the subject of a target without a colon is heard by every agent for the two special ones, and otherwise exactly on machines of that sanitized name |
| `Broadcast.LabelTargetReaches` | internal/job/subjects.go:290-302 | that of a label with a one-token key exactly by agents whose value is the target's or continues it behind a dot |
| `Broadcast.CountExpectedAgents` | internal/job/subjects.go:350-383 | the number of agents that can receive jobs and are targeted |
| `Broadcast.WhoIsExpected` | internal/job/subjects.go:332-383 | only Ready agents are; for all every one, for a label exactly those whose value is the target's or continues it behind a dot, for any or a host nobody |
| `Broadcast.TargetedIffMatched` | internal/job/subjects.go:371-381 | an agent with one-token keys and no wildcards is targeted, by all or by label, exactly if a consumer of its matches the subject |
| `Broadcast.ExpectedIffTakes` | internal/job/subjects.go:332-383 | for a clean agent with any labels: expected to answer exactly if it takes the job |
| `Broadcast.AgreeIffReadyIsLive` | internal/job/subjects.go:332-345 | for a targeted agent in any state: they agree exactly if it is Ready exactly when it consumes |
| `Broadcast.TargetIsJudgedIff` | internal/job/subjects.go:371-381 | counting and routing agree on a label target for all agents exactly if its key has no dot |
| `Routing.KindsAreApart` | internal/agent/consumer.go:133-194 | under any namespace no query consumer shares its filter or its name with a modify consumer |
| `Routing.NamesMeetIff` | internal/agent/consumer.go:87-93 | labels of two keys can ask for the same durable name exactly if one key is the other, an underscore and more |
| `Routing.NamesCollide` | internal/agent/consumer.go:87-94 | labels with which any agent asks for one durable name with two filters |
| `Routing.NamesAreDistinct` | internal/agent/consumer.go:77-97 | if no key extends another so, every label consumer has its own name |
| `Delivery.OperationTypeComesBack` | internal/agent/handler.go:329-337 | an operation type has two segments exactly if it has a dot, and category, dot and operation then rebuild it |
| `Text.JoinSplit` | internal/agent/consumer.go:78-80 | joining the segments of a string gives it back |
| `Text.SplitJoin` | internal/agent/consumer.go:78-80 | splitting joined dot-free segments gives them back |
| `Conditions.FindPrevCondition` | internal/agent/condition.go:35-45 | the first condition of the type, if any |
| `Conditions.TransitionTime` | internal/agent/condition.go:49-60 | the old time if the status is the same, otherwise the clock's |
| `Conditions.RaisedIff` | internal/agent/condition.go:62-138 | in whole numbers: memory and disks strictly above their percentage of a size that is not zero, load strictly above CPUs times multiplier, and never without a reading |
| `Conditions.ReasonTells` | internal/agent/condition.go:76-131 | a condition has a reason exactly if it is raised: total and used memory, load and limit, or the first disk above the threshold |
| `Conditions.EvaluateMemoryPressure` | internal/agent/condition.go:62-85 | raised exactly above the threshold, with uint64 subtraction, and explained by the figures that raised it |
| `Conditions.EvaluateHighLoad` | internal/agent/condition.go:87-108 | raised exactly above CPUs times multiplier, never without a reading or CPUs |
| `Conditions.EvaluateDiskPressure` | internal/agent/condition.go:110-138 | raised exactly if some disk with a size is above the threshold, and the reason names the first |
| `Conditions.Agent.WriteConditions` | internal/agent/heartbeat.go:154-177 | the three conditions of a heartbeat, all against the previous ones, replace them |
| `Conditions.EachKindOnce` | internal/agent/heartbeat.go:159-177 | after the first heartbeat each type is there exactly once |
| `Conditions.SinceStartOfStretch` | internal/agent/condition.go:47-60 | over every sequence of heartbeats the transition time is the clock reading at the first heartbeat of the current stretch of equal statuses |
| `Conditions.MovesOnFlipsOnly` | internal/agent/condition.go:47-60 | it moves exactly at a flip, to the reading of the flip, and never backwards under a monotone clock |
| `Conditions.UsedIsRightIff` | internal/agent/condition.go:72-74 | the subtraction decides the condition as exact arithmetic would, exactly if no more is available than there is |

## Left out

- FactValues.ResolveFacts: asks that the loop ends on every string reached before a failure, and with it ResolveFields, ResolveValue and ResolveSlice, because the code does not end otherwise.
- StreamStore.Reader.List: where the log is read it asks for a limit of at least one, because what the client library makes of a count of zero is not part of this model and a negative one panics, and for numbers that fit their Go types; the audit API admits limits of 1 to 100.
- Conditions.EvaluateMemoryPressure: percentages are real numbers, so float64 rounding at the threshold is not modelled; the reason is kept as its figures.
- Conditions.EvaluateHighLoad: as EvaluateMemoryPressure.
- Conditions.EvaluateDiskPressure: as EvaluateMemoryPressure.
- Routing.LabelJobsAreDelivered: labels with wildcards are excluded there; ExactIff says what they do.
- JobHandler and AgentLifecycle describe methods that nothing interrupts; interference and crashes are in the machines they are proved to follow, not in the methods.
- Several messages or several durable consumers at once: the delivery machine follows one message. A message whose label and direct consumers both fire is out.
- JetStream's MaxDeliver, BackOff and AckWait, the in-progress keepalive and all real time: covered by the assumption that a message is not redelivered while its handler lives.
- Expiry of job data and responses in the key-value store.
- What a job does: the operation, the providers and their dispatch are one abstract outcome; whether facts resolve is an answer of the environment in the delivery machine.
- classifyProviderError, extractChanged, metrics, tracing and logging.
- The envelope's JSON, the signature scheme and the key manager, beyond which keys are held.
- Failures of the stream calls in List and ListAll, which return the error and no entries, and batches that a fetch timeout cuts short.
- Changes of the stream within one List call.
- Failures of createConsumer, which are logged and skipped.
- Custom facts hold text; the formatting of other values is not modelled.
- The process conditions of the heartbeat, and the registration it writes and signs.
- The controller: enrollment decisions, target resolution, key rotation.
- The command line, the API handlers and the user interface.
