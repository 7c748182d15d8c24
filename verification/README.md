# TaskWeavn, verified

A Dafny model of the state machines at the core of the TaskWeavn agent runtime, with proofs of what they promise over
every run, every interleaving and every command history. `dafny verify dfyconfig.toml` checks all of it.

| part | modules |
|---|---|
| the gated agent loop with deferral, its gate and wait coordinator, the derived session status | `AgentLoop`, `LoopModel`, `Autonomy`, `Transcript`, `SessionStatus` |
| the message stream and the condition-variable bus | `MessageStream`, `Bus` |
| cache-aware context assembly, candidate selection, truncation | `ContextProvider`, `Policy` |
| durable stores against their simple versions | `Ask`, `AskSqlite`, `EventReplay`, `IsoTime`, `Publish` |
| the retry engine | `Retry` |
| shared vocabulary, stable sorting, text order | `Common`, `Sorting`, `TextOrder` |

**How the loop is modelled.** `AgentLoop` is a class with the fields of the original. The LLM, the runtime, the
auditor, the risk and confidence oracles, the interrupt checker and everybody else who publishes on the bus are
unconstrained choices (`:= *`), taken anew at every call, and other publishers may act between any two steps. What `Run`
ensures therefore holds of every run. Ghost fields record the hand-offs to the runtime (each with the message table of
that moment), the message lists sent to the LLM and its replies, the waits on the bus, the questions to the interrupt
checker and the moment an interrupt was observed. The runtime, the auditor and the event stream do not raise, which the
loop itself relies on; a publish on a closed bus and an invalid confidence do raise, and end the run through the
shutdown drain.

**How the bus is modelled.** Every block that holds the condition is one step of `Bus.Next`; a run is any sequence of
steps of any threads, spurious wakeups and clock ticks included. The class methods perform those steps with the loops of
the original. `AgentLoop.WaitForResponse` has the contract that `Bus.WaitReturns` proves of the bus.

**How SQLite is modelled.** As tables with their keys: maps from the primary key, or sequences in row id order where the
order matters; text comparison is by code point, and `IsoTime` proves that on `isoformat()` text it is time order.

**Assumptions.** Random ids are new and name-based task ids injective; the stable-prefix hash and the request hash are
arbitrary functions; risk scores and delays are reals; rendered prose, prompts and JSON texts are opaque values that
decode to what was encoded; an assistant message carries the tool calls of its response; the gate and the wait
coordinator share one behaviour; a letter beyond ASCII other than the Kelvin sign lowers to text that is not ASCII;
timestamps are UTC.

**Where the code and its documentation differ.** The model follows the code, and gives the exact condition.
`iter_for_task` is documented as insertion order and returns timestamp order (`EventReplay.TimelineIsInsertionOrderIff`).
A session whose last task finished is not `finished` when an entry still queued was answered before the shutdown drain, which takes a
configuration that can defer (`SessionStatus.StatusAfterRun`, `SessionStatus.LateReplyHidesTheFinish`). Checkpoint gaps of at most the interval need an interval
of 2 or more (`ContextProvider.CheckpointGapsIff`). A publish that repeats the writes after a crash reports `pending`
whatever its task has come to (`Publish.RepublishSaysPending`); one that died right after the record loses the
`task.accepted` event for good (`Publish.EventLostIff`, `Publish.AcceptedEventLostForever`); a key can get two bus tasks
(`Publish.TwoTasksIff`); and scoped keys of different requesters can coincide (`Publish.ScopedKeySharedIff`). The SQLite
ASK store differs from the in-memory one on shared ids and empty reasons, and only there (`AskSqlite.RelatedIff`).

## Model

| member | source | states |
|---|---|---|
| `AgentLoop.AgentLoop.Run` | src/taskweavn/core/loop.py:267-322 | For every run: each action handed to the runtime that the gate must ask about (trigger always, or on_risk with any one link at the threshold), under async or timeout skip/wait, had a stored non-rejecting canonical reply to its own actionable; actions appended = actions resolved + queue length, at the end and at every recorded point (each safe point, after each tool call, after the last drain); no action runs twice or is queued after it ran; every list sent to the LLM is protocol-complete, extends all earlier ones and carries one prefix hash; an observed interrupt means nothing is handed off afterwards and no shutdown drain; the run ends interrupted iff the checker showed an intent and with a check error iff it raised; without an interrupt the last drain resolves every queued entry whose reply was stored when the steps ended, and something only if an entry has a reply by the end; a finish is the last event iff it resolved nothing; a configuration that never defers queues nothing; every reply of the model but the last calls tools and not the finish tool, and the stop reason and step count follow from the last one, from the checker or the context build, or from all steps being used; without a provider the first list sent is the system prompt and the task; with a provider the checkpoints are on schedule over the calls prepared and the context messages inserted are counted |
| `AgentLoop.AgentLoop.LastDrain` | src/taskweavn/core/loop.py:304-315 | After an interrupt nothing is drained; otherwise what stays queued had no reply when the steps ended, and a resolution leaves an event behind that is no finish |
| `AgentLoop.AgentLoop.RunInner` | src/taskweavn/core/loop.py:324-520 | From a fresh run on the invariant is kept, one call per step, at most max_steps steps; every reply but the last was one to go on after, and the stop reason and step count follow from the last one, the checker or the build, or all steps were used; without a provider the first list sent is the system prompt and the task |
| `AgentLoop.AgentLoop.Step` | src/taskweavn/core/loop.py:330-513 | A step makes one call, or none if the checker or the context build ends the run before it; it goes on only after a reply that calls tools and not the finish tool, with a complete transcript that extends what was sent; otherwise it stops for what the checker, the build or the model's reply of this step says |
| `AgentLoop.AgentLoop.Prepare` | src/taskweavn/core/loop.py:331-358 | Three safe points, the drain and the context build before a call: no entry still queued had a reply when the step began; the transcript handed on is complete, after the first call extends the old one, and without a provider and a queue is the loop's own |
| `AgentLoop.AgentLoop.PrepareCall` | src/taskweavn/core/loop.py:769-809 | Without a provider the loop's own messages go out; with the cache-aware one the messages stay complete, never shrink after the first call, the reported hash is that of the first prefix, and the run's checkpoints and count of inserted messages stay on schedule |
| `AgentLoop.AgentLoop.AskProvider` | src/taskweavn/core/loop.py:774-806 | The call made and the provider's new entry are those its specification gives for this step, this transcript and the number of queued actions |
| `AgentLoop.AgentLoop.Chat` | src/taskweavn/core/loop.py:360-404 | The step goes on iff the model replied; a failure ends the run as a timeout or an error after its kind, unless the checker, asked after a timeout only, ends it first |
| `AgentLoop.AgentLoop.Respond` | src/taskweavn/core/loop.py:406-426 | The reply joins the transcript with its call ids; the step goes on only after a reply with calls none of which is the finish tool, and then the transcript is complete again; a reply without calls ends the run |
| `AgentLoop.AgentLoop.HandleCalls` | src/taskweavn/core/loop.py:428-513 | Over all calls of a reply, across error, skip, defer and run branches, the outstanding calls are answered one by one in order; the run goes on only if none of them is the finish tool, and stops because of one of them |
| `AgentLoop.AgentLoop.HandleToolCall` | src/taskweavn/core/loop.py:428-513 | The finish tool ends the run; a name that is not registered or arguments that do not parse are refused with one error event and nothing handed off or queued; any other call becomes an action with the call's own fields: without a gate and below it the action is handed off, an action to ask about is queued under async, and under sync it is handed off or skipped for a stated reason; if the run stops, the call says why |
| `AgentLoop.AgentLoop.HandleAction` | src/taskweavn/core/loop.py:447-513 | A built action: an interrupt at the safe point comes before anything is published or waited for; without a gate or below it the action is handed off, observed and audited if due; under async an action to ask about is queued and under sync handed off or skipped with its reason; the run stops as raised only on a closed bus or a confidence out of range |
| `AgentLoop.AgentLoop.RunTool` | src/taskweavn/core/loop.py:496-513 | The action and its observation are appended, then the audit iff one is due; the run waits for the user iff the observation does, and else passes a safe point |
| `AgentLoop.AgentLoop.MaybeAudit` | src/taskweavn/core/loop.py:1000-1024 | One audit event and one system message that shows it iff there is an auditor, the action is code and the observation is a code result; else nothing |
| `AgentLoop.AgentLoop.Dispatched` | src/taskweavn/core/loop.py:465-513 | Proceed hands the action off exactly once and queues nothing; defer queues exactly this action with its actionable and runs nothing; skip does neither; each leaves its own events; a gate that raised ends the run, and else only a run action that waits for the user or the safe point behind it |
| `AgentLoop.AgentLoop.HandleFinish` | src/taskweavn/core/loop.py:429-439 | The finish action is appended and resolved, two events, and its observation is the last event |
| `AgentLoop.AgentLoop.Drain` | src/taskweavn/core/loop.py:620-691 | Entries kept + resolved = entries before; the kept ones stay in their order and had no reply when the drain began; nothing else is queued; the shutdown form leaves the transcript alone |
| `AgentLoop.AgentLoop.DrainQueue` | src/taskweavn/core/loop.py:650-691 | The loop over the queue: the list rebuilt is the queue with the resolved entries taken out, in order, none of the kept ones had a reply, and the books follow at every iteration |
| `AgentLoop.AgentLoop.SafePoint` | src/taskweavn/core/loop.py:331-345 | Each safe point is recorded with the events and the queue of that moment and asks the checker once iff there is one; the run stops with that error as its one event, or goes on with nothing changed |
| `AgentLoop.AgentLoop.Resolve` | src/taskweavn/core/loop.py:652-675 | One wait with timeout 0; no reply: nothing happens; the action is run, once, iff the reply read approves, else declined; a reply that says no in any case and padding is never followed by a hand-off |
| `AgentLoop.AgentLoop.DrainOne` | src/taskweavn/core/loop.py:652-691 | A resolved entry leaves the transcript with a system message and, iff an audit is due, that of the audit; the shutdown form leaves the transcript alone; an entry without a reply changes nothing |
| `AgentLoop.AgentLoop.RunAction` | src/taskweavn/core/loop.py:496-498 | Only a cleared, open, uninterrupted action is handed off, exactly once, and its observation closes it |
| `AgentLoop.AgentLoop.CheckInterrupt` | src/taskweavn/core/loop.py:948-990 | The checker is asked exactly once iff there is one; going on means it said no and nothing changed; an intent raises the flag and stops the run as interrupted, an exception stops it as a check error that is mirrored to an open bus; each leaves its one error event |
| `AgentLoop.AgentLoop.ReportError` | src/taskweavn/core/loop.py:917-946 | A loop error is one event, and one message on the bus iff there is an open one |
| `AgentLoop.AgentLoop.ConsultGate` | src/taskweavn/core/loop.py:526-614 | Without a gate every action proceeds; below it every action proceeds, with one notice iff the gate wants one; above it the user is asked first; it raises only on a closed bus or a confidence out of range; every dispatch carries its justification |
| `AgentLoop.AgentLoop.AskUser` | src/taskweavn/core/loop.py:574-614 | The question published is for this action, session and run and offers yes and no; a synchronous ask then waits on it with the configured timeout; it raises only on a closed bus; each outcome maps to the dispatch it justifies, and a reply that says no in any case and padding is never followed by a hand-off |
| `AgentLoop.AgentLoop.HandleActionable` | src/taskweavn/interaction/wait.py:114-258 | Sync waits once with the message's timeout, else the configured one, and under wait once more without one; async never waits; a response is the canonical reply of the table last looked at; each silence maps to its policy and is announced iff notices are on; it raises only when an announcement meets a closed bus |
| `AgentLoop.AgentLoop.PublishNotice` | src/taskweavn/interaction/wait.py:264-295 | One notice about the actionable iff notices are on and the bus is open; it fails iff they are on and the bus is closed; nobody's canonical reply changes |
| `LoopModel.AskedMeansApproved` | src/taskweavn/core/loop.py:526-691 | A cleared hand-off of an asked-about action under a never-on-silence policy implies a stored approval; with monotone stamps it is still canonical at the hand-off |
| `LoopModel.UnapprovedMeansTimedOut` | src/taskweavn/interaction/wait.py:226-258 | The only unapproved way to run such an action is a synchronous silence under a proceed policy |
| `LoopModel.NoIsNeverRun` | src/taskweavn/core/loop.py:580-594 | A cleared hand-off of an asked-about action never follows a reply that says no in any case and padding, and with monotone stamps none that is canonical at the hand-off |
| `LoopModel.AlwaysAsksIff` | src/taskweavn/interaction/gate.py:139-231 | Unless the trigger is on_uncertainty, the actions the authorisation theorem speaks of are exactly those the gate sends to the user |
| `LoopModel.ClearedAuthorised` | src/taskweavn/interaction/risk.py:376-401 | The clearances of a whole run authorise each of its hand-offs, through the composite assessor |
| `LoopModel.KeptBooksBalance` | src/taskweavn/core/loop.py:428-513 | Any event log in order satisfies started = resolved + open, with no id used twice and what ran among what was resolved |
| `LoopModel.BooksConsequences` | src/taskweavn/core/loop.py:620-691 | Conservation with the queue, at-most-once execution, and nothing that ran is still queued |
| `LoopModel.PointConserved` | src/taskweavn/core/loop.py:428-513 | Wherever no action is in the air, actions appended = actions resolved + queue length |
| `LoopModel.MustAskPossibleIff` | src/taskweavn/interaction/gate.py:139-232 | The gate sends some action to the user iff it is wired and the trigger is always, on_risk with a threshold of at most 1, or on_uncertainty with a positive threshold |
| `LoopModel.SoundMeans` | src/taskweavn/core/loop.py:267-322 | The loop invariant implies authorisation, conservation with the queue now and at every recorded point, at-most-once and interrupt finality |
| `LoopModel.CachedMeans` | src/taskweavn/core/loop.py:791-806 | Each list sent is complete, extends all earlier ones, and carries the prefix hash of call 1 |
| `LoopModel.QueueWithout` | src/taskweavn/core/loop.py:650-691 | Resolving an entry anywhere in the queue takes exactly its action off the open ones |
| `Transcript.CompleteMeansReplied` | src/taskweavn/core/loop.py:415-513 | The running protocol check succeeds iff after every assistant message the tool replies up to the next one are exactly its calls in order, and none precedes the first |
| `SessionStatus.DeriveSessionStatus` | src/taskweavn/core/session_status.py:47-95 | Archived iff stored archived; awaiting_user iff an actionable of the session has no reply; finished iff neither and the last event is a finish |
| `SessionStatus.StatusAfterRun` | src/taskweavn/core/loop.py:304-315 | After a run that ended by the finish tool: not finished if an entry queued when the steps ended was answered by then; finished unless somebody is waited for if none is answered by the end; when nothing arrived in between, finished iff no queued entry was answered and nobody is waited for; and with no gate, a synchronous wait or a gate that never asks, finished iff nobody is waited for |
| `SessionStatus.LateReplyHidesTheFinish` | src/taskweavn/core/session_status.py:88-95 | Under any asynchronous configuration with an action the user is asked about: deferral, finish and a yes before the last drain end with a session that is not finished |
| `Autonomy.AnyLinkCanTriggerTheGate` | src/taskweavn/interaction/gate.py:139-232 | Under on_risk the gate emits iff some link of the composite scores at or above the threshold |
| `Autonomy.GateDecides` | src/taskweavn/interaction/gate.py:139-231 | The whole gate in terms of its links: it asks under always, on a link at the threshold, or on a confidence below its threshold; raises on a confidence outside [0, 1]; otherwise proceeds, with a notice iff notices are on and some link sees any risk |
| `Autonomy.CompositeIsLargest` | src/taskweavn/interaction/risk.py:376-401 | The composite's final score is the largest of its links', its baseline no lower than any, all rationales kept in order |
| `Autonomy.Assess` | src/taskweavn/interaction/risk.py:376-401 | The loop over running maxima computes the composite |
| `Autonomy.LlmLink` | src/taskweavn/interaction/risk.py:240-273 | The LLM score is clamped into [baseline, 1]; a failure gives the baseline |
| `Autonomy.BlankNeverRejects` | src/taskweavn/core/loop.py:1032-1046 | A missing text and replies of Unicode white space only never reject |
| `Autonomy.PaddedTokenRejects` | src/taskweavn/core/loop.py:1032-1046 | A padded reply rejects iff its lower-cased core is no, n, deny, reject, skip, cancel or abort |
| `Autonomy.RejectionsAre` | src/taskweavn/core/loop.py:97-99 | A reply rejects iff its stripped, lower-cased text is no, n, deny, reject, skip, cancel or abort |
| `Autonomy.NoRejectsInAnyCase` | src/taskweavn/core/loop.py:1032-1046 | Each of the seven words rejects in any mixture of cases and any padding |
| `MessageStream.ResponseForIsEarliest` | src/taskweavn/interaction/sqlite_message_stream.py:277-287 | response_for is exactly the first answer in (created_at, id) order, and None iff there is none |
| `MessageStream.PendingIsUnanswered` | src/taskweavn/interaction/sqlite_message_stream.py:247-275 | Pending actionables are exactly the stored ones of the session and task without a canonical answer, in stamp order |
| `MessageStream.NeverPendingAgain` | src/taskweavn/interaction/sqlite_message_stream.py:247-275 | Once answered, never pending after any further inserts |
| `MessageStream.OnlyResponsesAnswer` | src/taskweavn/interaction/wait.py:264-295 | Notices and actionables answer nothing |
| `MessageStream.CanonicalAnswerReplacedIff` | src/taskweavn/interaction/sqlite_message_stream.py:277-287 | An insert replaces the canonical answer iff it is an answer stamped earlier |
| `MessageStream.CanonicalAnswerSameIff` | src/taskweavn/interaction/sqlite_message_stream.py:277-287 | After any later inserts the canonical answer is the same iff none of them is an answer stamped earlier |
| `MessageStream.CanonicalAnswerStable` | src/taskweavn/interaction/sqlite_message_stream.py:277-287 | With stamps non-decreasing in insertion order the canonical answer never changes |
| `MessageStream.SkewedClockFlipsTheAnswer` | src/taskweavn/interaction/sqlite_message_stream.py:277-287 | Without that, a later insert with an earlier stamp turns a yes into a no |
| `MessageStream.AnswerHasActionable` | src/taskweavn/interaction/sqlite_message_stream.py:149-168 | In any table inserts can produce, an answered id is that of a stored actionable |
| `MessageStream.SqliteMessageStream.Insert` | src/taskweavn/interaction/sqlite_message_stream.py:125-168 | The row is appended iff validation and the id constraint pass; otherwise nothing changes |
| `Bus.NoLostWakeup` | src/taskweavn/interaction/bus.py:123-207 | In every interleaving no waiter is parked while its response is stored or the bus is closed, and no iterator while its queue is non-empty or its subscription closed |
| `Bus.WaitReturns` | src/taskweavn/interaction/bus.py:159-207 | A finished wait returned the canonical reply of the table it saw, and None only if there was none and the bus was closed or the deadline passed |
| `Bus.WaitStarts` | src/taskweavn/interaction/bus.py:168-172 | A wait starts with its deadline at now plus the timeout, or with none; a negative timeout is refused |
| `Bus.WaitDecides` | src/taskweavn/interaction/bus.py:174-207 | A look at the table ends the wait iff a reply is stored, the bus is closed or the deadline has come, with exactly one result added; otherwise it parks |
| `Bus.ZeroTimeoutNeverParks` | src/taskweavn/interaction/bus.py:193-203 | A wait with timeout 0 is over after one look, whatever happens between its start and the look |
| `Bus.SubscriptionExact` | src/taskweavn/interaction/bus.py:280-345 | Consumed then queued = the matching messages of the log between registration and unregistration, in order, without duplicates, all stored |
| `Bus.RunGrows` | src/taskweavn/interaction/bus.py:123-284 | Along any run log, results and consumption only grow, registration points are fixed, closing is final, and a removal point is the log length of its moment |
| `Bus.NextPreserves` | src/taskweavn/interaction/bus.py:123-359 | Every atomic block keeps the invariant behind these |
| `Bus.DeliveryBetweenTheHalves` | src/taskweavn/interaction/bus.py:351-359 | A message published between the two halves of a subscription's close is still queued on it |
| `Bus.PublishDelivers` | src/taskweavn/interaction/bus.py:123-157 | A publish appends the message and queues it at exactly the registered subscriptions of its session that ask for its type or for all |
| `Bus.IterationDecides` | src/taskweavn/interaction/bus.py:339-345 | The oldest queued message is handed out, closed or not; an empty queue ends the iteration when closed and parks it otherwise |
| `Bus.CloseCompletes` | src/taskweavn/interaction/bus.py:351-359 | After both halves of a close the subscription is closed and off the list, what was queued stays, and nothing published later reaches it |
| `Bus.InProcessMessageBus.PublishMessage` | src/taskweavn/interaction/bus.py:123-157 | Insert, fan-out loop and notify are the publish step; it raises iff the bus is closed or the insert is refused, and then changes nothing |
| `Bus.InProcessMessageBus.Deliver` | src/taskweavn/interaction/bus.py:143-145 | The loop over registered subscriptions delivers to each matching one exactly once |
| `Bus.InProcessMessageBus.OpenSubscription` | src/taskweavn/interaction/bus.py:209-240 | The subscription step; it starts at the current end of the log |
| `Bus.InProcessMessageBus.AwaitTurn` | src/taskweavn/interaction/bus.py:176-207 | One turn of the waiting loop is over iff a reply is stored, the bus is closed or the deadline has come, and then adds one result, the canonical reply or None; otherwise it parks |
| `Bus.InProcessMessageBus.IterateTurn` | src/taskweavn/interaction/bus.py:339-345 | One turn of the iterator yields the oldest queued message, stops only when closed and empty, or parks |
| `Bus.InProcessMessageBus.Close` | src/taskweavn/interaction/bus.py:251-268 | Every subscription ends up closed, none is unregistered |
| `ContextProvider.SegmentsTileTheMessages` | src/taskweavn/context/renderer.py:117-290 | In every render mode the segments are consecutive non-empty pieces covering the messages, each with the hash of its own messages |
| `ContextProvider.RenderedAs` | src/taskweavn/context/renderer.py:117-290 | What each mode shows and hashes: system and user text first, the context text behind the transcript, or the transcript alone |
| `ContextProvider.PrepareOnlyAppends` | src/taskweavn/context/agent_loop_provider.py:173-286 | After the start every call hands back the loop's messages plus at most one context message, with the same prefix hash and the counters moved accordingly |
| `ContextProvider.PrepareKeepsStep` | src/taskweavn/context/agent_loop_provider.py:121-286 | A call keeps the run entry in step with what was sent and never breaks a complete transcript |
| `ContextProvider.PrepareOnSchedule` | src/taskweavn/context/agent_loop_provider.py:224-314 | A call keeps the entry on schedule: its checkpoints within the interval, its count that of the context messages inserted; a failed call leaves it alone |
| `ContextProvider.StartDoes` | src/taskweavn/context/agent_loop_provider.py:133-171 | The first call of a run sends the system and user text of the context and starts the entry from it; a failed build changes nothing |
| `ContextProvider.TriggeredDoes` | src/taskweavn/context/agent_loop_provider.py:224-286 | A triggered call puts the context text behind the transcript, except for a delta without a reason, says why, and moves checkpoint, count, delta hash and signature |
| `ContextProvider.ReuseDoes` | src/taskweavn/context/agent_loop_provider.py:173-222 | Without a trigger the transcript goes out as it is, unless the context shows an interruption the entry does not know: then a second build puts one delta behind it; either way the entry knows what was shown |
| `ContextProvider.TriggerChosen` | src/taskweavn/context/agent_loop_provider.py:288-314 | A due interval asks for a checkpoint, with the interval in its reason, whatever the evaluators say; otherwise the first evaluator that answers decides |
| `ContextProvider.OneDeltaPerInterruption` | src/taskweavn/context/agent_loop_provider.py:194-222 | Over a run: while an interruption stays up and no checkpoint falls due, it inserts one delta, at its first call, however many calls it stays up; one already known, or none, inserts nothing |
| `ContextProvider.SessionAgentLoopContextProvider.PrepareLlmCall` | src/taskweavn/context/agent_loop_provider.py:121-131 | The run's dictionary entry and the result follow the specification; no other run's entry changes |
| `ContextProvider.SessionAgentLoopContextProvider.FindTrigger` | src/taskweavn/context/agent_loop_provider.py:288-314 | The interval trigger wins, else the first evaluator that answers |
| `ContextProvider.CachedRun` | src/taskweavn/context/agent_loop_provider.py:121-286 | In every run each call's messages extend all earlier calls', every call reports the hash of call 1, and appended_context_message_count counts the context messages inserted |
| `ContextProvider.NothingDropped` | src/taskweavn/core/loop.py:791-806 | Call n+1 sends call n's messages, exactly what the loop appended since, then at most one context message |
| `ContextProvider.CheckpointGaps` | src/taskweavn/context/agent_loop_provider.py:288-314 | For interval k >= 2 checkpoints are never more than k turns apart, whatever evaluators and interruptions do |
| `ContextProvider.CheckpointGapsIff` | src/taskweavn/context/agent_loop_provider.py:288-314 | For every interval and run the gap bound holds iff the interval is at least 2 or no call was made |
| `ContextProvider.CheckpointsAreMultiples` | src/taskweavn/context/agent_loop_provider.py:302-314 | With no extra evaluator they are exactly the multiples of k |
| `ContextProvider.IntervalOneMissesTurnOne` | src/taskweavn/context/agent_loop_provider.py:121-131 | For interval 1 the bound fails: the first checkpoint is turn 2 |
| `Policy.SelectCandidates` | src/taskweavn/context/policy.py:34-73 | Selection and exclusions are those of the greedy walk over the stably sorted candidates |
| `Policy.KeyOrder` | src/taskweavn/context/policy.py:41-49 | The lower priority number goes first; ties go by source type, source and id in text order |
| `Policy.SelectionIsSound` | src/taskweavn/context/policy.py:34-73 | Selected and dropped partition the input, both budgets hold (negative ones as zero), each token drop still overflows the final selection, a count drop means the count is full |
| `Policy.SelectionOrderIndependent` | src/taskweavn/context/policy.py:41-49 | With distinct sort keys the result does not depend on the input order |
| `Policy.CountOnlyTakesTheBest` | src/taskweavn/context/policy.py:53-60 | Without a token budget the selection is the head of the sorted list |
| `Policy.TakenBeforeLeftOut` | src/taskweavn/context/policy.py:41-60 | Without a token budget no candidate left out has a lower priority number than one taken |
| `Policy.TrimFileSnippets` | src/taskweavn/context/policy.py:93-119 | The kept contents joined are the first B characters of the last k contents joined; only the last kept snippet can be cut |
| `Policy.CutFirst` | src/taskweavn/context/sources.py:269-297 | Cutting every file to B first does not change the first B characters of the whole |
| `Policy.CollectSnippets` | src/taskweavn/context/manager.py:57-80 | The two truncations together show exactly the first B characters of the last k raw files |
| `Policy.TrimTail` | src/taskweavn/context/policy.py:75-91 | The tail trims keep the last min(k, n) entries |
| `Ask.NoFlawIff` | src/taskweavn/interaction/ask.py:482-514 | An answer passes validation iff it selects only offered options, has text only where allowed, and fits the answer type's count; a valid boolean answer names one offered option |
| `Ask.AcceptedIff` | src/taskweavn/interaction/ask.py:375-436 | An answer is accepted iff it names this pending request and task, passes validation and carries no other key |
| `Ask.MalformedIff` | src/taskweavn/interaction/ask.py:82-127 | What the validators of requests and answers reject, flaw by flaw |
| `Ask.AcceptedWellFormed` | src/taskweavn/interaction/ask.py:439-479 | What is accepted is well-formed, except that a transition's result is iff its reason is not empty |
| `Ask.MoveEffect` | src/taskweavn/interaction/ask.py:439-479 | A defer leaves a pending request deferred, a cancel cancelled, an expire expired; each stamps its own time with now, keeps the other stamps, takes the reason, and touches nothing else |
| `Ask.AnswerEffect` | src/taskweavn/interaction/ask.py:375-436 | An accepted answer sets status, answer id and answer time and nothing else, and is stored as given under the command's key |
| `Ask.AnswerRefusal` | src/taskweavn/interaction/ask.py:375-410 | Why an answer is refused: the first reason that applies, with the request as it is |
| `Ask.InMemoryAskStore.CreateAsk` | src/taskweavn/interaction/ask.py:214-220 | The create step on the dictionaries |
| `Ask.CommandDoes` | src/taskweavn/interaction/ask.py:248-372 | A command under a used key changes nothing; any other is performed on the request it names, changes requests and answers only when accepted, and is remembered iff it carries a key |
| `Ask.InMemoryAskStore.Execute` | src/taskweavn/interaction/ask.py:248-372 | Answer, defer, cancel and expire are the command step, replay included; what that step does is written out in the rows on effects, refusals and histories |
| `Ask.HistoryConsistent` | src/taskweavn/interaction/ask.py:248-372 | After any history of pending creates and commands an answer is stored iff its ASK is answered with that answer id |
| `Ask.HistorySettles` | src/taskweavn/interaction/ask.py:375-479 | Over any history an ASK leaves pending at most once and is frozen from then on; answers and remembered results never change |
| `Ask.StatusNamesItsCommand` | src/taskweavn/interaction/ask.py:375-479 | After any history an ASK is answered, deferred, cancelled or expired exactly as the command that took it out of pending says, and on record are that command's answer, time and reason |
| `Ask.LeftPendingOnce` | src/taskweavn/interaction/ask.py:375-479 | Whenever an ASK is not pending there is exactly one such command |
| `Ask.KeyActsOnce` | src/taskweavn/interaction/ask.py:350-372 | A later use of a (session, key), by any command, changes nothing and returns the first result with accepted turned to replayed |
| `AskSqlite.RequestRoundTrip` | src/taskweavn/interaction/sqlite_ask_store.py:460-511 | Decoding an encoded request gives it back iff it is well-formed, and raises otherwise |
| `AskSqlite.AnswerRoundTrip` | src/taskweavn/interaction/sqlite_ask_store.py:514-545 | The same for answers |
| `AskSqlite.StepRefines` | src/taskweavn/interaction/sqlite_ask_store.py:194-329 | On related stores the replies agree iff the command does not clash (an ask id of another session, or an accepted answer under a stored answer id), and the stores stay related iff it neither clashes nor is a transition that takes effect with an empty reason |
| `AskSqlite.RelatedIff` | src/taskweavn/interaction/sqlite_ask_store.py:114-457 | Over any history, whatever its ids and reasons, the stores are related all along iff no command clashed or took effect with an empty reason when it came, and then they reply alike |
| `AskSqlite.HistoryRefines` | src/taskweavn/interaction/sqlite_ask_store.py:114-457 | Over every history with consistent ids and no empty reasons SQLite gives the same replies and holds the same state as memory |
| `AskSqlite.SameRequestRead` | src/taskweavn/interaction/sqlite_ask_store.py:331-336 | get reads the same from related stores |
| `AskSqlite.SameAnswerRead` | src/taskweavn/interaction/sqlite_ask_store.py:183-192 | get_answer reads the same from related stores |
| `AskSqlite.ListingsAgree` | src/taskweavn/interaction/sqlite_ask_store.py:156-181 | list_for_session yields the same sorted sequence from related stores, in whatever order each keeps its entries, and every row of it reads back |
| `AskSqlite.ListedInOrder` | src/taskweavn/interaction/ask.py:226-242 | A listing goes by creation time, ties by id |
| `AskSqlite.SharedAskIdDiffers` | src/taskweavn/interaction/sqlite_ask_store.py:114-150 | One ask id in two sessions: created in memory, refused by SQLite |
| `AskSqlite.SharedAnswerIdDiffers` | src/taskweavn/interaction/sqlite_ask_store.py:207-224 | A reused answer id, with or without a fresh key: accepted in memory, rolled back by SQLite with no change |
| `AskSqlite.EmptyReasonDiffers` | src/taskweavn/interaction/sqlite_ask_store.py:297-329 | A transition that takes effect with an empty reason, keyed or not: shown by memory, unreadable in SQLite; a keyed one is replayed in memory and fails in SQLite |
| `AskSqlite.SqliteAskStore.CreateAsk` | src/taskweavn/interaction/sqlite_ask_store.py:114-150 | The insert, refused iff the ask id exists in any session |
| `AskSqlite.SqliteAskStore.Transact` | src/taskweavn/interaction/sqlite_ask_store.py:207-224 | All statements of a command, or none |
| `AskSqlite.SqliteAskStore.Execute` | src/taskweavn/interaction/sqlite_ask_store.py:194-329 | Replay, read, perform and commit are the SQL command step |
| `IsoTime.IsoOrder` | src/taskweavn/core/sqlite_event_stream.py:106-128 | For all UTC timestamps byte order on isoformat text is time order, with or without a fraction |
| `IsoTime.FractionOrder` | src/taskweavn/core/sqlite_event_stream.py:106-128 | A missing fraction sorts before every fraction |
| `IsoTime.IsoLess` | src/taskweavn/core/sqlite_event_stream.py:146-166 | The strict text comparison of replay is the strict time comparison |
| `IsoTime.IsoLayout` | src/taskweavn/core/sqlite_event_stream.py:106-128 | The stored text has its separators at fixed places and a fraction exactly when there are microseconds |
| `IsoTime.ParseIso` | src/taskweavn/interaction/sqlite_ask_store.py:580-587 | Reading the stored text back gives the timestamp |
| `EventReplay.InMemoryEventStream.Replay` | src/taskweavn/core/event_stream.py:94-106 | The loop yields exactly the events after `since` of the wanted kinds, in order |
| `EventReplay.ReplayedMembers` | src/taskweavn/core/event_stream.py:94-106 | A replay holds exactly the events after `since` of the wanted kinds |
| `EventReplay.ReplayedInOrder` | src/taskweavn/core/event_stream.py:94-106 | It is the log with events taken out, in the same order |
| `EventReplay.ReplayedSplits` | src/taskweavn/core/event_stream.py:94-106 | The replay of a longer log is the replay so far followed by that of what was appended since |
| `EventReplay.SqliteEventStream.Append` | src/taskweavn/core/sqlite_event_stream.py:106-132 | One row is added, with the text timestamp |
| `EventReplay.SqliteEventStream.Replay` | src/taskweavn/core/sqlite_event_stream.py:146-166 | The selection on text yields what the in-memory replay would |
| `EventReplay.SelectedIsReplayed` | src/taskweavn/core/sqlite_event_stream.py:146-166 | For every table of encoded events, `since` and `kinds`, selecting by text is filtering by time |
| `EventReplay.ReplayBoth` | src/taskweavn/core/event_stream.py:94-106 | After the same appends both streams replay the same, for every log, `since` and `kinds` |
| `EventReplay.EmptyKinds` | src/taskweavn/core/sqlite_event_stream.py:155-160 | An empty list of kinds yields nothing, no filter yields the log |
| `EventReplay.SqliteEventStream.IterForTask` | src/taskweavn/core/sqlite_event_stream.py:172-183 | The task's rows in (timestamp text, row id) order |
| `EventReplay.TimelineIsInsertionOrderIff` | src/taskweavn/core/sqlite_event_stream.py:172-183 | That is insertion order iff the task's timestamps never go backwards |
| `EventReplay.LaterFirstIsReordered` | src/taskweavn/core/sqlite_event_stream.py:172-183 | Two events of a task stored later one first come back in the other order |
| `Publish.EmbeddedTaskApiService.PublishTask` | src/taskweavn/execution_plane/embedded_service.py:80-175 | The writes in sequence, dying after any of them, are the publishing step; conflict, missing environment and bus failure change nothing |
| `Publish.EmbeddedTaskApiService.ReadTask` | src/taskweavn/execution_plane/embedded_service.py:177-190 | get_task refreshes the stored execution from the bus task |
| `Publish.PublishAnswers` | src/taskweavn/execution_plane/embedded_service.py:80-175 | What a publish answers in each state: conflict iff the recorded hash differs, replay of a recorded key, missing environment, bus refusal, crash iff it does not live through all four writes; what is refused changes nothing |
| `Publish.ReadTells` | src/taskweavn/execution_plane/embedded_service.py:443-455 | get_task finds an execution iff its bus task exists, and shows the task's status, times and references beside the execution's own identity |
| `Publish.RecordsAreAnchored` | src/taskweavn/execution_plane/embedded_service.py:80-175 | After any history with crashes anywhere a record implies its execution implies a bus task; at most one task.accepted per scoped key, none before the record |
| `Publish.AcceptedEventIff` | src/taskweavn/execution_plane/embedded_service.py:80-175 | After every history a key has its record iff some publish that found none got as far as the record, and exactly one task.accepted iff some such publish made all four writes, else none |
| `Publish.TaskIff` | src/taskweavn/execution_plane/embedded_service.py:116-131 | After every history a bus task exists for a key and session iff a publish of them reached the first write |
| `Publish.OneTaskPerKey` | src/taskweavn/execution_plane/embedded_service.py:116-131 | With identical requests, or just the same session, per scoped key there is at most one bus task per key |
| `Publish.TwoTasksIff` | src/taskweavn/execution_plane/embedded_service.py:116-131 | A key has two bus tasks iff publishes of two sessions reached the first write |
| `Publish.SameExecution` | src/taskweavn/execution_plane/embedded_service.py:378-384 | Every successful publish returns the execution id of its scoped key |
| `Publish.RetrySucceeds` | src/taskweavn/execution_plane/embedded_service.py:86-103 | With identical requests a retry after the record was written always returns |
| `Publish.DifferentSessionsTwoTasks` | src/taskweavn/execution_plane/embedded_service.py:387-396 | One key, two sessions and a crash before the record: two bus tasks |
| `Publish.EventLostIff` | src/taskweavn/execution_plane/embedded_service.py:148-172 | After every history a recorded key lacks its event iff the publish that wrote the record died right after it |
| `Publish.DeathAtTheRecord` | src/taskweavn/execution_plane/embedded_service.py:148-172 | A first publish that dies right after its record has lost its event |
| `Publish.AcceptedEventLostForever` | src/taskweavn/execution_plane/embedded_service.py:159-172 | After any history, once a recorded key lacks its event it lacks it for good, whatever follows, retries included |
| `Publish.RepublishSaysPending` | src/taskweavn/execution_plane/embedded_service.py:134-148 | After any history a publish that finds no record says pending; what a publish returns is what get_task would say iff the key has its record, or there is no bus task yet, or the task is untouched |
| `Publish.RetryOfStartedWork` | src/taskweavn/execution_plane/embedded_service.py:134-148 | A crash after the first write, work on the bus task, and the retry says pending where get_task does not |
| `Publish.ScopedKeysCollide` | src/taskweavn/execution_plane/store.py:426-427 | A colon in a requester id can move into the key without changing the scoped key |
| `Publish.ScopedKeySharedIff` | src/taskweavn/execution_plane/store.py:426-427 | Another valid request (non-empty id and key) shares the scoped key of a valid one iff its requester id has a colon after the first character or its key one before the last |
| `Publish.ScopedKeyInjective` | src/taskweavn/execution_plane/store.py:426-427 | Among kinds and requester ids without colons the scoped key determines requester and key |
| `Retry.WithRetry` | src/taskweavn/llm/retry.py:109-171 | Runs 1 to max_attempts times, exactly up to the first attempt that must be last; records are those of attempts 1 to calls - 1; total sleep <= 1.5 * max_delay * (max_attempts - 1); the last outcome decides the result; the raise after the loop is unreachable |
| `Retry.Attempts` | src/taskweavn/llm/retry.py:119-161 | The loop itself, with the sleep bounded by the calls made |
| `Retry.LoggedAt` | src/taskweavn/llm/retry.py:181-199 | Record i is that of attempt i + 1, with its classification and delay |
| `Retry.BackoffGrows` | src/taskweavn/llm/retry.py:173-179 | Un-jittered delays start at the initial one, never decrease, and are capped |
| `Retry.BackoffStep` | src/taskweavn/llm/retry.py:173-179 | Each delay before jitter is the one before times the multiplier, up to the cap |
| `Retry.DelayBounded` | src/taskweavn/llm/retry.py:173-179 | A jittered delay is between 0 and 1.5 times the cap |
| `Retry.TimeoutIsFinal` | src/taskweavn/llm/retry.py:125-135 | With a caller's deadline a timeout on attempt n is the last call: no later call, record or sleep, and the call ends there with it iff no earlier attempt ended it |
| `Retry.GoesOnIff` | src/taskweavn/llm/retry.py:119-161 | An attempt is not the last iff it failed retryably, within the policy, and no deadline made its timeout final |
| `Retry.PlainKind` | src/taskweavn/llm/retry.py:226-278 | A plain failure ends as retries-exhausted iff it was retryable, and carries every record |
| `Retry.StatusMeans` | src/taskweavn/llm/retry.py:77-107 | What each status code is classified as, the policy's own list coming after credentials and rate limits and before bad request and context limit |
| `Retry.TypedKindLostIff` | src/taskweavn/llm/retry.py:212-224 | A provider's own error keeps its classification and loses its kind iff records are added to it |

## Left out

- The sliding window of `build_for_llm_call` (src/taskweavn/context/agent_loop_provider.py:316-327): the protocol is not claimed for it.
- Tool startup and shutdown, the thought store, logging and metadata in the loop: they do not touch the state modelled.
- Exceptions of the runtime, the auditor or the event stream: assumed not to happen, as in the original.
- JSON text, prompts, rendered prose and hashing: opaque values and arbitrary functions.
- How a plain exception's name and message are classified (src/taskweavn/llm/retry.py:90-107): an input of the model.
- Runtime handlers of `publish_task`: their effects go to services that are not part of this model; `cancel_task` and `retry_task` appear only as a refresh followed by a progress event.
- The task bus: only publish, get and arbitrary status changes of its tasks.
- Float overflow and rounding in delays and scores.
- `SqliteMessageStream` listings and threads, `SqliteExecutionPlaneStore`, result, error and evidence records: they would only add easy members.
- `replay` with a `since` in another time zone: text comparison is only claimed for UTC.
- Subscriptions are entries of one sequence rather than objects of their own, so aliasing of a subscription object is not modelled.
- A row that cannot be read inside a command raises without closing the transaction in the original; the model reports a store error and goes on. It needs an empty reason to arise.
- Prose of rejection messages, snippet reasons and notices: kept as tags.
