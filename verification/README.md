# dekopon: verified models of the prompt loop, the component cache and the asset protocol

Dafny models of the four state machines at the centre of dekopon, with proofs about every run of them.

- **The prompt turn loop** (`Session.dfy`, with `Replay`, `Rules`, `Record`, `Silence`, `Conversation`, `Capture`,
  `Mailbox`, `Audit`, `Progress`, `Tools`, `Environment`, `Note` and `Text`). A session drives a model, a script runtime, a steering mailbox
  and about ten tools. Their answers are scripts of arbitrary values, so a theorem about `RunPromptSession` is one about
  every finite run. The centre is that three logs agree: the message list, the captured record and the audit transcript
  are all projections of one history, on every exit. And that history replays: `Replay` says, from the turns in a log
  and the environment's answers alone, what is due at each point of it, and every log is exactly that. `Rules` says the
  same again from tool names, texts and numbers, and `Record` what each entry leaves in record and conversation.
- **The compiled-component cache** (`FileTree`, `Cwasm`, `Prune`, `CacheRuns`). The disk is a tree of files; digests are
  injective; compiling and deserializing are partial functions. `Drive` runs operations, boots, crashes and damage in
  any order, each step against its reference.
- **The asset state of an invocation** (`Base64`, `Asset`, `Meaning`, `Measures`, `Calls`, `Invocation`). Guest calls are steps of
  a class whose invariant says what was accepted, charged, sent and read. `Meaning` gives a reference for one call and
  for a run of them, `Measures` reads its charge, its cursors and what it read off the calls, `Calls` gives each
  call's conditions outright, and `Invoke` refines it: how an invocation ends and what it delivers is a function of its
  list of calls.
- **The reply attachments** (`Attachment`, `RunAssets`). The queue and the broker's asset state share one send allowance;
  `ServeAll` runs both against each other.

Bodies keep the source's order of checks and effects. Integers are unbounded except where the source saturates or counts
in a byte (`spent`, script counts, removed bytes), which is modelled.

## What does not hold

- "A supplied steer source is sealed on every exit" holds exactly if at least one step is allowed: with `max_steps`
  zero the session ends before it takes the mailbox (`RunPromptSession`).
- "A served call is recorded under its tool" fails exactly for the wake-reason view, which the naming table does not
  know (`ServedButRecordedAsRejected`).
- "A published source loads after a boot" fails exactly for an empty artifact: an index may not claim zero bytes
  (`FreshBootLoads`, `EmptyArtifactIsRefused`).
- "Silence hides no work" in optional mode holds exactly if the counter of used calls never fell over the scripts in the
  log (`SilenceHidesNothing`); `RunForgetful` is a session that ends silent though a script used a call.
- "The queue never refuses for want of allowance" needs invocations to follow one another (`ServeAll`). When they
  overlap it fails exactly if a send the store finds is received after as many sends that cost a slot as there were
  slots left; a send the store knows nothing of costs none (`Overlap`, `OneSlotForTwo`).
- A read that runs out of budget is not an over-budget violation if something else was refused before it: a failed read
  never overwrites (`VerdictMeans`).

## Model

| member | source | states |
|---|---|---|
| `PromptSession.RunPromptSession` | crates/dekopon-agent/src/prompt.rs:620-718 | for every history, model, script runtime, mailbox and stop signal: the messages and every request begin with the system text, the skill listing, the instruction on silence (unless a reply is required) and the notice, those that are there and in this order, then the whole history, then the prompt; the record begins with the recorded form of the prompt, or else the prompt; the log replays against the environment, so each tool result is the one that was due there and the k-th answer of each source is used once and in order; every answer used is in the log, but for a script a stop cut off and a handler or fetch whose fault ended the session; the logged turns are what the model said, each right behind its own request, the last one missing only when a stop cut it off; the captured record and the message list are projections of that log; every contact with the mailbox is the source's own answer and every steer it handed over entered the log once and in order; it was asked once before each model call and once after each turn without calls that did not end the session, and sealed once and last; the transcript reader was exact about what preparation made of each request, and was given whole only what did not extend the one before it or followed a call that was cut off; a listener heard of each call, completed turn and batch of steers by its right number, and of one ending, last; no stop that was seen was ignored and nothing done without looking for one; an answer or silence is that of the model's last turn, and an error is the one due there; with zero steps nothing starts, no record is returned and the mailbox is never sealed |
| `PromptSession.RequestsAreWellFormed` | crates/dekopon-agent/src/prompt.rs:663-689 | every request begins with the system messages that are there, in their order, the whole history and the prompt, extends the request before it, and, given a well-formed history, answers every assistant message's calls by exactly their ids in call order before the conversation moves on |
| `PromptSession.OpeningBegins` | crates/dekopon-agent/src/prompt.rs:663-689 | what extends the opening has each system text that is present at its own place, then the whole history in order, then the prompt, and nothing else before it; the opening itself ends there |
| `PromptSession.TurnFollowsRequest` | crates/dekopon-agent/src/prompt.rs:911-1101 | whatever the model said stands in the conversation right behind the request it answered |
| `PromptSession.OpeningOwesNothing` | crates/dekopon-agent/src/prompt.rs:663-689 | system messages, a well-formed history and the prompt make a conversation in which no call waits |
| `PromptSession.Session.Run` | crates/dekopon-agent/src/prompt.rs:720-739 | a session keeps all its invariants, ends well only as the model's last turn says, fails only with the error that is due where its log ends, is sealed, and is reported exactly once, however it ends |
| `PromptSession.Session.ReportEnd` | crates/dekopon-agent/src/prompt.rs:741-760 | a listener hears one terminal event, last: an ending by a stop names who stopped it, running out of steps and internal faults are told as such and every other error as the model's; an over-budget error is the only one that gets none |
| `PromptSession.Session.RunTurns` | crates/dekopon-agent/src/prompt.rs:768-785 | the source is sealed on every exit of the loop with its own answer, and a stop that got in first always yields Cancelled |
| `PromptSession.Session.Turns` | crates/dekopon-agent/src/prompt.rs:876-1408 | the loop halts by (steps left, answers left to be cut off) and every exit satisfies the invariant |
| `PromptSession.Session.Step` | crates/dekopon-agent/src/prompt.rs:876-1043 | a pass ends or goes on as the steps left, a stop, the model call and the turn it gave demand, and responds to that turn by its shape; one that goes on made exactly one model call, completed a step unless that call was cut off, and after a turn without calls was handed steers; steps never exceed the maximum, and MaxSteps means exactly that many completions |
| `PromptSession.Session.Ask` | crates/dekopon-agent/src/prompt.rs:884-963 | the steers the source gives join the messages, a listener hears first of them and then of the call, and the request is made of the messages as they then are |
| `PromptSession.Session.CheckCancelled` | crates/dekopon-agent/src/prompt.rs:1411-1417 | a stop is looked for once, and the run so far stays unstopped exactly while none was found |
| `PromptSession.Session.TakeSteers` | crates/dekopon-agent/src/prompt.rs:883-888 | waiting steers join the conversation and the record in order, and the source is asked only while open |
| `PromptSession.Session.AskModel` | crates/dekopon-agent/src/prompt.rs:911-963 | the request holds the opening and the whole log so far, with every turn said and every call answered, joins the append-only list of requests, and its prepared form is logged so that the reader stays exact |
| `PromptSession.Session.Interrupted` | crates/dekopon-agent/src/prompt.rs:967-1003 | a cut-off call starts over exactly if the mailbox is open and no stop is seen; it costs no step and restarts the transcript in full |
| `PromptSession.Session.RecordTurn` | crates/dekopon-agent/src/prompt.rs:1100-1101 | the completed turn joins record and conversation right behind its own request, and its calls wait |
| `PromptSession.Session.HandOff` | crates/dekopon-agent/src/prompt.rs:1105-1117 | at a turn boundary either more steers join or the mailbox is closed, never both |
| `PromptSession.Session.Conclude` | crates/dekopon-agent/src/prompt.rs:1103-1149 | an answer is the turn's non-blank text, or empty with queued attachments; it is only given once the mailbox is closed without a stop and, while steps are left, after a last chance to hand over steers; the session goes on exactly with the steers the source just handed over, which are then in the log |
| `PromptSession.Session.Settle` | crates/dekopon-agent/src/prompt.rs:1087-1229 | the turn the model said is taken in and, unless a stop is seen, responded to by its shape; going on after a turn without calls means the source just handed over steers, and after any other that it was not asked |
| `PromptSession.Session.TakeIn` | crates/dekopon-agent/src/prompt.rs:1087-1101 | a completed turn is announced by its number and its calls, counted, and joins log, record and messages exactly if no stop is seen |
| `PromptSession.Session.Respond` | crates/dekopon-agent/src/prompt.rs:1103-1407 | by the turn's shape: without calls it is concluded, and the session goes on only with steers just handed over; above the call limit it is an error; as a request for silence, where that is offered, it gets what is due, uses no answer and runs no call; otherwise each call in order gets the one result due to it |
| `PromptSession.Session.ShutMailbox` | crates/dekopon-agent/src/prompt.rs:1105-1117 | while steps are left the source may hand over steers instead of being sealed, and these are its contact and join the conversation; otherwise it is sealed outright |
| `PromptSession.Session.GiveAnswer` | crates/dekopon-agent/src/prompt.rs:1122-1148 | the result is the turn's text if one of its characters is not white space, whatever is queued; otherwise the empty text if attachments are queued, and else an error; Finished is announced exactly with an answer |
| `PromptSession.Session.StaySilent` | crates/dekopon-agent/src/prompt.rs:1182-1214 | silence ends the session once the mailbox is sealed; it is silent exactly if no stop is seen and none was sealed in |
| `PromptSession.Session.CheckDecline` | crates/dekopon-agent/src/prompt.rs:1172-1181 | finds the first blank id or ill-formed request for silence of the turn |
| `PromptSession.Session.Decline` | crates/dekopon-agent/src/prompt.rs:1167-1229 | a request for silence gets what is due: an error if it is ill-formed; silence, unless a stop comes first, if no call was used in optional mode, if every call used was a refresh in a quiet review, and always in a quiet digest; and otherwise a refusal of every call or, in the last step, an error; no call of the turn runs and no answer is used |
| `PromptSession.Session.RefuseAll` | crates/dekopon-agent/src/prompt.rs:1221-1227 | each call of the turn gets the same refusal, in order, in messages and record |
| `PromptSession.Session.RunCalls` | crates/dekopon-agent/src/prompt.rs:1231-1407 | if the session goes on, the log grew by exactly one result per call, in call order, each the one that was due at its place: what the handler, the fetch or the script gave next, or a rejection |
| `PromptSession.Session.RunCall` | crates/dekopon-agent/src/prompt.rs:1231-1236 | a call is looked at only after a look for a stop; one with a blank id ends the session, and any other adds the entry that is due |
| `PromptSession.Session.Dispatch` | crates/dekopon-agent/src/prompt.rs:1237-1406 | one call adds exactly the entry of the handler that claims its name, or ends the session with the error that is due |
| `PromptSession.Session.RecordFetch` | crates/dekopon-agent/src/prompt.rs:1312-1320 | a fetch is recorded by the messages it added: with media among them as a refetch note, otherwise as its result |
| `PromptSession.Session.Serve` | crates/dekopon-agent/src/prompt.rs:1237-1305 | a built-in tool's next answer is one tool result recorded with its outcome; a failing one adds nothing and ends the session with its fault |
| `PromptSession.Session.FetchInto` | crates/dekopon-agent/src/prompt.rs:1810-1922 | an asset is shown exactly if it fits the remaining byte budget, and the totals grow by what is shown |
| `PromptSession.Session.Fetch` | crates/dekopon-agent/src/prompt.rs:1306-1322 | a text is recorded as itself, a media asset only as a note to fetch it again |
| `PromptSession.Session.Reject` | crates/dekopon-agent/src/prompt.rs:1573-1585 | a rejected call is answered exactly if no earlier turn had a rejection answered, so all answered rejections belong to one turn |
| `PromptSession.Session.RunScript` | crates/dekopon-agent/src/prompt.rs:1387-1406 | a stop before the script keeps it from running, a stop after it leaves no trace in messages or record, otherwise result and counters are updated |
| `PromptSession.Session.Reply` | crates/dekopon-agent/src/prompt.rs:1221-1227 | one tool result joins messages, record and log alike |
| `PromptSession.Session.RecordStaged` | crates/dekopon-agent/src/prompt.rs:886-888 | the texts people said since are recorded in order |
| `Replay.SilentMeans` | crates/dekopon-agent/src/prompt.rs:1167-1183 | silence is due only to a turn of at most ten calls, none of them faulty and one of them the request for it, and only if the mode's own condition on the work so far holds |
| `Replay.DeclineFaultMeans` | crates/dekopon-agent/src/prompt.rs:1172-1181 | the fault of a request for silence is that of its first call with a blank id or ill-formed arguments, and there is none exactly if no call has one |
| `Replay.SilenceByMode` | crates/dekopon-agent/src/prompt.rs:1167-1229 | a faultless request is granted exactly if no call was used (optional), every call used was a refresh (quiet review) or at once (quiet digest); otherwise it is refused, or an error in the last step |
| `Replay.SteersReplay` | crates/dekopon-agent/src/prompt.rs:883-888 | steers join only where no result is due, and use nothing up |
| `Replay.ReplaysAt` | crates/dekopon-agent/src/prompt.rs:1103-1407 | a log that replays does so at each entry: a result is the one due there, and a turn or a steer comes only where none is due |
| `Replay.ResultDue` | crates/dekopon-agent/src/prompt.rs:1237-1406 | a result that fits answers the next call of its turn with the next answer of its source |
| `Replay.ResultsInOrder` | crates/dekopon-agent/src/prompt.rs:1231-1407 | in a log that replays, the k-th result of scripts, of fetches and of built-in tools is what the environment's k-th answer of that kind makes of its call, and there are as many as answers were used |
| `Rules.ResultByName` | crates/dekopon-agent/src/prompt.rs:1231-1407 | a result that fits answers the next of at most ten calls: the refusal if the turn asks for silence, and otherwise, for a call with an id, what its tool's own name leads to: the script's output with its exit code, the fetched text or media if it fits in 40 MiB, the built-in tool's answer, or a rejection |
| `Rules.ErrorByName` | crates/dekopon-agent/src/prompt.rs:1103-1407 | an error that is due has its cause in the turn being answered: more than ten calls, a blank id, work that has to be reported, an unknown tool or bad script arguments after an earlier rejected turn, or the fault of the tool the name leads to |
| `Rules.ShownGrows` | crates/dekopon-agent/src/prompt.rs:1867-1883 | what is shown grows by each asset that fits in 40 MiB, text counting as text, and by nothing else |
| `Rules.PointMeans` | crates/dekopon-agent/src/prompt.rs:1231-1407 | the turn being answered is the last of the log, it is numbered by the turns before it, and its results so far are those that follow it |
| `Conversation.OwedNothingMeansAnswered` | crates/dekopon-agent/src/prompt.rs:1810-1922 | a conversation that owes nothing has, between any two assistant messages, exactly the first one's results, in call order, with every other text after them, though media messages may come in between |
| `Conversation.OwedJoins` | crates/dekopon-agent/src/prompt.rs:684-689 | a well-formed history can be followed by any well-formed conversation |
| `Capture.ExchangesMirrorResults` | crates/dekopon-agent/src/memory.rs:171-204 | the record holds one exchange per tool result, in the same order, under the same id, with the capped text or a refetch note |
| `Record.RecordHolds` | crates/dekopon-agent/src/memory.rs:129-204 | the record holds, for each entry of the log in order and for nothing else, exactly what that entry adds: a turn its reasoning blocks of at most 64 KiB under the model last reported and then its capped text, a person's steer its recorded form, a notice nothing, a call its tool, full arguments, outcome and capped result or refetch note |
| `Record.KeyIsLatest` | crates/dekopon-agent/src/memory.rs:142-169 | the model a turn is recorded under is the last one a turn reported, and the configured one before that |
| `Record.ConversationHolds` | crates/dekopon-agent/src/prompt.rs:684-689 | the conversation holds, for each entry of the log in order and for nothing else, exactly the messages that entry adds |
| `Capture.RecordBuilder.constructor` | crates/dekopon-agent/src/memory.rs:129-135 | a record starts with the capped prompt |
| `Capture.RecordBuilder.Steered` | crates/dekopon-agent/src/memory.rs:137-140 | a steer is recorded capped |
| `Capture.RecordBuilder.Assistant` | crates/dekopon-agent/src/memory.rs:142-169 | reasoning blocks within the cap are recorded under the turn's own model key, then the text |
| `Capture.RecordBuilder.Exchanged` | crates/dekopon-agent/src/memory.rs:171-183 | a call is recorded with its full arguments, its outcome and its capped result |
| `Capture.RecordBuilder.Answered` | crates/dekopon-agent/src/memory.rs:185-204 | the latest result with the call's id is the one recorded; without one nothing is |
| `Conversation.LatestMeans` | crates/dekopon-agent/src/memory.rs:185-204 | the latest result with an id is one that no other with that id follows, and there is none exactly if no message is one |
| `Text.KeepIsLongestPrefix` | crates/dekopon-agent/src/memory.rs:20-26 | a kept text is the longest character prefix within the byte cap, and whole exactly if it fits |
| `Text.DecimalReadsBack` | crates/dekopon-agent/src/prompt.rs:1387-1406 | a number written out reads back as itself, by its digits and without leading zeros |
| `Tools.ServedButRecordedAsRejected` | crates/dekopon-agent/src/memory.rs:85-100 | a served call is recorded as a rejected tool exactly if it is the wake-reason view, which the naming table lacks |
| `Tools.HandlerByName` | crates/dekopon-agent/src/prompt.rs:1237-1406 | each tool is reached by exactly its own name, and all but the script runner and the suggestions only if offered |
| `Tools.ToolByName` | crates/dekopon-agent/src/memory.rs:85-100 | the record names each tool it knows by exactly that tool's own name, and any other name as rejected, capped |
| `Mailbox.MailboxLease.constructor` | crates/dekopon-agent/src/prompt.rs:178-186 | a lease is open exactly if there is a source, which has not been asked |
| `Mailbox.MailboxLease.Take` | crates/dekopon-agent/src/prompt.rs:195-206 | an open source is asked once and the steers it answers are staged in order; a closed or absent one is not asked |
| `Mailbox.MailboxLease.SealOrTake` | crates/dekopon-agent/src/prompt.rs:208-228 | as the source answers, one call either takes its steers or closes the mailbox with its seal; a closed one repeats its seal without asking |
| `Mailbox.MailboxLease.Close` | crates/dekopon-agent/src/prompt.rs:230-240 | the source is sealed the first time only, and the seal it answered is answered ever after |
| `Mailbox.MailboxLease.Stage` | crates/dekopon-agent/src/prompt.rs:242-261 | every steer becomes one user message, and only what people said is kept for the record |
| `Mailbox.SteersKeepNothingOwed` | crates/dekopon-agent/src/prompt.rs:242-261 | steers come only where no call waits, and leave none waiting |
| `Audit.LogPrompt` | crates/dekopon-agent/src/prompt.rs:925-963 | a reader that replaces on full entries and appends on the others holds exactly the prepared messages after every call, whatever preparation did to earlier messages; definitions come exactly with full entries |
| `Audit.EntryIsLean` | crates/dekopon-agent/src/prompt.rs:925-963 | a prompt that extends a transcript that holds something is logged as its new messages only, and any other whole and with the tool definitions |
| `PromptSession.LeanNext` | crates/dekopon-agent/src/prompt.rs:925-963 | over a session a prompt is logged whole only if it is the first, does not extend the one before it, or follows a call that was cut off |
| `Silence.SilenceHidesNothing` | crates/dekopon-agent/src/prompt.rs:361-405 | where silence is permitted with no call counted, a log that ends in silence hides no work of the scripts in it exactly if the counter never fell over those scripts |
| `Silence.SilentExactlyIfDue` | crates/dekopon-agent/src/prompt.rs:1182-1214 | however a session ends, unless it was stopped, it ends silent exactly if silence is due where its log ends |
| `Silence.SilenceIsGranted` | crates/dekopon-agent/src/prompt.rs:1167-1229 | when the last turn is a faultless request for silence and no stop came, the session ends silent exactly if the mode's own condition on the work done holds, and otherwise with the error that work went unreported |
| `Silence.RunForgetful` | crates/dekopon-agent/src/prompt.rs:620-718 | a whole session, whatever its prompt: a model that runs two scripts and then asks for silence ends silent though the first script used a call, because the counter fell back |
| `Silence.OnlyStory` | crates/dekopon-agent/src/prompt.rs:876-1408 | against that model every log that replays without steers is a part of one story, at whose end silence is due |
| `Environment.Charged` | crates/dekopon-agent/src/prompt.rs:1867-1883 | shown bytes never pass the limit by a fetch, and textual bytes grow by no more than the total |
| `Note.MakeNote` | crates/dekopon-agent/src/progress.rs:101-130 | the one-pass loop equals the declarative note: permitted characters, split at gaps, joined by single spaces, cut to 100 with an ellipsis |
| `Note.NoteSpells` | crates/dekopon-agent/src/progress.rs:101-130 | a note is the visible characters of the text in order with one space for each gap between them, and when that passes 100 characters its first 100, without a space at their end, and an ellipsis |
| `Note.NoteAlphabet` | crates/dekopon-agent/src/progress.rs:101-130 | which characters are dropped and which make a gap, by their code points |
| `Note.NoteNormalForm` | crates/dekopon-agent/src/progress.rs:101-130 | a note is None exactly if nothing but gaps is permitted, has at most 101 characters, is in normal form, and is its own note |
| `Note.TurnStream.constructor` | crates/dekopon-agent/src/prompt.rs:1432-1449 | a stream starts with nothing forwarded |
| `Note.TurnStream.Observe` | crates/dekopon-agent/src/prompt.rs:1451-1463 | a delta is always taken, and the model is stopped exactly if the session is cancelled |
| `Note.TurnStream.Append` | crates/dekopon-agent/src/prompt.rs:1465-1487 | what is forwarded stays a prefix of the deltas with their running character counts, within 8 KiB |
| `Note.ForwardsLongest` | crates/dekopon-agent/src/prompt.rs:1465-1487 | the forwarded prefix is the longest one within the bound |
| `CacheRuns.Drive` | crates/dekopon-broker-host/src/cwasm.rs:159-312 | over any run of loads, publications, precompilations, prunes, boots, crashes and damage from an empty disk: each step leaves exactly the disk and the mapped components its reference gives and hands out a component exactly if that does; every component handed out is the one direct compilation gives; and without foreign objects the store never exceeds 1024 objects or 2 GiB |
| `CacheRuns.Take` | crates/dekopon-broker-host/src/cwasm.rs:159-312 | each step does to disk and mapped components what its reference says, keeps the index bindings truthful, gives only agreeing components, and keeps the capacity bound |
| `CacheRuns.CrashedPublish` | crates/dekopon-broker-host/src/cwasm.rs:159-250 | a publication that dies at any point leaves exactly what it had done, temporary files included; it forges no binding and does not outgrow the store |
| `CacheRuns.OnlyIndexMissing` | crates/dekopon-broker-host/src/cwasm.rs:229-238 | a crash after the object was written leaves what publishing leaves, but for the index |
| `CacheRuns.CrashedObject` | crates/dekopon-broker-host/src/cwasm.rs:229-237 | a crash while an object is written leaves a part of it that the capacity check had let through |
| `CacheRuns.DamageForgesNothing` | crates/dekopon-broker-host/src/cwasm.rs:455-461 | whatever objects become and whichever indexes are lost or garbled, no binding is forged, and nothing but a spoiled object changes the store |
| `CacheRuns.DamageIsDone` | crates/dekopon-broker-host/src/cwasm.rs:455-461 | what damage does: the object is replaced or gone, and the index gone or garbled, where there is a place for it |
| `CacheRuns.PruneStep` | crates/dekopon-broker-host/src/cwasm.rs:108-147 | a prune does what its reference says, forges no binding and keeps the capacity bound, even when it fails |
| `Cwasm.LoadAgrees` | crates/dekopon-broker-host/src/cwasm.rs:257-274 | a loaded component, mapped now or reused from memory, is the one direct compilation of that source gives |
| `Cwasm.LoadMeans` | crates/dekopon-broker-host/src/cwasm.rs:252-358 | a source maps exactly if its index is well formed and the object it names is mapped already, or is stored with just the length and digest the index states and deserializes; it is not cached exactly if it has no index; and it cannot be read exactly if a directory stands where a file is needed |
| `Cwasm.FreshBootLoads` | crates/dekopon-broker-host/src/cwasm.rs:257-358 | a fresh boot maps a stored source exactly if its artifact deserializes and is not empty |
| `Cwasm.EmptyArtifactIsRefused` | crates/dekopon-broker-host/src/cwasm.rs:333-356 | an intact empty artifact with its index in place does not load |
| `Cwasm.Cache.LoadSource` | crates/dekopon-broker-host/src/cwasm.rs:252-274 | a load answers as the disk and the mapped components say, remembers what it maps and changes nothing else |
| `Cwasm.Cache.MapEntry` | crates/dekopon-broker-host/src/cwasm.rs:301-312 | an intact object is mapped and remembered by its digest exactly if it deserializes |
| `Cwasm.Cache.Repair` | crates/dekopon-broker-host/src/cwasm.rs:166-200 | the index goes, and the object it names exactly if it is damaged, and nothing else; if the index cannot be read nothing is touched |
| `Cwasm.Cache.CheckObject` | crates/dekopon-broker-host/src/cwasm.rs:214-228 | an existing object is reused if intact and removed if damaged, so a later publication never meets an existing path |
| `Cwasm.Cache.StoreObject` | crates/dekopon-broker-host/src/cwasm.rs:229-237 | a missing object is published exactly if the store has room, and the store stays within its limits |
| `Cwasm.Cache.Store` | crates/dekopon-broker-host/src/cwasm.rs:229-238 | object before index, each published where nothing is; it succeeds exactly if there is a place for the index and, unless the object is there already, for the object and its bytes; the disk is exactly as far as it got |
| `Cwasm.Cache.Install` | crates/dekopon-broker-host/src/cwasm.rs:201-250 | it succeeds exactly if what is stored under the digest can be read or is missing, there is a place for the index and the object, and the artifact deserializes; then the artifact is intact, indexed and mapped, with every other binding and intact object kept |
| `Cwasm.Cache.Publish` | crates/dekopon-broker-host/src/cwasm.rs:159-250 | publication succeeds exactly if the source loads or its index can be read or is missing, it compiles to at most 512 MiB that deserialize, what is stored under the artifact's digest can be read or is missing, nothing is in the way, and the object is intact or beside the others, if any, makes at most 1024 objects and 2 GiB; it leaves exactly that disk, gives what direct compilation gives, keeps every other source, reports a hit, a repair or a compilation exactly as the disk was before, and leaves the source loadable by a fresh boot unless its artifact is empty |
| `Cwasm.PublishableMeans` | crates/dekopon-broker-host/src/cwasm.rs:159-250 | clearing damage away and then compiling, storing and mapping succeeds exactly if that condition on the disk as it was holds |
| `Cwasm.ReadableDamageIsPassed` | crates/dekopon-broker-host/src/cwasm.rs:159-250 | where nothing is in the way, fewer than 1024 objects are stored and 2 GiB hold them and the new one, no damage that can be read keeps a source from being published |
| `Cwasm.Cache.Precompile` | crates/dekopon-broker-host/src/cwasm.rs:88-106 | it succeeds exactly if the source is ready, or if its entry can be read and publication would succeed; a source that is ready is a hit and nothing is touched; with nothing mapped the source's artifact is then intact on disk |
| `Cwasm.Disk.CreateDir` | crates/dekopon-broker-host/src/cwasm.rs:229-234 | a directory is created if it is missing, and fails exactly on a file in its place |
| `Cwasm.Disk.PublishNew` | crates/dekopon-broker-host/src/cwasm.rs:438-452 | a file is only ever written where there is none |
| `Cwasm.Disk.RemoveFile` | crates/dekopon-broker-host/src/cwasm.rs:358-362 | exactly that file is removed |
| `Cwasm.EnsureCapacity` | crates/dekopon-broker-host/src/cwasm.rs:424-436 | the check inside the listing loop, in any order, accepts exactly an empty store, or fewer than 1024 objects whose lengths and the new one come to at most 2 GiB |
| `Cwasm.TotalIsSum` | crates/dekopon-broker-host/src/cwasm.rs:424-436 | the total of a listing is the sum of its file lengths, however its names are enumerated |
| `Cwasm.CapacityIsEnough` | crates/dekopon-broker-host/src/cwasm.rs:424-436 | one publication after the check stays within both limits, though the check skips an empty store |
| `FileTree.RemoveTree` | crates/dekopon-broker-host/src/cwasm.rs:51-70 | every file of the tree is counted, and its bytes up to saturation |
| `FileTree.FilesAreCounted` | crates/dekopon-broker-host/src/cwasm.rs:51-70 | a tree has as many files as there are paths to one, and as many bytes as lie at their ends |
| `Prune.PruneCache` | crates/dekopon-broker-host/src/cwasm.rs:108-147 | a prune leaves exactly the live indexes of this engine and the objects they name, counts a file for each path that is gone and its bytes up to saturation, fails exactly if a file stands where a directory belongs or a live index is no index, and then has deleted no object |
| `Prune.PrunedKeepsExactly` | crates/dekopon-broker-host/src/cwasm.rs:108-147 | what a prune keeps, by name: of the two directories, the index of each live source, and each object an index of a live source names, with their contents |
| `Prune.PrunableMeans` | crates/dekopon-broker-host/src/cwasm.rs:108-147 | a prune is obstructed exactly by a file in place of a directory or a live index that is there and is none |
| `Prune.PruneKeepsLive` | crates/dekopon-broker-host/src/cwasm.rs:108-147 | every live source loads exactly as before |
| `Prune.PruneIsIdempotent` | crates/dekopon-broker-host/src/cwasm.rs:108-147 | pruning a pruned disk changes nothing |
| `Prune.PruneTwice` | crates/dekopon-broker-host/src/cwasm.rs:108-147 | the second of two prunes succeeds and removes nothing |
| `Prune.ThinnedKeepsTrust` | crates/dekopon-broker-host/src/cwasm.rs:108-147 | removing files never forges a binding |
| `Prune.SweepRoot` | crates/dekopon-broker-host/src/cwasm.rs:116-120 | everything beside the engine's directory and the objects goes, and is counted |
| `Prune.SweepIndexes` | crates/dekopon-broker-host/src/cwasm.rs:121-140 | dead indexes go, live ones name the objects to keep, and an unreadable live index stops the prune |
| `Prune.SweepObjects` | crates/dekopon-broker-host/src/cwasm.rs:141-145 | exactly the objects nobody refers to go, and are counted |
| `Base64.DecodeEncode` | crates/dekopon-core/src/base64.rs:15-18 | decoding an encoded text gives it back (section 4 of RFC 4648) |
| `Base64.SymbolsAreStandard` | crates/dekopon-core/src/base64.rs:15-18 | the 64 symbols are the capitals, the small letters, the digits, plus and slash, in this order, and each one's value is its place (section 4 of RFC 4648) |
| `Base64.GroupIsBigEndian` | crates/dekopon-core/src/base64.rs:15-18 | three bytes are four values of six bits, the first byte first |
| `Base64.EncodeDecode` | crates/dekopon-core/src/base64.rs:66-73 | the decoder accepts nothing but what the encoder writes: stray bits and interior padding are refused |
| `Base64.DecodedLenIsExact` | crates/dekopon-core/src/base64.rs:33-45 | the size and the last two bytes of a canonical text tell its decoded length |
| `Base64.Write` | crates/dekopon-core/src/base64.rs:57-86 | feeding a chunk is feeding its bytes; it fails exactly if the validator is invalid, for good |
| `Base64.ChunksDoNotMatter` | crates/dekopon-core/src/base64.rs:57-86 | where a text is cut into chunks makes no difference |
| `Base64.InvalidMeans` | crates/dekopon-core/src/base64.rs:57-86 | a validator is invalid exactly if a complete group was not canonical or something followed padding |
| `Base64.ValidatorDecides` | crates/dekopon-core/src/base64.rs:57-98 | a validator finishes exactly on canonical texts, having counted their decoded bytes |
| `Base64.ReadDecodedIsSlice` | crates/dekopon-http-host/src/stream.rs:256-294 | a positional read of a canonical text is the slice of what it decodes to |
| `Asset.DigestOf` | crates/dekopon-broker-host/src/asset.rs:373-403 | the chunked loop hashes exactly the decoded content, and fails if the content does not decode |
| `Asset.VerdictMeans` | crates/dekopon-broker-host/src/asset.rs:170-174 | the violation is None exactly if nothing was refused, and otherwise the first refusal, unless a call other than a read ran out of budget |
| `Asset.OverBudgetStays` | crates/dekopon-broker-host/src/asset.rs:170-174 | an over-budget violation is never replaced |
| `Asset.AssetState.constructor` | crates/dekopon-broker-host/src/asset.rs:245-266 | an invocation starts with nothing written, sent, refused or attempted |
| `Asset.AssetState.Reject` | crates/dekopon-broker-host/src/asset.rs:170-174 | a refusal is remembered by the rule of the verdict |
| `Asset.AssetState.NoteFailedRead` | crates/dekopon-broker-host/src/asset.rs:481-512 | a failed read is remembered only if nothing was before it |
| `Asset.AssetState.ChargeStream` | crates/dekopon-broker-host/src/asset.rs:185-198 | streamed bytes are charged, or refused above the ceiling without a charge |
| `Asset.TakenExtends` | crates/dekopon-broker-host/src/asset.rs:571-619 | a chunk that is taken extends its writer, within the stored, decoded and invocation limits |
| `Asset.JudgedBy` | crates/dekopon-broker-host/src/asset.rs:571-611 | a chunk is turned away as Io exactly if the writer is closed, as TooLarge only above a limit, as InvalidEncoding only if a complete group of the text is not canonical, and taken exactly if none of these is so |
| `Asset.AssetState.Write` | crates/dekopon-broker-host/src/asset.rs:561-625 | a chunk is appended and charged, or the writer loses its spool for good and the reason is the first check or the storage fault that failed |
| `Asset.AssetState.AcceptChunk` | crates/dekopon-broker-host/src/asset.rs:612-624 | a chunk that fits is charged before it is stored, and a storage fault closes the writer |
| `Asset.AssetState.LinkedWrite` | crates/dekopon-broker-host/src/asset.rs:521-559 | an oversize list is refused without closing the writer; any other goes on to the write; it traps exactly if inactive or, not oversize, without such a writer |
| `Asset.AssetState.Open` | crates/dekopon-broker-host/src/asset.rs:633-688 | the first asset handed in under an id and not removed opens, as the first row of that id describes it, with a cursor of its own at its start; an id that none was handed in under or no row has, or that was removed, is unknown; the first fault decides any refusal |
| `Asset.FindInputMeans` | crates/dekopon-broker-host/src/asset.rs:633-688 | what is found under an id is the first content handed in under it, and nothing exactly if none was |
| `Asset.AssetState.Allocate` | crates/dekopon-broker-host/src/asset.rs:689-720 | an active guest gets a new empty writer, unless there is no directory or the allocation fails |
| `Asset.AssetState.Attach` | crates/dekopon-broker-host/src/asset.rs:721-788 | the writer is gone either way; on success the next output is exactly what it accepted, and every refusal has its reason |
| `Asset.AssetState.PublishFile` | crates/dekopon-broker-host/src/asset.rs:749-787 | the output's descriptor, length and digest are those of the file, which decodes |
| `Asset.AssetState.Remove` | crates/dekopon-broker-host/src/asset.rs:803-830 | an id is removed at most once and never after being sent |
| `Asset.AssetState.Send` | crates/dekopon-broker-host/src/asset.rs:831-865 | an id is sent at most once, never after removal, and takes one from the allowance |
| `Asset.AssetState.RecordDigest` | crates/dekopon-broker-host/src/asset.rs:405-416 | the whole content is digested before a handed-in asset's first read is answered |
| `Asset.AssetState.ReadHandle` | crates/dekopon-broker-host/src/asset.rs:405-432 | a read is a slice of the decoded content of at most a chunk, or the first fault of its digest or its I/O |
| `Asset.AssetState.Read` | crates/dekopon-broker-host/src/asset.rs:481-499 | sequential reads of a handle concatenate to its decoded content up to its cursor; no other handle moves |
| `Asset.AssetState.ReadPosition` | crates/dekopon-broker-host/src/asset.rs:500-512 | a positional read moves no cursor |
| `Asset.AssetState.Stream` | crates/dekopon-broker-host/src/lib.rs:516-612 | a streamed request charges its parts in order, keeps the charge when it fails, is refused unconfigured, above the ceiling or as its I/O fails, and otherwise answers with a new handle to the response |
| `Asset.AssetState.ChargeParts` | crates/dekopon-broker-host/src/lib.rs:535-549 | parts are charged up to the first that is unknown or too much |
| `Asset.AssetState.DropHandle` | crates/dekopon-broker-host/src/asset.rs:513-516 | exactly that handle goes |
| `Asset.AssetState.DropWriter` | crates/dekopon-broker-host/src/asset.rs:626-629 | exactly that writer goes |
| `Invocation.Admit` | crates/dekopon-broker-host/src/asset.rs:204-266 | handed-in assets are admitted exactly if there are at most five, rows and read-only files pair off under distinct ids with the stated lengths, each decodes, and together they decode to at most 500 MiB; each row gets its own file; and the first pair out of order gives the reason |
| `Invocation.HasDuplicates` | crates/dekopon-broker-host/src/asset.rs:220-223 | counting distinct ids finds out exactly whether one occurs twice |
| `Invocation.Perform` | crates/dekopon-broker-host/src/asset.rs:472-865 | any guest call keeps the invariant, never lowers the charge, counts as an attempt unless it only drops a resource, is done, refused or traps exactly as the reference for one call says, and gives the bytes that reference reads |
| `Invocation.RunGuest` | crates/dekopon-broker-host/src/asset.rs:472-865 | over every call sequence the invariant holds, the run is clean, refused or trapped exactly as the reference run says, its reads give what the reference reads, and one that is not trapped has attempted asset use exactly if a call did |
| `Meaning.PlayMatches` | crates/dekopon-broker-host/src/asset.rs:472-865 | after a clean run of the reference, the texts of open writers, the assets handles stand for, files, sends and removals are exactly what the list of calls says |
| `Measures.PlayMeasures` | crates/dekopon-broker-host/src/asset.rs:472-865 | after a clean run the charge is the decoded bytes of everything written, to any writer, and of every part streamed; each open handle is what its call made it, and its cursor stands where its sequential reads ended |
| `Measures.HeldIsWeight` | crates/dekopon-broker-host/src/asset.rs:571-619 | what a writer is charged for is what the complete groups of its text decode to |
| `Measures.WeightMeans` | crates/dekopon-broker-host/src/asset.rs:571-619 | a group that is not complete weighs nothing, and canonical text what it decodes to |
| `Measures.ReadsFromStart` | crates/dekopon-broker-host/src/asset.rs:481-499 | the sequential reads of a handle, read off the calls, give the decoded content of what its call made it from, the first asset handed in under the id it opened, the text written to the writer it attached or the response it streamed, from its start, in order, whatever comes between them |
| `Measures.PlayReads` | crates/dekopon-broker-host/src/asset.rs:481-512 | every read of a clean run gives the decoded content of what its handle was made from, at the offset named or where the reads before it ended, up to the count, 64 KiB or the end |
| `Calls.SentInOrder` | crates/dekopon-broker-host/src/asset.rs:831-865 | what was sent and removed, in its order, stays so as the run goes on |
| `Calls.SentByMeans` | crates/dekopon-broker-host/src/asset.rs:831-865 | an asset is among those a run sent exactly if a call sent it, by a handle that was opened on it, and its row does not say that it was sent before |
| `Calls.WriteLimits` | crates/dekopon-broker-host/src/asset.rs:571-611 | a chunk oversteps exactly if it is above 64 KiB, or the file as stored then passes 8 MiB (11184812 bytes in base64), or the asset decodes to more than 8 MiB, or what the invocation wrote passes 40 MiB |
| `Calls.ReadMeans` | crates/dekopon-broker-host/src/asset.rs:405-432 | a read of a handed-in asset first digests it, once; the first of a failing digest, a content that does not decode and a failing read is the refusal; and otherwise only this handle's cursor moves, by what was given, and only if it is to |
| `Calls.ChargeMeans` | crates/dekopon-broker-host/src/lib.rs:535-549 | a request is charged for all its parts exactly if all are known and fit the 40 MiB of the invocation; otherwise those before the first wrong one are charged |
| `Calls.StreamMeans` | crates/dekopon-broker-host/src/lib.rs:516-612 | a request is refused unconfigured, if its parts are known but pass 40 MiB, or as its I/O fails, ends the call at a part that is unknown, and otherwise answers with a new handle to the response and is charged for its parts |
| `Calls.SendMeans` | crates/dekopon-broker-host/src/asset.rs:831-865 | a send is refused if it is not granted, if the handle's asset has no id or was removed, or if the allowance is used up, the first of these being the reason; what was sent before costs nothing |
| `Calls.RemoveMeans` | crates/dekopon-broker-host/src/asset.rs:803-830 | a removal is refused if it is not granted, if the handle's asset has no id, or if it was sent, the first of these being the reason; removing again changes nothing |
| `Calls.AttachMeans` | crates/dekopon-broker-host/src/asset.rs:721-788 | a writer is attached exactly if that is granted, fewer than five files are, its text is complete, nothing written to it was refused and finishing it does not fail; the first of these that is not so is the reason |
| `Calls.AllocateMeans` | crates/dekopon-broker-host/src/asset.rs:689-720 | a writer is allocated exactly if there is a directory and the allocation does not fail, and is then new and empty |
| `Calls.OpenMeans` | crates/dekopon-broker-host/src/asset.rs:633-688 | an asset opens exactly if one was handed in under the id and not removed, its row states a length, its stored length is one its encoding allows, and looking at that does not fail |
| `Invocation.Invoke` | crates/dekopon-broker-host/src/lib.rs:1364-1398 | an invocation is delivered exactly if its assets are admissible and every call is done; what it delivers is then the concatenated chunks its calls wrote, in attach order, and what its calls on opened handles sent and removed, each once, disjoint and within the allowance; and every read gave the guest the decoded content its handle was made from, for an opened one the descriptor passed under the id it named, at its own place |
| `Invocation.RunAndFinish` | crates/dekopon-broker-host/src/lib.rs:1380-1386 | a recorded violation rejects the invocation whatever the guest made of it |
| `Attachment.ReplyAttachments.constructor` | crates/dekopon-agent/src/attachment.rs:233-250 | a reply starts with nothing spent or queued |
| `Attachment.ReplyAttachments.Remaining` | crates/dekopon-agent/src/attachment.rs:251-253 | what is spent and what remains make up the limit, and nothing remains beyond it |
| `Attachment.ReplyAttachments.Take` | crates/dekopon-agent/src/attachment.rs:257-259 | everything queued is handed over once, in order |
| `Attachment.ReplyAttachments.Admit` | crates/dekopon-agent/src/attachment.rs:260-284 | an image is queued exactly if a slot is left and, where all are held at once, its size is known and fits the budget beside the decoded bytes of all accepted so far; it is refused for bytes exactly if a slot is left and it is over, and for storage exactly if its size is not known; either still costs the slot |
| `Attachment.DecodedBytesAdd` | crates/dekopon-agent/src/attachment.rs:260-284 | the decoded bytes of accepted images add up image by image |
| `Attachment.ReplyAttachments.SpendFailed` | crates/dekopon-agent/src/attachment.rs:320-326 | a send the store failed on costs a slot, up to saturation |
| `Attachment.ReplyAttachments.ReceiveSend` | crates/dekopon-agent/src/attachment.rs:308-333 | a send the store knows nothing of is passed over and costs nothing, one it fails on costs a slot and is reported, and a found image is queued at the next place or refused for its slot, its size or its bytes, exactly as what was spent and accepted before decides |
| `Attachment.ReplyAttachments.ReceiveSends` | crates/dekopon-agent/src/attachment.rs:308-333 | each line is the one that the slots spent and the bytes accepted before it decide, for every reason of refusal; what is queued is what the lines say, in order |
| `Attachment.ReplyAttachments.Finish` | crates/dekopon-agent/src/attachment.rs:341-363 | the attachments end once, and the store hears of it exactly if something was accepted and it was abandoned, failed or partly delivered with an accepted one among the failed |
| `Attachment.TakeStep` | crates/dekopon-agent/src/attachment.rs:251-363 | one critical section: a send, a take or the end |
| `Attachment.Interleave` | crates/dekopon-agent/src/attachment.rs:251-363 | under any interleaving each line is the one that the slots spent and the bytes accepted before it decide; what is accepted is what the lines say and no more than the limit allows, and taken and queued images are the accepted ones in order |
| `RunAssets.ServeAll` | crates/dekopon-agent/src/lib.rs:760-769 | over invocations that follow one another, each given the allowance that remains, each ends as its calls say, every send that gets through has its line, and none is refused for want of allowance |
| `RunAssets.Serve` | crates/dekopon-agent/src/lib.rs:900-917 | one invocation is run exactly if it can be prepared, is admitted if the store answers truly, ends exactly as its calls say under the remaining allowance, and queues exactly what its lines say |
| `RunAssets.Overlap` | crates/dekopon-agent/src/lib.rs:994-997 | over any number of overlapping invocations a send is refused for want of allowance exactly if a send the store finds comes after as many that cost a slot as there were slots left |
| `RunAssets.OneSlotForTwo` | crates/dekopon-agent/src/attachment.rs:308-333 | with one slot left two found sends want allowance, but not if the store knows nothing of the first |
| `RunAssets.RunArguments` | crates/dekopon-agent/src/attachment.rs:476-520 | every index names its own asset, each asset is passed once in order of first mention, and the first fault decides any refusal |
| `RunAssets.FaultMeans` | crates/dekopon-agent/src/attachment.rs:476-520 | arguments are in order exactly if none is a data URL and at most five distinct assets are named |
| `RunAssets.FaultIsFirst` | crates/dekopon-agent/src/attachment.rs:476-520 | the refusal is that of the first argument that is a data URL or names a sixth asset |
| `RunAssets.DataUrlMeans` | crates/dekopon-agent/src/attachment.rs:476-520 | an argument is taken for a data URL exactly if it, or what follows its first equals sign, reads data and a colon, in any case of its letters, after nothing but white space |
| `RunAssets.DistinctMeans` | crates/dekopon-agent/src/attachment.rs:500-511 | the passed assets are exactly those named, without repetition |
| `RunAssets.IndexOf` | crates/dekopon-agent/src/attachment.rs:500-511 | a known id keeps its index, a new one gets the next, and a sixth is refused |
| `RunAssets.Gather` | crates/dekopon-agent/src/attachment.rs:453-465 | inputs are collected exactly if all are there, readable and within the decoded limit, and the first that is not gives the refusal |
| `RunAssets.PrepareRun` | crates/dekopon-agent/src/attachment.rs:442-475 | a run is prepared exactly if its arguments are in order and its inputs are usable and fit, and the first fault of either decides the refusal |
| `RunAssets.PreparedIsAdmissible` | crates/dekopon-broker-host/src/asset.rs:204-266 | what the agent prepares from a store that answers truly, the broker admits |

## Left out

- Cwasm.Cache.LoadSource: an object is compared with its digest as a whole, because a digest is modelled as injective; the buffered hashing loop is not.
- Cwasm.Disk.PublishNew: writing a temporary file and renaming it are one step, except in a crash, which leaves the temporary file.
- Base64.ReadDecodedIsSlice: a text that is not canonical is refused as a whole from the aligned offset on; the library's streaming decoder may hand out bytes before it meets the fault.
- Asset.AssetState.Allocate: writers and handles are named by fresh numbers; reuse of resource table slots is not modelled.
- Asset.AssetState.Attach: content types and origins are not modelled.
- Asset.AssetState.Stream: literal parts, wire encodings, statuses and headers are not modelled; signed downloads, which also answer with a handle, are not part of this model.
- Attachment.ReplyAttachments.ReceiveSends: removals and registrations around the sends, and the wording of the note, are not modelled.
- PromptSession.Session.Serve: built-in tools are abstracted to their contract of one tool result on success and none on failure; argument parsing is a verdict of the environment, and an answer that cannot be written out counts as malformed arguments except from the wake-reason view.
- PromptSession.Session.FetchInto: truncation of textual assets and the pinning of carried assets are inside the environment's answer.
- PromptSession.Session.AskModel: streamed deltas are modelled by themselves in `Note.TurnStream`; usage, timing and segmenting of the transcript are not.
- Note.TurnStream.Append: the counter of deltas and the time of the first one, which only feed telemetry, are not modelled.
- `list` and `info` of the asset interface, and command words, which are views.
- Improvement suggestions, listed models, durations and the text of notices in a session's outcome and events.
- The production mailbox, the shell interpreter, call-budget refunds, history trimming and the broker's policy engine.
- Tokio, sockets, descriptor passing, timeouts and tracing; the host's clock, HTTP and storage violations, which are checked beside the asset violation.
- Wasmtime linking, memory mapping and file modes.
