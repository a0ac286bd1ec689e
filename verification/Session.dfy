/** The turn loop of a prompt session. */
module PromptSession {
  import opened Text
  import opened Conversation
  import opened Capture
  import opened Tools
  import opened Progress
  import opened Mailbox
  import opened Audit
  import opened Environment
  import opened Replay

  datatype PromptOutcome = PromptOutcome(
    answer: string, suppress: bool, modelTurns: nat, scriptCalls: nat, capabilityInvocations: nat)

  datatype Result = Ok(outcome: PromptOutcome) | Err(error: PromptError)

  datatype Flow = Next | Stop(result: Result)

  /** With a well-formed opening, exactly these calls wait for their results. */
  ghost predicate Owing(opening: seq<Message>, messages: seq<Message>, ids: seq<string>) {
    Owed(opening) == Some([]) ==> Owed(messages) == Some(ids)
  }

  /** Requests grow from the opening, each extending the one before, and each owes nothing. */
  ghost predicate AppendOnly(requests: seq<seq<Message>>, opening: seq<Message>, messages: seq<Message>) {
    && opening <= messages
    && (forall i | 0 <= i < |requests| ::
          opening <= requests[i] <= messages && Owing(opening, requests[i], []))
    && (forall i, j | 0 <= i < j < |requests| :: requests[i] <= requests[j])
  }

  lemma AppendOnlyGrows(requests: seq<seq<Message>>, opening: seq<Message>, messages: seq<Message>, more: seq<Message>)
    requires AppendOnly(requests, opening, messages)
    ensures AppendOnly(requests, opening, messages + more)
  {
    forall i | 0 <= i < |requests| ensures requests[i] <= messages + more {
      assert requests[i] == messages[..|requests[i]|] == (messages + more)[..|requests[i]|];
    }
    assert opening == messages[..|opening|] == (messages + more)[..|opening|];
  }

  /** A request made of the messages as they are extends the requests before it. */
  lemma RequestAppends(requests: seq<seq<Message>>, opening: seq<Message>, messages: seq<Message>)
    requires AppendOnly(requests, opening, messages) && Owing(opening, messages, [])
    ensures AppendOnly(requests + [messages], opening, messages)
  {
  }

  lemma EmitKeepsQuiet(events: seq<Event>, event: Event)
    requires NoneTerminal(events) && !IsTerminal(event)
    ensures NoneTerminal(events + [event])
  {
  }

  /** Record and message list are both the projection of one log. */
  ghost predicate Simulated(
    log: seq<Entry>, opening: seq<Message>, messages: seq<Message>,
    first: Item, items: seq<Item>, startKey: string, key: string, cap: nat)
  {
    && messages == opening + Messages(log)
    && items == [first] + Items(log, startKey, cap)
    && key == Key(log, startKey)
  }

  lemma SimulatedExtend(
    log: seq<Entry>, opening: seq<Message>, messages: seq<Message>,
    first: Item, items: seq<Item>, startKey: string, key: string, cap: nat, entry: Entry)
    requires Simulated(log, opening, messages, first, items, startKey, key, cap)
    ensures Simulated(log + [entry], opening, messages + EntryMessages(entry), first,
                      items + EntryItems(entry, key, cap), startKey,
                      if entry.ModelTurn? then KeyAfter(key, entry.turn) else key, cap)
  {
    Extend(log, entry, startKey, cap);
    Associative(opening, Messages(log), EntryMessages(entry));
    Associative([first], Items(log, startKey, cap), EntryItems(entry, key, cap));
  }

  lemma SimulatedSteers(
    log: seq<Entry>, opening: seq<Message>, messages: seq<Message>,
    first: Item, items: seq<Item>, startKey: string, key: string, cap: nat, steers: seq<Steer>)
    requires Simulated(log, opening, messages, first, items, startKey, key, cap)
    ensures Simulated(log + SteerEntries(steers), opening, messages + SteerMessages(steers), first,
                      items + SteerItems(RecordedTexts(steers), cap), startKey, key, cap)
    ensures LoggedSteers(log + SteerEntries(steers)) == LoggedSteers(log) + steers
  {
    StageExtendsMessages(log, steers);
    StageExtendsItems(log, steers, startKey, cap);
    Associative(opening, Messages(log), SteerMessages(steers));
    Associative([first], Items(log, startKey, cap), SteerItems(RecordedTexts(steers), cap));
  }

  lemma SteersJoin(
    opening: seq<Message>, messages: seq<Message>, requests: seq<seq<Message>>, steers: seq<Steer>)
    requires Owing(opening, messages, []) && AppendOnly(requests, opening, messages)
    ensures AppendOnly(requests, opening, messages + SteerMessages(steers))
    ensures Owing(opening, messages + SteerMessages(steers), [])
  {
    AppendOnlyGrows(requests, opening, messages, SteerMessages(steers));
    if Owed(opening) == Some([]) {
      SteersKeepNothingOwed(messages, steers);
    }
  }

  lemma NonSteerAppend(log: seq<Entry>, entry: Entry)
    requires !entry.PersonSteer? && !entry.NoticeSteer?
    ensures LoggedSteers(log + [entry]) == LoggedSteers(log)
  {
    LoggedSteersAppend(log, entry);
    assert [entry][..0] == [];
  }

  lemma ResultSettles(opening: seq<Message>, messages: seq<Message>, ids: seq<string>, text: string)
    requires ids != [] && Owing(opening, messages, ids)
    ensures Owing(opening, messages + [ToolResult(ids[0], text)], ids[1..])
  {
    OwedAppend(messages, ToolResult(ids[0], text));
  }

  lemma MediaAfterResult(opening: seq<Message>, messages: seq<Message>, ids: seq<string>, media: Message)
    requires media.Media? && messages != [] && messages[|messages| - 1].ToolResult?
    requires Owing(opening, messages, ids)
    ensures Owing(opening, messages + [media], ids)
  {
    OwedAppend(messages, media);
  }

  lemma TurnOwesItsCalls(opening: seq<Message>, messages: seq<Message>, turn: Turn)
    requires Owing(opening, messages, [])
    ensures Owing(opening, messages + [Message.Assistant(turn)], CallIds(turn.calls))
  {
    OwedAppend(messages, Message.Assistant(turn));
  }

  /** The model's turns as the log has them. */
  function LoggedTurns(log: seq<Entry>): seq<Turn> {
    if log == [] then []
    else
      LoggedTurns(log[..|log| - 1]) + if log[|log| - 1].ModelTurn? then [log[|log| - 1].turn] else []
  }

  lemma TurnsNext(log: seq<Entry>, entry: Entry)
    ensures LoggedTurns(log + [entry]) == LoggedTurns(log) + if entry.ModelTurn? then [entry.turn] else []
  {
    assert (log + [entry])[..|log|] == log;
    EmptyIsUnit(LoggedTurns(log));
  }

  lemma {:induction false} SteersAreNoTurns(log: seq<Entry>, steers: seq<Steer>)
    ensures LoggedTurns(log + SteerEntries(steers)) == LoggedTurns(log)
  {
    if steers == [] {
      EmptyIsUnit(log);
    } else {
      var front, last := steers[..|steers| - 1], steers[|steers| - 1];
      SteersAreNoTurns(log, front);
      assert SteerEntries(steers) == SteerEntries(front) + [SteerEntry(last)];
      Associative(log, SteerEntries(front), [SteerEntry(last)]);
      TurnsNext(log + SteerEntries(front), SteerEntry(last));
      EmptyIsUnit(LoggedTurns(log));
    }
  }

  /** The loop's own variables, and what it has emitted and asked for. */
  datatype Loop = Loop(
    messages: seq<Message>,
    completedTurns: nat,
    scriptCalls: nat,
    capabilityInvocations: nat,
    toolCalls: nat,
    transcribed: seq<Message>,
    assetBytes: AssetBytes,
    firstRejectedTurn: Option<nat>,
    // How often each part of the world has been asked.
    probes: nat,
    modelCalls: nat,
    handled: nat,
    fetched: nat,
    ran: nat,
    // What left the session: progress events and the audit transcript.
    events: seq<Event>,
    audit: seq<AuditEntry>,
    // What happened, in order: the conversation's entries, the requests as built and as sent, how much
    // of the log each was built from, and the turns in which a rejection was answered.
    log: seq<Entry>,
    requests: seq<seq<Message>>,
    prompts: seq<seq<Message>>,
    marks: seq<nat>,
    rejections: seq<nat>)

  /** A request holds the opening and the log so far: all that was said before it, and every call answered. */
  ghost predicate BuiltAt(
    config: Config, world: World, opening: seq<Message>, log: seq<Entry>, request: seq<Message>, mark: nat, n: nat)
  {
    && mark <= |log|
    && request == opening + Messages(log[..mark])
    && LoggedTurns(log[..mark]) == TurnsOf(world, n)
    && DueAt(config, world, PointOf(config, world, log[..mark])) == Idle
  }

  /** Every request was built from the log as it was when the model was asked. */
  ghost predicate AllBuilt(
    config: Config, world: World, opening: seq<Message>, log: seq<Entry>, requests: seq<seq<Message>>, marks: seq<nat>)
  {
    && |marks| == |requests|
    && forall i | 0 <= i < |marks| :: BuiltAt(config, world, opening, log, requests[i], marks[i], i)
  }

  /** What each of the first `n` model calls said follows its own request in the log at once. */
  ghost predicate Followed(world: World, log: seq<Entry>, marks: seq<nat>, n: nat) {
    && n <= |marks|
    && forall i | 0 <= i < n :: FollowedAt(world, log, marks[i], i)
  }

  ghost predicate FollowedAt(world: World, log: seq<Entry>, mark: nat, n: nat) {
    match world.Complete(n)
    case Completed(turn) => mark < |log| && log[mark] == ModelTurn(turn)
    case _ => true
  }

  /** The log only grows, so what was built from it and what follows that stay. */
  lemma LogGrows(
    config: Config, world: World, opening: seq<Message>, log: seq<Entry>, requests: seq<seq<Message>>, marks: seq<nat>,
    n: nat, more: seq<Entry>)
    requires AllBuilt(config, world, opening, log, requests, marks)
    ensures AllBuilt(config, world, opening, log + more, requests, marks)
    ensures Followed(world, log, marks, n) ==> Followed(world, log + more, marks, n)
  {
    hide PointOf, DueAt, LoggedTurns, TurnsOf, Messages;
    forall i | 0 <= i < |marks|
      ensures BuiltAt(config, world, opening, log + more, requests[i], marks[i], i)
    {
      assert BuiltAt(config, world, opening, log, requests[i], marks[i], i);
      assert (log + more)[..marks[i]] == log[..marks[i]];
    }
    if Followed(world, log, marks, n) {
      forall i | 0 <= i < n ensures FollowedAt(world, log + more, marks[i], i) {
        assert FollowedAt(world, log, marks[i], i);
      }
    }
  }

  /** A request made of the whole log joins the requests before it. */
  lemma RequestBuilt(
    config: Config, world: World, opening: seq<Message>, log: seq<Entry>, requests: seq<seq<Message>>, marks: seq<nat>)
    requires AllBuilt(config, world, opening, log, requests, marks)
    requires LoggedTurns(log) == TurnsOf(world, |marks|) && DueAt(config, world, PointOf(config, world, log)) == Idle
    ensures AllBuilt(config, world, opening, log, requests + [opening + Messages(log)], marks + [|log|])
    ensures forall n: nat | Followed(world, log, marks, n) :: Followed(world, log, marks + [|log|], n)
  {
    hide PointOf, DueAt, LoggedTurns, TurnsOf, Messages, FollowedAt;
    assert log[..|log|] == log;
    forall i | 0 <= i < |marks|
      ensures BuiltAt(config, world, opening, log, requests[i], marks[i], i)
    {
    }
  }

  lemma TurnFollows(world: World, log: seq<Entry>, marks: seq<nat>, n: nat, turn: Turn)
    requires Followed(world, log, marks, n) && n < |marks| && marks[n] == |log| && world.Complete(n) == Completed(turn)
    ensures Followed(world, log + [ModelTurn(turn)], marks, n + 1)
  {
    forall i | 0 <= i < n ensures FollowedAt(world, log + [ModelTurn(turn)], marks[i], i) {
      assert FollowedAt(world, log, marks[i], i);
    }
  }

  /** Nothing the log holds helps to log the next prompt: this one was empty, or its call was cut off. */
  ghost predicate Forgotten(world: World, prompts: seq<seq<Message>>, k: nat) {
    k < |prompts| && (prompts[k] == [] || world.Complete(k).Aborted?)
  }

  /**
   * A prompt that extends the one before it is logged as its new messages only, and any other in full;
   * but a prompt after a call that was cut off may be logged in full again.
   */
  ghost predicate Lean(world: World, audit: seq<AuditEntry>, prompts: seq<seq<Message>>) {
    && |audit| == |prompts|
    && forall k: nat | k < |audit| :: LeanAt(world, audit[k], prompts, k)
  }

  ghost predicate LeanAt(world: World, entry: AuditEntry, prompts: seq<seq<Message>>, k: nat)
    requires k < |prompts|
  {
    if entry.full then
      && entry.messages == prompts[k]
      && (k == 0 || Forgotten(world, prompts, k - 1) || !(prompts[k - 1] <= prompts[k]))
    else
      0 < k && prompts[k - 1] <= prompts[k] && entry.messages == prompts[k][|prompts[k - 1]|..]
  }

  lemma LeanNext(
    world: World, audit: seq<AuditEntry>, prompts: seq<seq<Message>>, transcribed: seq<Message>, prepared: seq<Message>)
    requires Reconstructs(audit, prompts, transcribed) && Lean(world, audit, prompts)
    requires transcribed == [] ==> prompts == [] || Forgotten(world, prompts, |prompts| - 1)
    ensures Lean(world, audit + [EntryFor(transcribed, prepared)], prompts + [prepared])
  {
    hide Read, Forgotten;
    var entry, longer := EntryFor(transcribed, prepared), prompts + [prepared];
    EntryIsLean(transcribed, prepared);
    if prompts != [] {
      ForgottenStays(world, prompts, prepared, |prompts| - 1);
    }
    assert LeanAt(world, entry, longer, |prompts|);
    forall k: nat | k < |audit| ensures LeanAt(world, audit[k], longer, k) {
      assert LeanAt(world, audit[k], prompts, k);
      if 0 < k {
        ForgottenStays(world, prompts, prepared, k - 1);
      }
    }
    hide EntryFor, LeanAt;
  }

  lemma ForgottenStays(world: World, prompts: seq<seq<Message>>, prepared: seq<Message>, k: nat)
    requires k < |prompts|
    ensures Forgotten(world, prompts + [prepared], k) == Forgotten(world, prompts, k)
  {
  }

  class Session {
    const config: Config
    const world: World
    const opening: seq<Message>
    const first: Item
    const startKey: string
    const lease: MailboxLease
    const record: RecordBuilder

    constructor (
      config: Config, world: World, opening: seq<Message>, prompt: string, key: string, cap: nat,
      steering: Option<SteerSource>)
      ensures fresh(lease) && fresh(record)
      ensures this.config == config && this.world == world && this.opening == opening
      ensures first == Asked(Keep(prompt, cap)) && startKey == key && record.cap == cap
      ensures lease.source == steering
      ensures Running(Start(), []) && Tracks(Start()) && Settled(Start()) && Resumed(0) && !lease.mailbox.Closed?
    {
      this.config := config;
      this.world := world;
      this.opening := opening;
      first := Asked(Keep(prompt, cap));
      startKey := key;
      lease := new MailboxLease(steering);
      record := new RecordBuilder(prompt, key, cap);
    }

    function Start(): Loop {
      Loop(opening, 0, 0, 0, 0, [], AssetBytes(config.nativeBytes, 0), None, 0, 0, 0, 0, 0, [], [], [], [], [], [], [])
    }

    /** Record, mailbox and message list tell the same story. */
    ghost predicate Tracks(s: Loop)
      reads lease, record
    {
      && lease.Valid()
      && Simulated(s.log, opening, s.messages, first, record.items, startKey, record.key, record.cap)
      && LoggedSteers(s.log) == Handed(lease.contacts)
    }

    /** Holds at every step, and on every exit. */
    ghost predicate Good(s: Loop) {
      && AppendOnly(s.requests, opening, s.messages)
      && AllBuilt(config, world, opening, s.log, s.requests, s.marks)
      && Reconstructs(s.audit, s.prompts, s.transcribed) && Lean(world, s.audit, s.prompts)
      && (s.transcribed == [] ==> s.modelCalls == 0 || Forgotten(world, s.prompts, s.modelCalls - 1))
      && |s.requests| == |s.prompts| == |s.marks| == s.modelCalls && AllPrepared(world, s.requests, s.prompts)
      && (Recorded(s, s.modelCalls) || (0 < s.modelCalls && Recorded(s, s.modelCalls - 1)))
      && s.completedTurns == CompletedCalls(world, s.modelCalls) <= config.maxSteps
      && Replays(config, world, s.log) && Nearly(s)
      && Consistent(s)
      && (config.listening || s.events == [])
    }

    /** Where the log stands. */
    ghost function At(s: Loop): Point {
      PointOf(config, world, s.log)
    }

    /** What has to come next. */
    ghost function Awaited(s: Loop): Due {
      DueAt(config, world, At(s))
    }

    /** The world's answers used so far. */
    function Spent(s: Loop): Use {
      Use(s.handled, s.fetched, s.ran, |s.rejections|, s.firstRejectedTurn)
    }

    /** Every answer used is in the log. */
    ghost predicate Level(s: Loop) {
      Spent(s) == At(s).used
    }

    /** At most one answer used is not in the log: the one that ended the session. */
    ghost predicate Nearly(s: Loop) {
      var used := At(s).used;
      || Spent(s) == used
      || Spent(s) == used.(handled := used.handled + 1)
      || Spent(s) == used.(fetched := used.fetched + 1)
      || Spent(s) == used.(ran := used.ran + 1)
    }

    /** Rejections were answered in one turn only, and the bytes shown are those of the fetches, in bounds. */
    ghost predicate Consistent(s: Loop) {
      && (forall i | 0 <= i < |s.rejections| :: s.firstRejectedTurn == Some(s.rejections[i]))
      && s.assetBytes == BytesAfter(config, world, s.fetched)
      && config.nativeBytes + s.assetBytes.text <= s.assetBytes.total
      && (s.assetBytes.total <= MAX_SHOWN_BYTES || s.assetBytes.total == config.nativeBytes)
    }

    /** The turns in the log are what the model said in its first `n` calls, each after its own request. */
    ghost predicate Recorded(s: Loop, n: nat) {
      && LoggedTurns(s.log) == TurnsOf(world, n)
      && At(s).turns == CompletedCalls(world, n)
      && Followed(world, s.log, s.marks, n)
    }

    /** Holds while the loop runs and the calls with these ids wait for their results. */
    ghost predicate Running(s: Loop, ids: seq<string>) {
      && Good(s) && Level(s)
      && Owing(opening, s.messages, ids) && Pending(At(s)) == |ids|
      && NoneTerminal(s.events)
      && Counted(s)
      && Unstopped(world, s.probes)
    }

    /** Scripts and the capability calls they used, as the outcome will report them. */
    ghost predicate Counted(s: Loop) {
      && s.capabilityInvocations == world.UsedAfter(s.ran)
      && s.scriptCalls == SaturatingAdd(0, s.ran)
    }

    /**
     * The source was asked once before each model call, and once more after all turns without calls but
     * the last; a listener heard of each of those calls, of this many answers and of every batch of
     * steers; and the turns of the first `n` model calls had their tool calls counted.
     */
    ghost predicate Accounted(s: Loop, answered: nat, n: nat)
      reads lease
    {
      var asking := Askings(lease.contacts);
      && (lease.source.Some? ==> asking.taken == s.modelCalls)
      && asking.handoffs <= CalllessTurns(world, n) <= asking.handoffs + 1
      && s.toolCalls == CallsMade(world, n)
      && (config.listening ==> Told(s.events) == Tally(s.modelCalls, answered, asking.batches, true))
      && Work(s) <= s.probes + (s.completedTurns - answered)
    }

    /** Each of these turns without calls was followed by steers that kept the session going. */
    ghost predicate Resumed(turns: int)
      reads lease
    {
      Askings(lease.contacts).handoffs == turns
    }

    /**
     * What must not be done unless a look for a stop came before it: a model call, taking a turn in,
     * a tool call; a script takes two looks and is followed by a third.
     */
    function Work(s: Loop): nat {
      s.modelCalls + s.completedTurns + s.handled + s.fetched + |s.rejections| + 3 * s.ran
    }

    /** The accounts are settled: every completed turn was announced and its calls counted. */
    ghost predicate Settled(s: Loop)
      reads lease
    {
      Accounted(s, s.completedTurns, s.modelCalls)
    }

    /** Nothing was announced and no model call made, and nothing done without looking for a stop. */
    ghost predicate Quiet(s: Loop, s': Loop) {
      Steady(s, s') && Work(s') + s.probes <= Work(s) + s'.probes
    }

    ghost predicate Steady(s: Loop, s': Loop) {
      && s'.events == s.events && s'.toolCalls == s.toolCalls
      && s'.modelCalls == s.modelCalls && s'.completedTurns == s.completedTurns
    }

    /** What a successful ending says. */
    ghost predicate EndedWell(s: Loop, outcome: PromptOutcome) {
      && 1 <= outcome.modelTurns == s.completedTurns && Work(s) < s.probes && Level(s)
      && outcome.capabilityInvocations == world.UsedAfter(s.ran)
      && outcome.scriptCalls == SaturatingAdd(0, s.ran)
      && (config.listening ==> EndsWith(s.events, Finished(outcome.suppress, s.completedTurns, s.toolCalls)))
      && s.log != [] && s.log[|s.log| - 1].ModelTurn? && 0 < s.modelCalls
      && world.Complete(s.modelCalls - 1) == Completed(s.log[|s.log| - 1].turn)
      && var turn := s.log[|s.log| - 1].turn;
         if outcome.suppress then
           && |turn.calls| <= MAX_CALLS_PER_TURN && Awaited(s) == Silent
           && outcome.answer == ""
           && Declines(turn, outcome.modelTurns, outcome.capabilityInvocations)
         else
           && turn.calls == []
           && if HasText(turn) then turn.content == Some(outcome.answer)
              else world.QueuedAt(outcome.modelTurns) && outcome.answer == ""
    }

    /** The turn says something: some character of its text is not white space. */
    ghost predicate HasText(turn: Turn) {
      turn.content.Some? && exists i :: 0 <= i < |turn.content.value| && !IsWhitespace(turn.content.value[i])
    }

    /** The turn asks for silence, in a mode that offers it, and the work so far permits it. */
    ghost predicate Declines(turn: Turn, modelTurns: nat, invocations: nat) {
      && Declining(config, turn)
      && match config.mode
         case Required => false
         case Optional => invocations == 0
         case QuietReview =>
           world.ReviewAt(modelTurns).others == 0 && world.ReviewAt(modelTurns).refreshes == invocations
         case QuietDigest => true
    }

    /** A turn's text is the answer; without one, queued attachments stand for it. */
    function Answer(turn: Turn, modelTurns: nat): Option<string> {
      if turn.content.Some? && !Blank(turn.content.value) then turn.content
      else if world.QueuedAt(modelTurns) then Some("")
      else None
    }

    /** What must have happened for the loop to end with this error. */
    ghost predicate Explained(s: Loop, error: PromptError) {
      match error
      case Cancelled => true
      case ZeroSteps => false
      case MaxSteps(maximum) => maximum == s.completedTurns == config.maxSteps && Awaited(s) == Idle
      case Model(cause) =>
        0 < s.modelCalls && (cause.OverBudget? || cause.Broken?)
        && world.Complete(s.modelCalls - 1) == (if cause.OverBudget? then OverMeter else Fell(cause.kind))
      case EmptyAnswer =>
        && At(s).turn.Some? && At(s).turn.value.calls == [] && !HasText(At(s).turn.value)
        && !world.QueuedAt(s.completedTurns)
      case _ => Awaited(s) == Fails(error)
    }

    /**
     * What the loop promises about each way it can end; only a stop may keep what the model said last, or
     * what a script gave, out of the log, and only an error what a handler or a fetch gave.
     */
    ghost predicate Ended(s: Loop, result: Result) {
      && Good(s)
      && (result != Err(Cancelled) ==> Recorded(s, s.modelCalls) && Spent(s) == Tried(config, world, At(s)))
      && match result
         case Ok(outcome) => EndedWell(s, outcome) && Unstopped(world, s.probes)
         case Err(error) =>
           && NoneTerminal(s.events) && Explained(s, error)
           && (error != Cancelled ==> Unstopped(world, s.probes))
    }

    /**
     * How the mailbox was left: never open to a stop after an answer, which the source had its chance to
     * put off, and nothing cancelled unasked.
     */
    ghost predicate Leaves(s: Loop, result: Result)
      reads lease
    {
      && (result.Ok? ==> lease.mailbox.Absent? || (lease.mailbox.Closed? && lease.mailbox.seal.Sealed?))
      && (result.Ok? ==>
            Resumed(CalllessTurns(world, s.modelCalls) - if result.outcome.suppress then 0 else 1))
      && (result.Ok? && !result.outcome.suppress && s.completedTurns < config.maxSteps ==> GaveChance())
      && (result == Err(Cancelled) ==>
            || lease.mailbox == Closed(Stopped)
            || (0 < s.probes && world.Cancelled(s.probes - 1))
            || (0 < s.modelCalls && world.Complete(s.modelCalls - 1).Aborted? && !lease.mailbox.Open?))
    }

    /** The source was sealed only after it had nothing more to hand over. */
    ghost predicate GaveChance()
      reads lease
    {
      lease.source.Some? ==>
        && lease.contacts != [] && lease.contacts[|lease.contacts| - 1].SealedWith?
        && lease.contacts[|lease.contacts| - 1].offered
    }

    /** What a listener was told, checked against what the model said. */
    function Told(events: seq<Event>): Tally {
      Tallied(CallCounts(world), config.maxSteps, events)
    }

    lemma ToldNext(events: seq<Event>, event: Event)
      ensures var before := Told(events);
              Told(events + [event]) ==
              Tally(before.started + (if event.TurnStarted? then 1 else 0),
                    before.answered + (if event.Answered? then 1 else 0),
                    before.steered + (if event.Steered? then 1 else 0),
                    before.right && SaysRight(CallCounts(world), config.maxSteps, before.answered, event))
    {
      TalliedNext(CallCounts(world), config.maxSteps, events, event);
    }

    function Emitted(s: Loop, event: Event): Loop {
      if config.listening then s.(events := s.events + [event]) else s
    }

    method CheckCancelled(s: Loop) returns (s': Loop, stop: bool)
      ensures s' == s.(probes := s.probes + 1) && stop == world.Cancelled(s.probes)
      ensures !stop && Unstopped(world, s.probes) ==> Unstopped(world, s'.probes)
    {
      stop := world.Cancelled(s.probes);
      s' := s.(probes := s.probes + 1);
    }

    /** Looking for a stop changes nothing else: without one the session goes on, and with one it may end. */
    lemma Looked(s: Loop, ids: seq<string>)
      requires Running(s, ids)
      ensures var looked := s.(probes := s.probes + 1);
              && At(looked) == At(s) && (forall n: nat :: Recorded(looked, n) == Recorded(s, n))
              && Ended(looked, Err(Cancelled))
              && (!world.Cancelled(s.probes) ==> Running(looked, ids))
    {
      hide AppendOnly, AllBuilt, Followed, Reconstructs, Lean, AllPrepared, Replays, PointOf, DueAt, BytesAfter,
        LoggedTurns, TurnsOf, Owing, NoneTerminal, CompletedCalls;
    }

    /** Records the texts staged from `from` on. */
    method RecordStaged(from: nat)
      requires from <= |lease.staged|
      modifies record
      ensures record.items == old(record.items) + SteerItems(lease.staged[from..], record.cap)
      ensures record.key == old(record.key)
    {
      var texts := lease.staged[from..];
      EmptyIsUnit(record.items);
      for i := 0 to |texts|
        invariant record.items == old(record.items) + SteerItems(texts[..i], record.cap)
        invariant record.key == old(record.key)
      {
        assert texts[..i + 1] == texts[..i] + [texts[i]];
        SteerItemsAppend(texts[..i], texts[i], record.cap);
        Associative(old(record.items), SteerItems(texts[..i], record.cap), [Capture.Steer(Keep(texts[i], record.cap))]);
        record.Steered(texts[i]);
      }
      assert texts[..|texts|] == texts;
    }

    /** The loop once these steers have joined the conversation in this turn. */
    function Steered(s: Loop, steers: seq<Steer>, turn: nat): Loop {
      var joined := s.(messages := s.messages + SteerMessages(steers), log := s.log + SteerEntries(steers));
      if steers == [] then joined else Emitted(joined, Event.Steered(turn))
    }

    lemma SteeredRuns(s: Loop, steers: seq<Steer>, turn: nat)
      requires Running(s, [])
      ensures Running(Steered(s, steers, turn), [])
      ensures steers == [] ==> Steered(s, steers, turn) == s
      ensures Recorded(s, s.modelCalls) ==> Recorded(Steered(s, steers, turn), s.modelCalls)
      ensures At(Steered(s, steers, turn)) == At(s)
      ensures config.listening ==>
        Told(Steered(s, steers, turn).events) ==
        if steers == [] then Told(s.events)
        else
          Told(s.events).(
            steered := Told(s.events).steered + 1,
            right := Told(s.events).right && Told(s.events).answered <= turn <= Told(s.events).answered + 1)
    {
      hide Told, Replays, PointOf, AllBuilt, Followed, BytesAfter, LoggedTurns, TurnsOf, CompletedCalls, Reconstructs,
        AllPrepared;
      ToldNext(s.events, Event.Steered(turn));
      SteersAreNoTurns(s.log, steers);
      SteersReplay(config, world, s.log, steers);
      LogGrows(config, world, opening, s.log, s.requests, s.marks, s.modelCalls, SteerEntries(steers));
      if 0 < s.modelCalls {
        LogGrows(config, world, opening, s.log, s.requests, s.marks, s.modelCalls - 1, SteerEntries(steers));
      }
      EmptyIsUnit(s.log);
      EmptyIsUnit(s.messages);
      SteersJoin(opening, s.messages, s.requests, steers);
    }

    /** The source has been asked ahead of the next model call, which is not announced yet. */
    ghost predicate AskedFirst(s: Loop)
      reads lease
    {
      && (lease.source.Some? ==> Askings(lease.contacts).taken == s.modelCalls + (if lease.mailbox.Open? then 1 else 0))
      && Askings(lease.contacts).handoffs <= CalllessTurns(world, s.modelCalls) <= Askings(lease.contacts).handoffs + 1
      && s.toolCalls == CallsMade(world, s.modelCalls)
      && (config.listening ==>
            Told(s.events) == Tally(s.modelCalls, s.completedTurns, Askings(lease.contacts).batches, true))
    }

    /** Puts whatever steers wait at the end of the conversation, before the next model call. */
    method TakeSteers(s: Loop) returns (s': Loop, steers: seq<Steer>)
      requires Running(s, []) && Tracks(s)
      modifies lease, record
      ensures Running(s', []) && Tracks(s') && lease.mailbox == old(lease.mailbox)
      ensures s' == Steered(s, steers, s.completedTurns + 1)
      ensures Recorded(s, s.modelCalls) ==> Recorded(s', s'.modelCalls)
      ensures old(Settled(s)) ==> AskedFirst(s')
      ensures Askings(lease.contacts).handoffs == old(Askings(lease.contacts).handoffs)
      ensures lease.contacts == old(lease.contacts) + if lease.mailbox.Open? then [Took(steers)] else []
    {
      hide Running, Recorded, Handed, LoggedSteers, SteerEntries, SteerMessages, SteerItems, RecordedTexts, Simulated;
      var from := |lease.staged|;
      var messages;
      messages, steers := lease.Take(s.messages);
      assert lease.staged[from..] == RecordedTexts(steers);
      RecordStaged(from);
      SimulatedSteers(s.log, opening, s.messages, first, old(record.items), startKey, record.key, record.cap, steers);
      SteeredRuns(s, steers, s.completedTurns + 1);
      s' := s.(messages := messages, log := s.log + SteerEntries(steers));
      if steers != [] {
        s' := Emitted(s', Event.Steered(s.completedTurns + 1));
      }
    }

    /** One model call: the request is logged, prepared, sent, and counted if it completes. */
    method AskModel(s: Loop) returns (s': Loop, completion: Completion)
      requires Running(s, []) && s.completedTurns < config.maxSteps && Recorded(s, s.modelCalls)
      requires s.messages == opening + Messages(s.log)
      ensures Running(s', []) && Recorded(s', s.modelCalls)
      ensures completion == world.Complete(s.modelCalls)
      ensures s' == s.(
          requests := s.requests + [s.messages],
          prompts := s.prompts + [world.Prepare(s.modelCalls, s.messages)],
          marks := s.marks + [|s.log|],
          transcribed := world.Prepare(s.modelCalls, s.messages),
          audit := s.audit + [EntryFor(s.transcribed, world.Prepare(s.modelCalls, s.messages))],
          modelCalls := s.modelCalls + 1,
          completedTurns := s.completedTurns + if completion.Completed? then 1 else 0)
    {
      hide AppendOnly, Reconstructs, Owing, NoneTerminal, LoggedTurns, TurnsOf, AllBuilt, Followed, Replays, PointOf,
        BytesAfter, Messages;
      completion := world.Complete(s.modelCalls);
      var prepared := world.Prepare(s.modelCalls, s.messages);
      LogPrompt(s.audit, s.prompts, s.transcribed, prepared);
      LeanNext(world, s.audit, s.prompts, s.transcribed, prepared);
      RequestAppends(s.requests, opening, s.messages);
      RequestBuilt(config, world, opening, s.log, s.requests, s.marks);
      s' := s.(
        requests := s.requests + [s.messages],
        prompts := s.prompts + [prepared],
        marks := s.marks + [|s.log|],
        transcribed := prepared,
        audit := s.audit + [EntryFor(s.transcribed, prepared)],
        modelCalls := s.modelCalls + 1,
        completedTurns := s.completedTurns + if completion.Completed? then 1 else 0);
    }

    /** The latest model call completed with this turn, which is not in the log yet. */
    ghost predicate Heard(s: Loop, turn: Turn) {
      && 0 < s.modelCalls == |s.marks| && world.Complete(s.modelCalls - 1) == Completed(turn)
      && Recorded(s, s.modelCalls - 1) && s.marks[s.modelCalls - 1] == |s.log|
    }

    lemma TurnJoins(s: Loop, turn: Turn)
      requires Running(s, []) && Heard(s, turn)
      ensures var joined := s.(messages := s.messages + [Message.Assistant(turn)], log := s.log + [ModelTurn(turn)]);
              && Running(joined, CallIds(turn.calls)) && Recorded(joined, s.modelCalls)
              && At(joined).turn == Some(turn) && At(joined).answered == 0
    {
      hide AppendOnly, Reconstructs, Owing, NoneTerminal, LoggedTurns, AllBuilt, Followed, Replays, PointOf,
        BytesAfter, AllPrepared;
      PointNext(config, world, s.log, ModelTurn(turn));
      TurnsNext(s.log, ModelTurn(turn));
      LogGrows(config, world, opening, s.log, s.requests, s.marks, s.modelCalls - 1, [ModelTurn(turn)]);
      TurnFollows(world, s.log, s.marks, s.modelCalls - 1, turn);
      AppendOnlyGrows(s.requests, opening, s.messages, [Message.Assistant(turn)]);
      TurnOwesItsCalls(opening, s.messages, turn);
    }

    /** The completed turn joins the record and the conversation, which now owes its calls. */
    method RecordTurn(s: Loop, turn: Turn) returns (s': Loop)
      requires Running(s, []) && Tracks(s) && Heard(s, turn)
      modifies record
      ensures Running(s', CallIds(turn.calls)) && Tracks(s') && Recorded(s', s'.modelCalls)
      ensures At(s').turn == Some(turn) && At(s').answered == 0
      ensures s' == s.(messages := s.messages + [Message.Assistant(turn)], log := s.log + [ModelTurn(turn)])
    {
      hide Running, Recorded, PointOf, Handed, LoggedSteers, Simulated, TurnItems;
      TurnJoins(s, turn);
      SimulatedExtend(s.log, opening, s.messages, first, record.items, startKey, record.key, record.cap,
                      ModelTurn(turn));
      NonSteerAppend(s.log, ModelTurn(turn));
      record.Assistant(turn);
      s' := s.(messages := s.messages + [Message.Assistant(turn)], log := s.log + [ModelTurn(turn)]);
    }

    /** At a turn boundary: either more steers join, or the mailbox is closed for good. */
    method HandOff(s: Loop) returns (s': Loop, seal: Option<Seal>, steers: seq<Steer>)
      requires Running(s, []) && Tracks(s) && !lease.mailbox.Closed?
      modifies lease, record
      ensures Running(s', []) && Tracks(s') && s' == Steered(s, steers, s.completedTurns)
      ensures Recorded(s, s.modelCalls) ==> Recorded(s', s'.modelCalls)
      ensures old(Settled(s)) && old(Resumed(CalllessTurns(world, s.modelCalls) - 1)) ==> Settled(s')
      ensures seal.None? ==> lease.mailbox == Open && lease.contacts == old(lease.contacts) + [HandedOff(steers)]
      ensures seal.Some? ==> steers == [] && Shut(seal.value) && GaveChance()
      ensures Askings(lease.contacts).handoffs == old(Askings(lease.contacts).handoffs) + if seal.None? then 1 else 0
    {
      hide Running, Recorded, Handed, LoggedSteers, SteerEntries, SteerMessages, SteerItems, RecordedTexts, Simulated;
      var from := |lease.staged|;
      var messages;
      seal, messages, steers := lease.SealOrTake(s.messages);
      assert lease.staged[from..] == RecordedTexts(steers);
      RecordStaged(from);
      SimulatedSteers(s.log, opening, s.messages, first, old(record.items), startKey, record.key, record.cap, steers);
      SteeredRuns(s, steers, s.completedTurns);
      s' := s.(messages := messages, log := s.log + SteerEntries(steers));
      if steers != [] {
        s' := Emitted(s', Event.Steered(s.completedTurns));
      }
    }

    /** The mailbox takes no more, and this is what closing it answered. */
    ghost predicate Shut(seal: Seal)
      reads lease
    {
      match lease.mailbox
      case Open => false
      case Absent => seal == Sealed(0)
      case Closed(known) => known == seal
    }

    lemma FinishedWell(s: Loop, event: Event)
      requires Good(s) && NoneTerminal(s.events) && IsTerminal(event)
      ensures Good(Emitted(s, event))
      ensures config.listening ==> Told(Emitted(s, event).events) == Told(s.events)
      ensures config.listening ==> EndsWith(Emitted(s, event).events, event)
    {
      hide Told, AllBuilt, Replays, PointOf, AppendOnly, Reconstructs, Lean, AllPrepared, BytesAfter, Followed,
        LoggedTurns, TurnsOf, CompletedCalls, Forgotten;
      if config.listening {
        assert (s.events + [event])[..|s.events|] == s.events;
        ToldNext(s.events, event);
      }
    }

    /** What the model said last is what the log has last. */
    ghost predicate Said(s: Loop, turn: Turn) {
      && 0 < s.modelCalls && world.Complete(s.modelCalls - 1) == Completed(turn)
      && s.log != [] && s.log[|s.log| - 1] == ModelTurn(turn) && At(s).turn == Some(turn) && At(s).answered == 0
      && Recorded(s, s.modelCalls)
    }

    /** The source kept the session going: these are the steers it handed over, and they joined the log. */
    ghost predicate HandedOver(contacts: seq<Contact>, log: seq<Entry>, s: Loop)
      reads lease
    {
      && |lease.contacts| == |contacts| + 1 && contacts <= lease.contacts
      && lease.contacts[|contacts|].HandedOff?
      && s.log == log + SteerEntries(lease.contacts[|contacts|].steers)
    }

    /** A turn without calls: unless steers came in, the mailbox closes and the text is the answer. */
    method Conclude(s: Loop, turn: Turn) returns (s': Loop, flow: Flow)
      requires Running(s, []) && Tracks(s) && Settled(s) && !lease.mailbox.Closed?
      requires 1 <= s.completedTurns && turn.calls == [] && Said(s, turn)
      requires Resumed(CalllessTurns(world, s.modelCalls) - 1)
      modifies lease, record
      ensures Tracks(s') && Settled(s') && s'.completedTurns == s.completedTurns && s'.modelCalls == s.modelCalls
      ensures flow.Next? ==>
        Running(s', []) && Recorded(s', s'.modelCalls) && !lease.mailbox.Closed? && s.completedTurns < config.maxSteps
      ensures flow.Next? ==>
        HandedOver(old(lease.contacts), s.log, s') && Resumed(CalllessTurns(world, s.modelCalls))
      ensures flow.Stop? ==> Ended(s', flow.result) && Leaves(s', flow.result) && s'.log == s.log
      ensures flow.Stop? && flow.result != Err(Cancelled) ==> Answers(turn, s.completedTurns, flow.result)
    {
      hide AppendOnly, AllBuilt, Followed, Reconstructs, Lean, AllPrepared, Replays, PointOf, DueAt, BytesAfter,
        LoggedTurns, TurnsOf, Owing, NoneTerminal, Handed, LoggedSteers, Simulated, CompletedCalls, Unstopped,
        CallsMade, CalllessTurns, Askings, Told, EndedWell, Recorded;
      var stop;
      s', stop := CheckCancelled(s);
      StillSaid(s, s');
      if stop {
        return s', Stop(Err(Cancelled));
      }
      var seal, steers;
      s', seal, steers := ShutMailbox(s');
      if seal.None? {
        return s', Next;
      }
      if seal.value.Stopped? {
        return s', Stop(Err(Cancelled));
      }
      var result;
      s', result := GiveAnswer(s', turn);
      flow := Stop(result);
    }

    /** What the log says does not depend on the counts kept beside it. */
    lemma StillSaid(s: Loop, s': Loop)
      requires s'.log == s.log && s'.marks == s.marks
      ensures At(s') == At(s)
      ensures forall n: nat :: Recorded(s', n) == Recorded(s, n)
    {
    }

    /** While steps are left the source may hand over more steers instead of being sealed. */
    method ShutMailbox(s: Loop) returns (s': Loop, seal: Option<Seal>, steers: seq<Steer>)
      requires Running(s, []) && Tracks(s) && Settled(s) && !lease.mailbox.Closed?
      requires Resumed(CalllessTurns(world, s.modelCalls) - 1)
      modifies lease, record
      ensures Running(s', []) && Tracks(s') && Settled(s') && s' == Steered(s, steers, s.completedTurns)
      ensures Recorded(s, s.modelCalls) ==> Recorded(s', s'.modelCalls)
      ensures seal.None? ==>
        && lease.mailbox == Open && s.completedTurns < config.maxSteps
        && lease.contacts == old(lease.contacts) + [HandedOff(steers)]
      ensures seal.Some? ==> s' == s && Shut(seal.value) && (s.completedTurns < config.maxSteps ==> GaveChance())
      ensures Resumed(CalllessTurns(world, s.modelCalls) - if seal.None? then 0 else 1)
    {
      hide Running, Recorded, PointOf, LoggedTurns, Handed, LoggedSteers, Simulated, SteerEntries, SteerMessages,
        CallsMade, CalllessTurns, Askings, Told;
      SteeredRuns(s, [], s.completedTurns);
      if s.completedTurns < config.maxSteps {
        s', seal, steers := HandOff(s);
      } else {
        s', steers := s, [];
        var closed := lease.Close();
        seal := Some(closed);
      }
    }

    /** The turn's own text is the result, whatever is queued; without one, the queue; and else there is an error. */
    ghost predicate Answers(turn: Turn, modelTurns: nat, result: Result) {
      if HasText(turn) then
        result.Ok? && !result.outcome.suppress && turn.content == Some(result.outcome.answer)
      else if world.QueuedAt(modelTurns) then
        result.Ok? && !result.outcome.suppress && result.outcome.answer == ""
      else
        result == Err(EmptyAnswer)
    }

    /** The turn's text is the answer, or there is none. */
    method GiveAnswer(s: Loop, turn: Turn) returns (s': Loop, result: Result)
      requires Running(s, []) && Settled(s) && Said(s, turn) && turn.calls == []
      requires 1 <= s.completedTurns && Work(s) < s.probes
      ensures s' == s.(events := s'.events) && Settled(s') && Ended(s', result)
      ensures Answers(turn, s.completedTurns, result)
    {
      hide AppendOnly, AllBuilt, Followed, Reconstructs, Lean, AllPrepared, Replays, PointOf, DueAt, BytesAfter,
        LoggedTurns, TurnsOf, Owing, NoneTerminal, CompletedCalls, EndsWith, Declines, Unstopped, CallsMade, Askings,
        Told;
      s' := s;
      var answer := Answer(turn, s.completedTurns);
      if answer.None? {
        return s', Err(EmptyAnswer);
      }
      FinishedWell(s, Finished(false, s.completedTurns, s.toolCalls));
      s' := Emitted(s, Finished(false, s.completedTurns, s.toolCalls));
      result := Ok(PromptOutcome(answer.value, false, s.completedTurns, s.scriptCalls, s.capabilityInvocations));
    }

    /** The first `n` calls of this turn have their results; the others wait. */
    ghost predicate Midway(s: Loop, turn: Turn, n: nat)
      requires n <= |turn.calls|
    {
      && Running(s, CallIds(turn.calls)[n..])
      && At(s).turn == Some(turn) && At(s).answered == n && Recorded(s, s.modelCalls)
      && 1 <= s.completedTurns
    }

    /** The next call of this turn is about to reach its handler. */
    ghost predicate Called(s: Loop, turn: Turn, n: nat) {
      && n < |turn.calls| <= MAX_CALLS_PER_TURN && Midway(s, turn, n)
      && !Declining(config, turn) && !Blank(turn.calls[n].id)
    }

    function WithEntry(s: Loop, entry: Entry): Loop {
      s.(messages := s.messages + EntryMessages(entry), log := s.log + [entry])
    }

    lemma ResultJoins(s: Loop, turn: Turn, n: nat, entry: Entry)
      requires n < |turn.calls| && Midway(s, turn, n) && IsResult(entry) && entry.call == turn.calls[n]
      ensures var longer := s.messages + EntryMessages(entry);
              Owing(opening, longer, CallIds(turn.calls)[n + 1..]) && AppendOnly(s.requests, opening, longer)
    {
      hide AppendOnly, Owing, AllBuilt, Replays, PointOf, Reconstructs, Lean, AllPrepared, Recorded, CompletedCalls,
        BytesAfter;
      var ids := CallIds(turn.calls)[n..];
      var text := if entry.Returned? then entry.text else ShownText(entry.asset);
      var result := ToolResult(entry.call.id, text);
      ResultSettles(opening, s.messages, ids, text);
      assert ids[1..] == CallIds(turn.calls)[n + 1..];
      AppendOnlyGrows(s.requests, opening, s.messages, [result]);
      if entry.Shown? {
        var media := Media(entry.asset, entry.mime);
        MediaAfterResult(opening, s.messages + [result], CallIds(turn.calls)[n + 1..], media);
        AppendOnlyGrows(s.requests, opening, s.messages + [result], [media]);
        assert s.messages + EntryMessages(entry) == (s.messages + [result]) + [media];
      }
    }

    /** The result that is due moves the turn on, once what it used up is counted. */
    lemma Moves(s: Loop, counted: Loop, turn: Turn, n: nat, entry: Entry)
      requires n < |turn.calls| && Midway(s, turn, n) && IsResult(entry) && Awaited(s) == Gives(entry)
      requires counted == s.(
          probes := counted.probes, scriptCalls := counted.scriptCalls, assetBytes := counted.assetBytes,
          capabilityInvocations := counted.capabilityInvocations, firstRejectedTurn := counted.firstRejectedTurn,
          handled := counted.handled, fetched := counted.fetched, ran := counted.ran, rejections := counted.rejections)
      requires Spent(counted) == UsedBy(config, world, At(s), turn, turn.calls[n])
      requires Consistent(counted) && Counted(counted) && Unstopped(world, counted.probes)
      ensures Midway(WithEntry(counted, entry), turn, n + 1)
    {
      hide AppendOnly, AllBuilt, Followed, Reconstructs, Lean, AllPrepared, Replays, PointOf, BytesAfter, LoggedTurns,
        TurnsOf, Owing, NoneTerminal, CompletedCalls, EntryMessages, UsedBy, Unstopped, DueAt;
      ResultDue(config, world, At(s), entry);
      ResultJoins(s, turn, n, entry);
      PointNext(config, world, s.log, entry);
      TurnsNext(s.log, entry);
      EmptyIsUnit(LoggedTurns(s.log));
      LogGrows(config, world, opening, s.log, s.requests, s.marks, s.modelCalls, [entry]);
    }

    /** A call about to reach its handler gets that handler's answer. */
    lemma HandlerIsDue(s: Loop, turn: Turn, n: nat)
      requires Called(s, turn, n)
      ensures Awaited(s) == AnswerTo(config, world, At(s), turn.calls[n])
      ensures !Unasked(config, turn, n) && At(s).turn == Some(turn) && At(s).answered == n
      ensures At(s).turns == s.completedTurns && At(s).used == Spent(s) && Consistent(s) && Counted(s)
    {
      hide PointOf, AnswerTo, BytesAfter, AllBuilt, Followed, Replays, AppendOnly, Consistent, Counted;
    }

    /** Answers one call with one tool result, in the conversation and in the record. */
    method Reply(s: Loop, call: Call, text: string, outcome: Outcome) returns (s': Loop)
      requires Tracks(s)
      modifies record
      ensures Tracks(s') && s' == WithEntry(s, Returned(call, text, outcome))
    {
      hide Handed, LoggedSteers, Simulated, LatestResult;
      SimulatedExtend(s.log, opening, s.messages, first, record.items, startKey, record.key, record.cap,
                      Returned(call, text, outcome));
      NonSteerAppend(s.log, Returned(call, text, outcome));
      LatestIsLast(s.messages, call.id, text);
      s' := WithEntry(s, Returned(call, text, outcome));
      record.Answered(call, s'.messages, outcome);
    }

    method Serve(s: Loop, turn: Turn, n: nat) returns (s': Loop, flow: Flow)
      requires Called(s, turn, n) && Tracks(s) && BuiltIn(HandlerFor(config.offer, turn.calls[n].name))
      modifies record
      ensures Tracks(s') && Steady(s, s') && s'.probes == s.probes && Work(s') == Work(s) + 1
      ensures match world.Handle(s.handled)
              case Served(text, outcome) =>
                && flow == Next && Midway(s', turn, n + 1)
                && s' == WithEntry(s.(handled := s.handled + 1), Returned(turn.calls[n], text,
                           BuiltInOutcome(HandlerFor(config.offer, turn.calls[n].name), outcome)))
              case Faulted(error) =>
                var call := turn.calls[n];
                && flow == Stop(Err(HandlerFailure(error, HandlerFor(config.offer, call.name), call.name)))
                && Ended(s', flow.result)
    {
      hide AppendOnly, AllBuilt, Followed, Reconstructs, Lean, AllPrepared, Replays, PointOf, DueAt, BytesAfter,
        LoggedTurns, TurnsOf, Owing, NoneTerminal, Handed, LoggedSteers, Simulated, CompletedCalls, HandlerFor,
        AsksSilence;
      var call, handler := turn.calls[n], HandlerFor(config.offer, turn.calls[n].name);
      HandlerIsDue(s, turn, n);
      s' := s.(handled := s.handled + 1);
      match world.Handle(s.handled)
      case Served(text, outcome) =>
        Moves(s, s', turn, n, Returned(call, text, BuiltInOutcome(handler, outcome)));
        s' := Reply(s', call, text, BuiltInOutcome(handler, outcome));
        flow := Next;
      case Faulted(error) =>
        flow := Stop(Err(HandlerFailure(error, handler, call.name)));
    }

    /** A rejected call is answered only if no earlier turn had one; otherwise the session fails. */
    method Reject(s: Loop, turn: Turn, n: nat, feedback: string, error: PromptError) returns (s': Loop, flow: Flow)
      requires Called(s, turn, n) && Tracks(s)
      requires SourceOf(config, world, turn, turn.calls[n]) == FromRejection
      requires AnswerTo(config, world, At(s), turn.calls[n]) == RejectionOf(At(s), turn.calls[n], feedback, error)
      requires error.NoSuchTool? || error.BadArguments?
      modifies record
      ensures Tracks(s')
      ensures if s.firstRejectedTurn.None? || s.firstRejectedTurn == Some(s.completedTurns) then
                && flow == Next && Midway(s', turn, n + 1)
                && s' == WithEntry(s.(firstRejectedTurn := Some(s.completedTurns),
                                      rejections := s.rejections + [s.completedTurns]),
                                   Returned(turn.calls[n], feedback, Refused))
              else
                s' == s && flow == Stop(Err(error)) && Ended(s', flow.result)
    {
      hide AppendOnly, AllBuilt, Followed, Reconstructs, Lean, AllPrepared, Replays, PointOf, DueAt, BytesAfter,
        LoggedTurns, TurnsOf, Owing, NoneTerminal, Handed, LoggedSteers, Simulated, CompletedCalls, AnswerTo,
        SourceOf, AsksSilence;
      HandlerIsDue(s, turn, n);
      s' := s;
      if s'.firstRejectedTurn.None? {
        s' := s'.(firstRejectedTurn := Some(s.completedTurns));
      }
      if s'.firstRejectedTurn != Some(s.completedTurns) {
        return s', Stop(Err(error));
      }
      s' := s'.(rejections := s.rejections + [s.completedTurns]);
      Moves(s, s', turn, n, Returned(turn.calls[n], feedback, Refused));
      s' := Reply(s', turn.calls[n], feedback, Refused);
      flow := Next;
    }

    /** A script runs only if no stop is seen before it; one seen after it ends the session unrecorded. */
    method RunScript(s: Loop, turn: Turn, n: nat) returns (s': Loop, flow: Flow)
      requires Called(s, turn, n) && Tracks(s)
      requires HandlerFor(config.offer, turn.calls[n].name) == ScriptRunner
      requires turn.calls[n].arguments !in world.scriptFaults
      modifies record
      ensures Tracks(s')
      ensures if world.Cancelled(s.probes) then
                flow == Stop(Err(Cancelled)) && s' == s.(probes := s.probes + 1)
              else if world.Cancelled(s.probes + 1) then
                flow == Stop(Err(Cancelled)) && s' == s.(probes := s.probes + 2, ran := s.ran + 1)
              else
                var reply := world.Run(s.ran);
                && flow == Next && Midway(s', turn, n + 1)
                && s' == WithEntry(s.(probes := s.probes + 2, ran := s.ran + 1,
                                      scriptCalls := SaturatingAdd(s.scriptCalls, 1),
                                      capabilityInvocations := reply.used),
                                   ScriptEntry(turn.calls[n], reply))
      ensures flow.Stop? ==> Ended(s', flow.result) && Leaves(s', flow.result)
    {
      hide AppendOnly, AllBuilt, Followed, Reconstructs, Lean, AllPrepared, Replays, PointOf, DueAt, BytesAfter,
        LoggedTurns, TurnsOf, Owing, NoneTerminal, Handed, LoggedSteers, Simulated, CompletedCalls, ScriptText,
        HandlerFor, AsksSilence;
      var call := turn.calls[n];
      HandlerIsDue(s, turn, n);
      var stop;
      s', stop := CheckCancelled(s);
      if stop {
        return s', Stop(Err(Cancelled));
      }
      var reply := world.Run(s'.ran);
      s' := s'.(ran := s'.ran + 1);
      s', stop := CheckCancelled(s');
      if stop {
        return s', Stop(Err(Cancelled));
      }
      RunCounts(world, s.ran);
      s' := s'.(scriptCalls := SaturatingAdd(s'.scriptCalls, 1), capabilityInvocations := reply.used);
      var text := ScriptText(reply);
      Moves(s, s', turn, n, ScriptEntry(call, reply));
      SimulatedExtend(s.log, opening, s.messages, first, record.items, startKey, record.key, record.cap,
                      ScriptEntry(call, reply));
      NonSteerAppend(s.log, ScriptEntry(call, reply));
      record.Exchanged(call, text, Exit(reply.exit));
      s' := WithEntry(s', Returned(call, text, Exit(reply.exit)));
      flow := Next;
    }

    /** The loop once a fetch with this reply has been answered. */
    function AfterFetch(s: Loop, call: Call, reply: FetchReply): Loop
      requires !reply.Malformed?
    {
      WithEntry(s.(assetBytes := Charged(reply, s.assetBytes), fetched := s.fetched + 1),
                FetchEntry(call, reply, s.assetBytes.total))
    }

    lemma FetchMoves(s: Loop, turn: Turn, n: nat)
      requires Called(s, turn, n) && !world.Fetch(s.fetched).Malformed?
      requires HandlerFor(config.offer, turn.calls[n].name) == AssetFetch
      ensures Midway(AfterFetch(s, turn.calls[n], world.Fetch(s.fetched)), turn, n + 1)
    {
      hide AppendOnly, AllBuilt, Followed, Reconstructs, Lean, AllPrepared, Replays, PointOf, DueAt, LoggedTurns,
        TurnsOf, Owing, NoneTerminal, CompletedCalls, FetchEntry, Charged, HandlerFor, AsksSilence, EntryMessages;
      var call, reply := turn.calls[n], world.Fetch(s.fetched);
      HandlerIsDue(s, turn, n);
      FetchEntryKinds(call, reply, s.assetBytes.total);
      Moves(s, s.(assetBytes := Charged(reply, s.assetBytes), fetched := s.fetched + 1), turn, n,
            FetchEntry(call, reply, s.assetBytes.total));
    }

    lemma MalformedFetch(s: Loop, turn: Turn, n: nat)
      requires Called(s, turn, n) && world.Fetch(s.fetched).Malformed?
      requires HandlerFor(config.offer, turn.calls[n].name) == AssetFetch
      ensures Ended(s.(fetched := s.fetched + 1), Err(BadArguments(turn.calls[n].name, world.Fetch(s.fetched).fault)))
    {
      hide AppendOnly, AllBuilt, Followed, Reconstructs, Lean, AllPrepared, Replays, PointOf, DueAt, LoggedTurns,
        TurnsOf, Owing, NoneTerminal, CompletedCalls, HandlerFor, AsksSilence;
      HandlerIsDue(s, turn, n);
    }

    /** Fetches an asset: its text, a notice that it follows together with the asset, or a refusal. */
    method FetchInto(s: Loop, turn: Turn, n: nat) returns (s': Loop, outcome: Outcome)
      requires Called(s, turn, n) && !world.Fetch(s.fetched).Malformed?
      requires HandlerFor(config.offer, turn.calls[n].name) == AssetFetch
      ensures s' == AfterFetch(s, turn.calls[n], world.Fetch(s.fetched))
      ensures Midway(s', turn, n + 1)
      ensures var entry := FetchEntry(turn.calls[n], world.Fetch(s.fetched), s.assetBytes.total);
              outcome == if entry.Returned? then entry.outcome else Exit(0)
    {
      hide Midway, HandlerFor, AsksSilence, TooLargeNotice, ShownText, Utf8Len;
      var call, reply := turn.calls[n], world.Fetch(s.fetched);
      FetchMoves(s, turn, n);
      s' := s.(fetched := s.fetched + 1);
      match reply
      case Unavailable(reason) =>
        s', outcome := WithEntry(s', Returned(call, reason, Refused)), Refused;
      case Unreadable(error) =>
        s', outcome := WithEntry(s', Returned(call, error, Failed)), Failed;
      case Textual(asset, text) =>
        var bytes := Utf8Len(text);
        if Room(s.assetBytes.total) < bytes {
          s', outcome := WithEntry(s', Returned(call, TooLargeNotice(asset), Refused)), Refused;
        } else {
          s' := s'.(assetBytes := AssetBytes(s.assetBytes.total + bytes, s.assetBytes.text + bytes));
          s', outcome := WithEntry(s', Returned(call, text, Exit(0))), Exit(0);
        }
      case Binary(asset, mime, bytes) =>
        if Room(s.assetBytes.total) < bytes {
          s', outcome := WithEntry(s', Returned(call, TooLargeNotice(asset), Refused)), Refused;
        } else {
          s' := s'.(
            assetBytes := AssetBytes(s.assetBytes.total + bytes, s.assetBytes.text),
            messages := s.messages + [ToolResult(call.id, ShownText(asset)), Media(asset, mime)],
            log := s.log + [Shown(call, asset, mime)]);
          outcome := Exit(0);
        }
    }

    /** A fetch call; a media asset is recorded as a note to fetch it again, never as itself. */
    method Fetch(s: Loop, turn: Turn, n: nat) returns (s': Loop, flow: Flow)
      requires Called(s, turn, n) && Tracks(s)
      requires HandlerFor(config.offer, turn.calls[n].name) == AssetFetch
      modifies record
      ensures Tracks(s') && Steady(s, s') && s'.probes == s.probes && Work(s') == Work(s) + 1
      ensures match world.Fetch(s.fetched)
              case Malformed(fault) =>
                flow == Stop(Err(BadArguments(turn.calls[n].name, fault))) && Ended(s', flow.result)
              case reply =>
                flow == Next && Midway(s', turn, n + 1) && s' == AfterFetch(s, turn.calls[n], reply)
    {
      hide AppendOnly, AllBuilt, Followed, Reconstructs, Lean, AllPrepared, Replays, PointOf, DueAt, BytesAfter,
        LoggedTurns, TurnsOf, Owing, NoneTerminal, Handed, LoggedSteers, Simulated, CompletedCalls;
      hide ShownText, RefetchNote, TooLargeNotice, Charged, ShownBytes, HandlerFor, AsksSilence;
      var call, reply := turn.calls[n], world.Fetch(s.fetched);
      if reply.Malformed? {
        MalformedFetch(s, turn, n);
        return s.(fetched := s.fetched + 1), Stop(Err(BadArguments(call.name, reply.fault)));
      }
      ghost var entry := FetchEntry(call, reply, s.assetBytes.total);
      FetchEntryKinds(call, reply, s.assetBytes.total);
      SimulatedExtend(s.log, opening, s.messages, first, record.items, startKey, record.key, record.cap, entry);
      NonSteerAppend(s.log, entry);
      var start := |s.messages|;
      var outcome;
      s', outcome := FetchInto(s, turn, n);
      assert s'.messages[start..] == EntryMessages(entry);
      RecordFetch(call, s'.messages[start..], if reply.Binary? then reply.asset else 0, outcome, entry);
      flow := Next;
    }

    /** Records a fetch by what it added: the text it answered, or for media a note to fetch it again. */
    method RecordFetch(call: Call, added: seq<Message>, asset: nat, outcome: Outcome, ghost entry: Entry)
      requires (entry.Returned? || entry.Shown?) && entry.call == call && added == EntryMessages(entry)
      requires entry.Shown? ==> asset == entry.asset
      requires entry.Returned? ==> outcome == entry.outcome
      modifies record
      ensures record.items == old(record.items) + EntryItems(entry, old(record.key), record.cap)
      ensures record.key == old(record.key)
    {
      hide ShownText, RefetchNote, ToolNamed, Keep;
      assert entry.Shown? ==> added[1].Media?;
      if exists i :: 0 <= i < |added| && added[i].Media? {
        assert entry.Shown?;
        record.Exchanged(call, RefetchNote(asset), Exit(0));
      } else {
        assert entry.Returned?;
        LatestIsLast([], call.id, entry.text);
        assert added == [] + [ToolResult(call.id, entry.text)];
        record.Answered(call, added, outcome);
      }
    }

    method CheckDecline(turn: Turn) returns (fault: Option<PromptError>)
      ensures fault == DeclineFault(world, turn.calls)
      ensures match fault
              case None => forall i | 0 <= i < |turn.calls| :: !Blank(turn.calls[i].id)
              case Some(EmptyToolCallId) => exists i :: 0 <= i < |turn.calls| && Blank(turn.calls[i].id)
              case Some(BadArguments(tool, _)) => exists i :: 0 <= i < |turn.calls| && turn.calls[i].name == tool
              case Some(_) => false
    {
      var calls := turn.calls;
      for i := 0 to |calls|
        invariant DeclineFault(world, calls[..i]).None?
        invariant forall k | 0 <= k < i :: !Blank(calls[k].id)
      {
        assert calls[..i + 1][..i] == calls[..i];
        var call := calls[i];
        if Blank(call.id) {
          fault := Some(EmptyToolCallId);
        } else if call.name == DECLINE_REPLY && call.arguments in world.declineFaults {
          fault := Some(BadArguments(call.name, world.declineFaults[call.arguments]));
        } else {
          continue;
        }
        DeclineFaultStays(world, calls, i + 1);
        return;
      }
      assert calls[..|calls|] == calls;
      fault := None;
    }

    function Refusals(calls: seq<Call>): seq<Entry> {
      seq(|calls|, i requires 0 <= i < |calls| => Returned(calls[i], config.declineAfterWork, Refused))
    }

    /** Silence was asked for in vain: with work to report, and a turn left to report it in. */
    ghost predicate MustReport(s: Loop, turn: Turn) {
      && Declining(config, turn) && 0 < |turn.calls| <= MAX_CALLS_PER_TURN && DeclineFault(world, turn.calls).None?
      && s.completedTurns != config.maxSteps
      && !PermitsDecline(config.mode, world.ReviewAt(s.completedTurns), world.UsedAfter(s.ran))
    }

    lemma RefusalMoves(s: Loop, turn: Turn, n: nat)
      requires n < |turn.calls| && Midway(s, turn, n) && MustReport(s, turn)
      ensures Midway(WithEntry(s, Returned(turn.calls[n], config.declineAfterWork, Refused)), turn, n + 1)
      ensures Awaited(s) == Gives(Returned(turn.calls[n], config.declineAfterWork, Refused))
    {
      hide AppendOnly, AllBuilt, Followed, Reconstructs, Lean, AllPrepared, Replays, PointOf, LoggedTurns, TurnsOf,
        Owing, NoneTerminal, CompletedCalls, AsksSilence, BytesAfter, DeclineFault, EntryMessages;
      Moves(s, s, turn, n, Returned(turn.calls[n], config.declineAfterWork, Refused));
    }

    /** Every call of the turn gets the same refusal; none of them runs. */
    method RefuseAll(s: Loop, turn: Turn) returns (s': Loop)
      requires Midway(s, turn, 0) && Tracks(s) && MustReport(s, turn)
      modifies record
      ensures Midway(s', turn, |turn.calls|) && Tracks(s')
      ensures s' == s.(messages := s'.messages, log := s.log + Refusals(turn.calls))
    {
      hide Midway, Tracks, AsksSilence, DeclineFault, PermitsDecline, EntryMessages;
      s' := s;
      for i := 0 to |turn.calls|
        invariant Midway(s', turn, i) && Tracks(s')
        invariant s' == s.(messages := s'.messages, log := s.log + Refusals(turn.calls[..i]))
      {
        assert Refusals(turn.calls[..i + 1]) ==
               Refusals(turn.calls[..i]) + [Returned(turn.calls[i], config.declineAfterWork, Refused)];
        RefusalMoves(s', turn, i);
        s' := Reply(s', turn.calls[i], config.declineAfterWork, Refused);
      }
      assert turn.calls[..|turn.calls|] == turn.calls;
    }

    /**
     * What a turn that asks for silence gets is what is due: an error, silence unless a stop comes
     * first, or a refusal of every call.
     */
    ghost predicate DeclineAnswered(s: Loop, flow: Flow) {
      match Awaited(s)
      case Fails(error) => flow == Stop(Err(error))
      case Silent => flow == Stop(Err(Cancelled)) || (flow.Stop? && flow.result.Ok? && flow.result.outcome.suppress)
      case Gives(_) => flow == Next
      case Idle => false
    }

    lemma DeclineIsDue(s: Loop, turn: Turn)
      requires Midway(s, turn, 0) && Declining(config, turn) && |turn.calls| <= MAX_CALLS_PER_TURN
      ensures turn.calls != []
      ensures Awaited(s) == DeclineAnswer(config, world, At(s), turn, turn.calls[0])
      ensures At(s).used == Spent(s) == Tried(config, world, At(s))
      ensures At(s).turns == s.completedTurns
      ensures s.capabilityInvocations == world.UsedAfter(s.ran)
    {
      hide PointOf, DeclineAnswer, BytesAfter, AllBuilt, Followed, Replays, AppendOnly;
    }

    /**
     * A turn that asks for silence. Once capability work is done silence could hide it, so then every
     * call is refused, unless no turn is left to report in.
     */
    method Decline(s: Loop, turn: Turn) returns (s': Loop, flow: Flow)
      requires Midway(s, turn, 0) && Tracks(s) && Settled(s) && Said(s, turn) && !lease.mailbox.Closed?
      requires Resumed(CalllessTurns(world, s.modelCalls))
      requires Declining(config, turn) && |turn.calls| <= MAX_CALLS_PER_TURN
      modifies lease, record
      ensures Tracks(s') && Settled(s') && s'.completedTurns == s.completedTurns && s'.modelCalls == s.modelCalls
      ensures Spent(s') == Spent(s)
      ensures flow.Next? ==> Running(s', []) && Recorded(s', s'.modelCalls) && !lease.mailbox.Closed?
      ensures flow.Next? ==> s'.log == s.log + Refusals(turn.calls) && lease.contacts == old(lease.contacts)
      ensures DeclineAnswered(s, flow)
      ensures flow.Stop? ==> Ended(s', flow.result) && Leaves(s', flow.result) && s'.log == s.log
    {
      hide AppendOnly, AllBuilt, Followed, Reconstructs, Lean, AllPrepared, Replays, PointOf, DueAt, BytesAfter,
        LoggedTurns, TurnsOf, Owing, NoneTerminal, Handed, LoggedSteers, Simulated, CompletedCalls, EndsWith,
        DeclineFault, AsksSilence, Unstopped, CallsMade, CalllessTurns, Askings, Told;
      DeclineIsDue(s, turn);
      s' := s;
      var fault := CheckDecline(turn);
      if fault.Some? {
        return s', Stop(Err(fault.value));
      }
      if PermitsDecline(config.mode, world.ReviewAt(s.completedTurns), s.capabilityInvocations) {
        var result;
        s', result := StaySilent(s', turn);
        return s', Stop(result);
      }
      if s.completedTurns == config.maxSteps {
        return s', Stop(Err(UnreportedCapabilityWork));
      }
      s' := RefuseAll(s', turn);
      assert CallIds(turn.calls)[|turn.calls|..] == [];
      flow := Next;
    }

    /** Closes the mailbox, which changes nothing else. */
    method ShutNow(s: Loop) returns (seal: Seal)
      requires Tracks(s)
      modifies lease
      ensures Tracks(s) && Shut(seal) && Askings(lease.contacts) == old(Askings(lease.contacts))
      ensures old(lease.mailbox).Closed? ==> lease.contacts == old(lease.contacts)
      ensures !old(lease.mailbox).Closed? && lease.source.Some? ==>
        lease.contacts == old(lease.contacts) + [SealedWith(seal, false)]
    {
      hide Handed, LoggedSteers, Simulated, Askings;
      seal := lease.Close();
    }

    /** Silence, once the mailbox is closed without a stop. */
    method StaySilent(s: Loop, turn: Turn) returns (s': Loop, result: Result)
      requires Midway(s, turn, 0) && Tracks(s) && Settled(s) && Said(s, turn) && !lease.mailbox.Closed?
      requires |turn.calls| <= MAX_CALLS_PER_TURN && Declines(turn, s.completedTurns, s.capabilityInvocations)
      requires Awaited(s) == Silent && Resumed(CalllessTurns(world, s.modelCalls))
      modifies lease
      ensures Tracks(s') && Settled(s') && s' == s.(probes := s'.probes, events := s'.events)
      ensures Ended(s', result) && Leaves(s', result)
      ensures result == Err(Cancelled) || (result.Ok? && result.outcome.suppress)
      ensures result.Ok? <==> !world.Cancelled(s.probes) && lease.mailbox != Closed(Stopped)
    {
      hide Running, Recorded, Ended, Tracks, PointOf, DueAt, Declines, CallsMade, CalllessTurns, Askings, Told;
      var stop;
      s', stop := CheckCancelled(s);
      Looked(s, CallIds(turn.calls)[0..]);
      SameTracks(s, s');
      if stop {
        return s', Err(Cancelled);
      }
      var seal := ShutNow(s');
      if seal.Stopped? {
        return s', Err(Cancelled);
      }
      SilentEnd(s', turn);
      ghost var before := s';
      s' := Emitted(s', Finished(true, s'.completedTurns, s'.toolCalls));
      SameTracks(before, s');
      result := Ok(PromptOutcome("", true, s.completedTurns, s.scriptCalls, s.capabilityInvocations));
    }

    lemma SameTracks(s: Loop, s': Loop)
      requires Tracks(s) && s'.log == s.log && s'.messages == s.messages
      ensures Tracks(s')
    {
    }

    lemma SilentEnd(s: Loop, turn: Turn)
      requires Midway(s, turn, 0) && Said(s, turn) && Work(s) < s.probes
      requires |turn.calls| <= MAX_CALLS_PER_TURN && Declines(turn, s.completedTurns, s.capabilityInvocations)
      requires Awaited(s) == Silent
      ensures var ended := Emitted(s, Finished(true, s.completedTurns, s.toolCalls));
              && Ended(ended, Ok(PromptOutcome("", true, s.completedTurns, s.scriptCalls, s.capabilityInvocations)))
              && (config.listening ==> Told(ended.events) == Told(s.events))
    {
      hide AppendOnly, AllBuilt, Followed, Reconstructs, Lean, AllPrepared, Replays, PointOf, DueAt, BytesAfter,
        LoggedTurns, TurnsOf, Owing, NoneTerminal, CompletedCalls, EndsWith, AsksSilence, Unstopped, Told;
      FinishedWell(s, Finished(true, s.completedTurns, s.toolCalls));
    }

    /** What answering this call with this flow left behind. */
    ghost predicate CallDone(s: Loop, s': Loop, turn: Turn, n: nat, flow: Flow)
      requires n < |turn.calls|
      reads lease
    {
      match flow
      case Next =>
        && Midway(s', turn, n + 1) && Awaited(s).Gives? && s'.log == s.log + [Awaited(s).entry]
      case Stop(result) => Ended(s', result) && Leaves(s', result)
    }

    /** One tool call, unless a stop is seen first or the call cannot be answered. */
    method RunCall(s: Loop, turn: Turn, n: nat) returns (s': Loop, flow: Flow)
      requires n < |turn.calls| <= MAX_CALLS_PER_TURN && !Declining(config, turn) && Midway(s, turn, n) && Tracks(s)
      modifies record
      ensures Tracks(s') && Quiet(s, s') && CallDone(s, s', turn, n, flow)
    {
      hide AppendOnly, AllBuilt, Followed, Reconstructs, Lean, AllPrepared, Replays, PointOf, DueAt, BytesAfter,
        LoggedTurns, TurnsOf, Owing, NoneTerminal, Handed, LoggedSteers, Simulated, CompletedCalls, FetchEntry,
        ScriptText, HandlerFor, Unstopped, AsksSilence;
      var stop;
      s', stop := CheckCancelled(s);
      StillSaid(s, s');
      if stop {
        return s', Stop(Err(Cancelled));
      }
      if Blank(turn.calls[n].id) {
        BlankIsDue(s', turn, n);
        return s', Stop(Err(EmptyToolCallId));
      }
      s', flow := Dispatch(s', turn, n);
    }

    lemma BlankIsDue(s: Loop, turn: Turn, n: nat)
      requires n < |turn.calls| <= MAX_CALLS_PER_TURN && !Declining(config, turn) && Midway(s, turn, n)
      requires Blank(turn.calls[n].id)
      ensures Awaited(s) == Fails(EmptyToolCallId) && Tried(config, world, At(s)) == At(s).used
    {
      hide PointOf, AnswerTo, BytesAfter, AllBuilt, Followed, Replays, AppendOnly, AsksSilence;
    }

    /** Hands a call to whichever handler claims it. */
    method Dispatch(s: Loop, turn: Turn, n: nat) returns (s': Loop, flow: Flow)
      requires Called(s, turn, n) && Tracks(s)
      modifies record
      ensures Tracks(s') && Steady(s, s') && CallDone(s, s', turn, n, flow)
      ensures Work(s') + s.probes <= Work(s) + s'.probes + 1
    {
      hide Midway, Ended, Tracks, FetchEntry, EntryMessages, Charged, ScriptText, HandlerFor, AsksSilence, PointOf,
        DueAt, BytesAfter, Consistent, Counted;
      HandlerIsDue(s, turn, n);
      BytesShown(s, turn, n);
      var call := turn.calls[n];
      match HandlerFor(config.offer, call.name)
      case AssetFetch =>
        s', flow := Fetch(s, turn, n);
      case UnknownTool =>
        s', flow := Reject(s, turn, n, config.unknownToolFeedback, NoSuchTool(call.name));
      case ScriptRunner =>
        if call.arguments in world.scriptFaults {
          s', flow := Reject(s, turn, n, config.badScriptFeedback,
                             BadArguments(call.name, world.scriptFaults[call.arguments]));
        } else {
          s', flow := RunScript(s, turn, n);
        }
      case _ =>
        s', flow := Serve(s, turn, n);
    }

    lemma BytesShown(s: Loop, turn: Turn, n: nat)
      requires Called(s, turn, n)
      ensures s.assetBytes == BytesAfter(config, world, s.fetched)
    {
    }

    /** From `start` on the log holds one result for each of these calls, in order: the one that was due there. */
    ghost predicate AnswerInOrder(log: seq<Entry>, start: nat, calls: seq<Call>) {
      && |log| == start + |calls|
      && forall i | 0 <= i < |calls| :: AnswerAt(log, start + i, calls[i])
    }

    ghost predicate AnswerAt(log: seq<Entry>, i: nat, call: Call)
      requires i < |log|
    {
      && IsResult(log[i]) && log[i].call == call
      && DueAt(config, world, PointOf(config, world, log[..i])) == Gives(log[i])
    }

    /**
     * Every call of the turn in call order; going on means each got the one result that was due, none
     * had a blank id and none failed.
     */
    method RunCalls(s: Loop, turn: Turn) returns (s': Loop, flow: Flow)
      requires Midway(s, turn, 0) && Tracks(s) && |turn.calls| <= MAX_CALLS_PER_TURN && !Declining(config, turn)
      modifies record
      ensures Tracks(s') && Quiet(s, s')
      ensures flow.Next? ==> Running(s', []) && Recorded(s', s'.modelCalls)
      ensures flow.Next? ==> s.log <= s'.log && AnswerInOrder(s'.log, |s.log|, turn.calls)
      ensures flow.Stop? ==> Ended(s', flow.result) && Leaves(s', flow.result)
    {
      hide Midway, Ended, Leaves, AnswerInOrder, Running, Tracks, Work, AsksSilence, PointOf, DueAt, Recorded;
      s', flow := s, Next;
      NothingAnswered(s.log);
      for i := 0 to |turn.calls|
        invariant flow.Next? && Midway(s', turn, i) && Tracks(s') && Quiet(s, s')
        invariant s.log <= s'.log && AnswerInOrder(s'.log, |s.log|, turn.calls[..i])
      {
        ghost var before := s';
        s', flow := RunCall(s', turn, i);
        if flow.Stop? {
          return;
        }
        OneMoreAnswered(before, |s.log|, turn, i, Awaited(before).entry);
      }
      assert turn.calls[..|turn.calls|] == turn.calls;
      AllAnswered(s', turn);
    }

    lemma NothingAnswered(log: seq<Entry>)
      ensures AnswerInOrder(log, |log|, [])
    {
    }

    lemma OneMoreAnswered(s: Loop, start: nat, turn: Turn, i: nat, entry: Entry)
      requires i < |turn.calls| && start <= |s.log| && AnswerInOrder(s.log, start, turn.calls[..i])
      requires Midway(s, turn, i) && Awaited(s) == Gives(entry) && !Declining(config, turn)
      ensures AnswerInOrder(s.log + [entry], start, turn.calls[..i + 1])
    {
      hide AppendOnly, AllBuilt, Followed, Reconstructs, Lean, AllPrepared, Replays, PointOf, DueAt, BytesAfter,
        LoggedTurns, TurnsOf, Owing, NoneTerminal, CompletedCalls, AsksSilence;
      var longer, calls := s.log + [entry], turn.calls[..i + 1];
      DueIsResult(config, world, At(s), entry);
      ResultDue(config, world, At(s), entry);
      forall k | 0 <= k < |calls| ensures AnswerAt(longer, start + k, calls[k]) {
        if k < i {
          assert AnswerAt(s.log, start + k, turn.calls[..i][k]);
          assert longer[..start + k] == s.log[..start + k];
        } else {
          assert longer[..start + k] == s.log;
        }
      }
    }

    lemma AllAnswered(s: Loop, turn: Turn)
      requires Midway(s, turn, |turn.calls|)
      ensures Running(s, []) && Recorded(s, s.modelCalls)
    {
      assert CallIds(turn.calls)[|turn.calls|..] == [];
    }

    /** How a turn that has joined the conversation is answered, unless a stop comes first. */
    ghost predicate Responded(s: Loop, s': Loop, turn: Turn, flow: Flow) {
      if flow == Stop(Err(Cancelled)) then true
      else if turn.calls == [] then
        flow == Next || Answers(turn, s.completedTurns, flow.result)
      else if MAX_CALLS_PER_TURN < |turn.calls| then
        flow == Stop(Err(TooManyToolCalls(|turn.calls|, MAX_CALLS_PER_TURN)))
      else if Declining(config, turn) then
        && DeclineAnswered(s, flow) && Spent(s') == Spent(s)
        && (flow.Next? ==> s'.log == s.log + Refusals(turn.calls))
      else
        flow.Next? ==> s.log <= s'.log && AnswerInOrder(s'.log, |s.log|, turn.calls)
    }

    /** A turn that has joined the conversation is concluded, refused or answered. */
    method Respond(s: Loop, turn: Turn) returns (s': Loop, flow: Flow)
      requires Running(s, CallIds(turn.calls)) && Tracks(s) && Settled(s) && Said(s, turn)
      requires !lease.mailbox.Closed? && 1 <= s.completedTurns
      requires Resumed(CalllessTurns(world, s.modelCalls) - if turn.calls == [] then 1 else 0)
      modifies lease, record
      ensures Tracks(s') && Settled(s') && Responded(s, s', turn, flow)
      ensures flow.Next? ==> Running(s', []) && Recorded(s', s'.modelCalls) && !lease.mailbox.Closed?
      ensures flow.Next? ==> s'.completedTurns == s.completedTurns && s'.modelCalls == s.modelCalls
      ensures flow.Next? ==> Resumed(CalllessTurns(world, s.modelCalls))
      ensures flow.Next? ==>
        if turn.calls == [] then HandedOver(old(lease.contacts), s.log, s') else lease.contacts == old(lease.contacts)
      ensures flow.Stop? ==> Ended(s', flow.result) && Leaves(s', flow.result)
    {
      hide AppendOnly, AllBuilt, Followed, Reconstructs, Lean, AllPrepared, Replays, PointOf, DueAt, BytesAfter,
        LoggedTurns, TurnsOf, Owing, NoneTerminal, Handed, LoggedSteers, Simulated, CompletedCalls, EndsWith,
        Declines, AnswerInOrder, DeclineAnswered, AsksSilence, Unstopped, Askings, Told, CallsMade, CalllessTurns;
      s' := s;
      assert CallIds(turn.calls)[0..] == CallIds(turn.calls);
      if turn.calls == [] {
        s', flow := Conclude(s, turn);
      } else if MAX_CALLS_PER_TURN < |turn.calls| {
        OverTheLimit(s', turn);
        flow := Stop(Err(TooManyToolCalls(|turn.calls|, MAX_CALLS_PER_TURN)));
      } else if Declining(config, turn) {
        s', flow := Decline(s, turn);
      } else {
        s', flow := RunCalls(s, turn);
      }
    }

    lemma OverTheLimit(s: Loop, turn: Turn)
      requires MAX_CALLS_PER_TURN < |turn.calls| && At(s).turn == Some(turn) && At(s).answered == 0
      ensures Awaited(s) == Fails(TooManyToolCalls(|turn.calls|, MAX_CALLS_PER_TURN))
      ensures Tried(config, world, At(s)) == At(s).used
    {
      hide PointOf;
    }

    /** A completed turn is announced and counted and, unless a stop is seen, joins the conversation. */
    method TakeIn(s: Loop, turn: Turn) returns (s': Loop, stop: bool)
      requires Running(s, []) && Tracks(s) && 1 <= s.completedTurns && Heard(s, turn)
      requires Accounted(s, s.completedTurns - 1, s.modelCalls - 1) && Resumed(CalllessTurns(world, s.modelCalls - 1))
      modifies record
      ensures Tracks(s') && Settled(s') && s'.completedTurns == s.completedTurns && s'.modelCalls == s.modelCalls
      ensures stop == world.Cancelled(s.probes) && s'.probes == s.probes + 1
      ensures s' == s.(
          toolCalls := s'.toolCalls, events := s'.events, probes := s'.probes, messages := s'.messages, log := s'.log)
      ensures stop ==> Good(s') && NoneTerminal(s'.events) && s'.log == s.log
      ensures !stop ==> Running(s', CallIds(turn.calls)) && Said(s', turn) && s'.log == s.log + [ModelTurn(turn)]
    {
      hide AppendOnly, AllBuilt, Followed, Reconstructs, Lean, AllPrepared, Replays, PointOf, DueAt, BytesAfter,
        LoggedTurns, TurnsOf, Owing, NoneTerminal, Handed, LoggedSteers, Simulated, CompletedCalls, EndsWith,
        Unstopped, Askings, Told;
      var calls := SaturatingAdd(0, |turn.calls|);
      TurnHasPlace(world, s.modelCalls, turn);
      s' := s.(toolCalls := SaturatingAdd(s.toolCalls, calls));
      EmitKeepsQuiet(s'.events, Event.Answered(s.completedTurns, calls));
      ToldNext(s'.events, Event.Answered(s.completedTurns, calls));
      s' := Emitted(s', Event.Answered(s.completedTurns, calls));
      s', stop := CheckCancelled(s');
      if !stop {
        s' := RecordTurn(s', turn);
      }
    }

    /** A completed turn: it is taken in and, unless a stop is seen, responded to. */
    method Settle(s: Loop, turn: Turn) returns (s': Loop, flow: Flow)
      requires Running(s, []) && Tracks(s) && !lease.mailbox.Closed? && 1 <= s.completedTurns && Heard(s, turn)
      requires Accounted(s, s.completedTurns - 1, s.modelCalls - 1) && Resumed(CalllessTurns(world, s.modelCalls - 1))
      modifies lease, record
      ensures Tracks(s') && Settled(s')
      ensures flow.Next? ==> Running(s', []) && Recorded(s', s'.modelCalls) && !lease.mailbox.Closed?
      ensures flow.Next? ==> s'.completedTurns == s.completedTurns && s'.modelCalls == s.modelCalls
      ensures flow.Next? ==> Resumed(CalllessTurns(world, s'.modelCalls))
      ensures flow.Next? ==>
        if turn.calls == [] then HandedOver(old(lease.contacts), s.log + [ModelTurn(turn)], s')
        else lease.contacts == old(lease.contacts)
      ensures Responded(s.(log := s.log + [ModelTurn(turn)]), s', turn, flow)
      ensures flow.Stop? ==> Ended(s', flow.result) && Leaves(s', flow.result)
    {
      hide AppendOnly, AllBuilt, Followed, Reconstructs, Lean, AllPrepared, Replays, PointOf, DueAt, BytesAfter,
        LoggedTurns, TurnsOf, Owing, NoneTerminal, Handed, LoggedSteers, Simulated, CompletedCalls, EndsWith,
        Unstopped, Askings, Told, CallsMade, Responded, EndedWell, AnswerInOrder;
      var stop;
      s', stop := TakeIn(s, turn);
      if stop {
        CancelledAnyhow(s.(log := s.log + [ModelTurn(turn)]), s', turn);
        return s', Stop(Err(Cancelled));
      }
      ghost var joined := s';
      s', flow := Respond(s', turn);
      SameResponse(joined, s.(log := s.log + [ModelTurn(turn)]), s', turn, flow);
    }

    lemma CancelledAnyhow(s: Loop, s': Loop, turn: Turn)
      ensures Responded(s, s', turn, Stop(Err(Cancelled)))
    {
    }

    /** A response depends on the log and the work done, and on nothing else. */
    lemma SameResponse(s: Loop, t: Loop, s': Loop, turn: Turn, flow: Flow)
      requires s.log == t.log && s.completedTurns == t.completedTurns && Spent(s) == Spent(t)
      requires Responded(s, s', turn, flow)
      ensures Responded(t, s', turn, flow)
    {
      hide AnswerInOrder, AsksSilence, DueAt, PointOf, Answers;
    }

    /** What a listener hears ahead of a model call: of the steers that joined, if any, then of the call. */
    function Announced(steers: seq<Steer>, turn: nat): seq<Event> {
      (if steers == [] then [] else [Event.Steered(turn)]) + [TurnStarted(turn, config.maxSteps)]
    }

    /** Steers first, then the announcement, then the model call. */
    method Ask(s: Loop) returns (s': Loop, completion: Completion, steers: seq<Steer>)
      requires Recorded(s, s.modelCalls)
      requires Running(s, []) && Tracks(s) && Settled(s) && !lease.mailbox.Closed? && s.completedTurns < config.maxSteps
      requires Work(s) < s.probes && Resumed(CalllessTurns(world, s.modelCalls))
      modifies lease, record
      ensures Running(s', []) && Tracks(s') && lease.mailbox == old(lease.mailbox)
      ensures completion == world.Complete(s.modelCalls) && s'.modelCalls == s.modelCalls + 1
      ensures s'.completedTurns == s.completedTurns + if completion.Completed? then 1 else 0
      ensures Accounted(s', s.completedTurns, s.modelCalls) && Resumed(CalllessTurns(world, s.modelCalls))
      ensures completion.Completed? ==> Heard(s', completion.turn)
      ensures !completion.Completed? ==> Recorded(s', s'.modelCalls)
      ensures s'.messages == s.messages + SteerMessages(steers) && s'.requests == s.requests + [s'.messages]
      ensures s'.log == s.log + SteerEntries(steers) && Spent(s') == Spent(s)
      ensures s'.events == s.events + if config.listening then Announced(steers, s.completedTurns + 1) else []
      ensures lease.contacts == old(lease.contacts) + if lease.mailbox.Open? then [Took(steers)] else []
    {
      hide AppendOnly, AllBuilt, Followed, Reconstructs, Lean, AllPrepared, Replays, PointOf, DueAt, BytesAfter,
        LoggedTurns, TurnsOf, Owing, NoneTerminal, Handed, LoggedSteers, Simulated, CompletedCalls, EndsWith,
        SteerEntries, SteerMessages, Unstopped, Askings, Told, CallsMade, CalllessTurns, Messages, Items, Key;
      s', steers := TakeSteers(s);
      EmitKeepsQuiet(s'.events, TurnStarted(s.completedTurns + 1, config.maxSteps));
      ToldNext(s'.events, TurnStarted(s.completedTurns + 1, config.maxSteps));
      s' := Emitted(s', TurnStarted(s.completedTurns + 1, config.maxSteps));
      MessagesTracked(s');
      s', completion := AskModel(s');
      NothingSaid(s', s.modelCalls);
    }

    lemma MessagesTracked(s: Loop)
      requires Tracks(s)
      ensures s.messages == opening + Messages(s.log)
    {
    }

    /** A call that does not complete says nothing. */
    lemma NothingSaid(s: Loop, n: nat)
      requires Recorded(s, n) && n < |s.marks|
      ensures !world.Complete(n).Completed? ==> Recorded(s, n + 1)
    {
      hide PointOf, LoggedTurns;
    }

    /** The loop once these steers and then this turn have joined the log. */
    ghost function Joined(s: Loop, steers: seq<Steer>, turn: Turn): Loop {
      s.(log := s.log + SteerEntries(steers) + [ModelTurn(turn)], completedTurns := s.completedTurns + 1)
    }

    /** What one pass leads to: the end of the steps, a stop, or what the model call and its turn ask for. */
    ghost predicate Passes(s: Loop, steers: seq<Steer>, s': Loop, flow: Flow) {
      if s.completedTurns == config.maxSteps then flow == Stop(Err(MaxSteps(config.maxSteps)))
      else if world.Cancelled(s.probes) then flow == Stop(Err(Cancelled))
      else
        match world.Complete(s.modelCalls)
        case Completed(turn) => Responded(Joined(s, steers, turn), s', turn, flow)
        case Aborted => flow == Next || flow == Stop(Err(Cancelled))
        case OverMeter => flow == Stop(Err(Model(OverBudget)))
        case Fell(kind) => flow == Stop(Err(Model(Broken(kind))))
    }

    /** One pass of the loop: at most one model call, and everything it leads to. */
    method Step(s: Loop) returns (s': Loop, flow: Flow, steers: seq<Steer>)
      requires Running(s, []) && Tracks(s) && Settled(s) && Recorded(s, s.modelCalls) && !lease.mailbox.Closed?
      requires Resumed(CalllessTurns(world, s.modelCalls))
      modifies lease, record
      ensures Tracks(s') && Settled(s') && Passes(s, steers, s', flow)
      ensures flow.Next? ==> Running(s', []) && Recorded(s', s'.modelCalls) && !lease.mailbox.Closed?
      ensures flow.Next? ==> s'.modelCalls == s.modelCalls + 1 && Resumed(CalllessTurns(world, s'.modelCalls))
      ensures flow.Next? ==>
        || s'.completedTurns == s.completedTurns + 1
        || (s'.completedTurns == s.completedTurns && world.Complete(s.modelCalls).Aborted?)
      ensures flow.Stop? ==> Ended(s', flow.result) && Leaves(s', flow.result)
    {
      hide Running, Recorded, Ended, PointOf, DueAt, Handed, LoggedSteers, Simulated, SteerEntries, SteerMessages,
        Askings, Told, Heard, Responded, HandedOver;
      s', steers := s, [];
      StepsBounded(s);
      if s.completedTurns == config.maxSteps {
        OutOfSteps(s);
        return s', Stop(Err(MaxSteps(config.maxSteps))), steers;
      }
      var stop;
      s', stop := CheckCancelled(s');
      Looked(s, []);
      if stop {
        return s', Stop(Err(Cancelled)), steers;
      }
      var completion;
      s', completion, steers := Ask(s');
      match completion
      case Completed(turn) =>
        ghost var asked := s'.(log := s'.log + [ModelTurn(turn)]);
        s', flow := Settle(s', turn);
        SameResponse(asked, Joined(s, steers, turn), s', turn, flow);
      case Aborted =>
        s', flow := Interrupted(s');
      case OverMeter =>
        ModelFailed(s', OverBudget);
        flow := Stop(Err(Model(OverBudget)));
      case Fell(kind) =>
        ModelFailed(s', Broken(kind));
        flow := Stop(Err(Model(Broken(kind))));
    }

    lemma OutOfSteps(s: Loop)
      requires Running(s, []) && Recorded(s, s.modelCalls) && s.completedTurns == config.maxSteps
      ensures Ended(s, Err(MaxSteps(config.maxSteps)))
    {
      hide PointOf, BytesAfter, AllBuilt, Replays, AppendOnly, LoggedTurns, TurnsOf, Reconstructs;
    }

    lemma ModelFailed(s: Loop, cause: InferenceError)
      requires Running(s, []) && Recorded(s, s.modelCalls) && Explained(s, Model(cause))
      ensures Ended(s, Err(Model(cause)))
    {
      hide PointOf, DueAt, BytesAfter, AllBuilt, Replays, AppendOnly, LoggedTurns, TurnsOf, Reconstructs;
    }

    /** A call that was cut off may be logged afresh. */
    lemma CutOff(s: Loop)
      requires Good(s)
      ensures Reconstructs(s.audit, s.prompts, [])
    {
    }

    /** A call that was cut off starts over if a steer did it, and ends the session if a stop did. */
    method Interrupted(s: Loop) returns (s': Loop, flow: Flow)
      requires Running(s, []) && Tracks(s) && !lease.mailbox.Closed?
      requires 0 < s.modelCalls && world.Complete(s.modelCalls - 1).Aborted? && Recorded(s, s.modelCalls)
      ensures Tracks(s') && Quiet(s, s')
      ensures flow == Next || flow == Stop(Err(Cancelled))
      ensures flow.Next? <==> lease.mailbox.Open? && !world.Cancelled(s.probes)
      ensures flow.Next? ==> Running(s', []) && Recorded(s', s'.modelCalls)
      ensures flow.Next? ==> s' == s.(probes := s.probes + 1, transcribed := [])
      ensures flow.Stop? ==> Ended(s', flow.result) && Leaves(s', flow.result)
    {
      hide AppendOnly, AllBuilt, Followed, Reconstructs, Lean, AllPrepared, Replays, PointOf, DueAt, BytesAfter,
        LoggedTurns, TurnsOf, Owing, NoneTerminal, Handed, LoggedSteers, Simulated, CompletedCalls, EndsWith;
      hide Unstopped;
      s' := s;
      CutOff(s);
      if lease.IsOpen() {
        var stop;
        s', stop := CheckCancelled(s');
        if !stop {
          return s'.(transcribed := []), Next;
        }
      }
      flow := Stop(Err(Cancelled));
    }

    /** The turn loop. Every pass completes a step or uses up an abort, and aborts run out. */
    method Turns() returns (s: Loop, result: Result)
      requires Running(Start(), []) && Tracks(Start()) && Settled(Start()) && Resumed(0) && !lease.mailbox.Closed?
      modifies lease, record
      ensures Tracks(s) && Settled(s) && Ended(s, result) && Leaves(s, result)
    {
      s := Start();
      assert Recorded(s, 0);
      assert CalllessTurns(world, 0) == 0;
      hide Running, Recorded, Tracks, Ended, Leaves, Settled, Resumed, CalllessTurns;
      var flow := Next;
      while flow.Next?
        invariant Tracks(s) && Settled(s)
        invariant flow.Next? ==> Running(s, []) && Recorded(s, s.modelCalls) && !lease.mailbox.Closed?
        invariant flow.Next? ==> s.completedTurns <= config.maxSteps && Resumed(CalllessTurns(world, s.modelCalls))
        invariant flow.Stop? ==> Ended(s, flow.result) && Leaves(s, flow.result)
        decreases flow.Next?, config.maxSteps - s.completedTurns, |world.completions| - s.modelCalls
      {
        var before := s;
        var steers;
        s, flow, steers := Step(s);
        assert flow.Next? ==> s.completedTurns <= config.maxSteps by {
          if flow.Next? { StepsBounded(s); }
        }
      }
      result := flow.result;
    }

    lemma StepsBounded(s: Loop)
      requires Running(s, [])
      ensures s.completedTurns <= config.maxSteps
    {
    }

    /** Seals the mailbox whatever the loop returned; a stop that got in first wins. */
    method RunTurns() returns (s: Loop, result: Result)
      requires Running(Start(), []) && Tracks(Start()) && Settled(Start()) && Resumed(0) && !lease.mailbox.Closed?
      modifies lease, record
      ensures Tracks(s) && Settled(s) && Ended(s, result) && Leaves(s, result) && MailboxDone(result)
    {
      hide AppendOnly, AllBuilt, Followed, Reconstructs, Lean, AllPrepared, Replays, PointOf, DueAt, BytesAfter,
        LoggedTurns, TurnsOf, Owing, NoneTerminal, Handed, LoggedSteers, Simulated, CompletedCalls, EndsWith;
      s, result := Turns();
      var seal := lease.Close();
      if seal.Stopped? {
        assert result.Err?;
        result := Err(Cancelled);
      }
    }

    /** A supplied source was sealed once and not asked again, and its stop is never overridden. */
    ghost predicate MailboxDone(result: Result)
      reads lease
    {
      match lease.source
      case None => lease.contacts == [] && lease.mailbox.Absent?
      case Some(_) =>
        && lease.mailbox.Closed?
        && SealedOnceAndLast(lease.contacts, lease.mailbox.seal)
        && (lease.mailbox.seal.Stopped? ==> result == Err(Cancelled))
    }

    /**
     * A listener heard exactly one terminal event, last, that tells how the session ended; only running
     * over a budget is not told.
     */
    ghost predicate Reported(s: Loop, result: Result) {
      if !config.listening then s.events == []
      else
        match result
        case Ok(outcome) => EndsWith(s.events, Finished(outcome.suppress, outcome.modelTurns, s.toolCalls))
        case Err(Model(OverBudget)) => NoneTerminal(s.events)
        case Err(Cancelled) => EndsWith(s.events, CancelledBy(world.cancelSource))
        case Err(Model(Interrupted)) => EndsWith(s.events, CancelledBy(world.cancelSource))
        case Err(MaxSteps(_)) => EndsWith(s.events, FailedWith(StepBudget))
        case Err(ZeroSteps) => EndsWith(s.events, FailedWith(Internal))
        case Err(WakeReasonSerialization) => EndsWith(s.events, FailedWith(Internal))
        case Err(_) => EndsWith(s.events, FailedWith(ModelFault))
    }

    method ReportEnd(s: Loop, error: PromptError) returns (s': Loop)
      requires Good(s) && NoneTerminal(s.events)
      ensures Good(s') && s' == s.(events := s'.events) && Reported(s', Err(error))
      ensures Told(s'.events) == Told(s.events)
    {
      s' := s;
      if error != Model(OverBudget) {
        var event := match ClassOf(error)
                     case Class(kind) => FailedWith(kind)
                     case NotAFailure => CancelledBy(world.cancelSource);
        FinishedWell(s, event);
        s' := Emitted(s, event);
      }
    }

    /**
     * A whole session. However it ends: record, message list and mailbox agree; every request extended
     * the one before; the transcript reader could follow; the mailbox was closed once; and one event
     * told the end.
     */
    method Run() returns (s: Loop, result: Result)
      requires Running(Start(), []) && Tracks(Start()) && Settled(Start()) && Resumed(0) && !lease.mailbox.Closed?
      modifies lease, record
      ensures result == Err(Cancelled) ||
              (Unstopped(world, s.probes) && Recorded(s, s.modelCalls) && Spent(s) == Tried(config, world, At(s)))
      ensures Tracks(s) && Settled(s) && Good(s) && Leaves(s, result) && MailboxDone(result) && Reported(s, result)
      ensures result.Ok? ==> EndedWell(s, result.outcome)
      ensures result.Err? ==> Explained(s, result.error)
    {
      hide AppendOnly, AllBuilt, Followed, Reconstructs, Lean, AllPrepared, Replays, PointOf, DueAt, BytesAfter,
        LoggedTurns, TurnsOf, Owing, NoneTerminal, Handed, LoggedSteers, Simulated, CompletedCalls, EndsWith;
      s, result := RunTurns();
      if result.Err? {
        s := ReportEnd(s, result.error);
      }
    }
  }

  datatype Inputs = Inputs(
    config: Config,
    system: Option<string>,
    skillListing: Option<string>,
    instruction: string,
    notice: Option<string>,
    prompt: string,
    recorded: Option<string>,
    key: string,
    cap: nat,
    steering: Option<SteerSource>)

  /** The prompt as the record has it. */
  function RecordedPrompt(inputs: Inputs): string {
    if inputs.recorded.Some? then inputs.recorded.value else inputs.prompt
  }

  function SystemMessage(text: Option<string>): seq<Message> {
    match text
    case Some(content) => [System(content)]
    case None => []
  }

  /** The system texts that are present, in order. */
  function Systems(inputs: Inputs): seq<Message> {
    SystemMessage(inputs.system) + SystemMessage(inputs.skillListing)
    + SystemMessage(if inputs.config.mode.Offered() then Some(inputs.instruction) else None)
    + SystemMessage(inputs.notice)
  }

  /** What comes before the prompt, in order; it stays put for the whole session. */
  function StablePrefix(inputs: Inputs, prior: seq<Message>): seq<Message> {
    Systems(inputs) + prior
  }

  function Opening(inputs: Inputs, prior: seq<Message>): seq<Message> {
    StablePrefix(inputs, prior) + [User(inputs.prompt)]
  }

  function One(present: bool): nat {
    if present then 1 else 0
  }

  /**
   * The system texts that are present come first, in order, then the whole history, then the prompt; and
   * nothing else comes before the prompt.
   */
  ghost predicate BeginsWith(inputs: Inputs, prior: seq<Message>, messages: seq<Message>) {
    var listing := One(inputs.system.Some?);
    var instruction := listing + One(inputs.skillListing.Some?);
    var notice := instruction + One(inputs.config.mode != Required);
    var history := notice + One(inputs.notice.Some?);
    && history + |prior| < |messages|
    && (inputs.system.Some? ==> messages[0] == System(inputs.system.value))
    && (inputs.skillListing.Some? ==> messages[listing] == System(inputs.skillListing.value))
    && (inputs.config.mode != Required ==> messages[instruction] == System(inputs.instruction))
    && (inputs.notice.Some? ==> messages[notice] == System(inputs.notice.value))
    && messages[history..history + |prior|] == prior
    && messages[history + |prior|] == User(inputs.prompt)
  }

  lemma SystemsInOrder(inputs: Inputs)
    ensures var listing := One(inputs.system.Some?);
            var instruction := listing + One(inputs.skillListing.Some?);
            var notice := instruction + One(inputs.config.mode != Required);
            && |Systems(inputs)| == notice + One(inputs.notice.Some?)
            && (inputs.system.Some? ==> Systems(inputs)[0] == System(inputs.system.value))
            && (inputs.skillListing.Some? ==> Systems(inputs)[listing] == System(inputs.skillListing.value))
            && (inputs.config.mode != Required ==> Systems(inputs)[instruction] == System(inputs.instruction))
            && (inputs.notice.Some? ==> Systems(inputs)[notice] == System(inputs.notice.value))
  {
  }

  /** What extends the opening begins so, and the opening itself ends with the prompt. */
  lemma OpeningBegins(inputs: Inputs, prior: seq<Message>, messages: seq<Message>)
    requires Opening(inputs, prior) <= messages
    ensures BeginsWith(inputs, prior, messages)
    ensures |Opening(inputs, prior)| ==
            One(inputs.system.Some?) + One(inputs.skillListing.Some?) + One(inputs.config.mode != Required)
            + One(inputs.notice.Some?) + |prior| + 1
  {
    SystemsInOrder(inputs);
    hide Systems;
    var systems, opening := Systems(inputs), Opening(inputs, prior);
    var end := |systems| + |prior|;
    assert forall i | 0 <= i < |systems| :: messages[i] == opening[i] == systems[i];
    assert messages[|systems|..end] == opening[|systems|..end] == prior;
    assert messages[end] == opening[end];
  }

  /** A well-formed history makes a well-formed opening. */
  lemma OpeningOwesNothing(inputs: Inputs, prior: seq<Message>)
    requires Owed(prior) == Some([])
    ensures Owed(Opening(inputs, prior)) == Some([])
  {
    var a := SystemMessage(inputs.system);
    var b := SystemMessage(inputs.skillListing);
    var c := SystemMessage(if inputs.config.mode.Offered() then Some(inputs.instruction) else None);
    var d := SystemMessage(inputs.notice);
    OwedJoins(a, b);
    OwedJoins(a + b, c);
    OwedJoins(a + b + c, d);
    OwedJoins(a + b + c + d, prior);
    OwedAppend(StablePrefix(inputs, prior), User(inputs.prompt));
  }

  /**
   * Every model request of every session begins with the system texts, the history and the prompt,
   * extends the request before it, and, given a well-formed history, answers every call in call order
   * before the conversation moves on.
   */
  lemma RequestsAreWellFormed(inputs: Inputs, prior: seq<Message>, requests: seq<seq<Message>>, messages: seq<Message>)
    requires AppendOnly(requests, Opening(inputs, prior), messages)
    ensures forall i, j | 0 <= i < j < |requests| :: requests[i] <= requests[j]
    ensures BeginsWith(inputs, prior, messages)
    ensures forall i | 0 <= i < |requests| :: BeginsWith(inputs, prior, requests[i])
    ensures Owed(prior) == Some([]) ==> forall i | 0 <= i < |requests| :: CallsAnswered(requests[i])
  {
    var opening := Opening(inputs, prior);
    OpeningBegins(inputs, prior, messages);
    forall i | 0 <= i < |requests| ensures BeginsWith(inputs, prior, requests[i]) {
      OpeningBegins(inputs, prior, requests[i]);
    }
    hide BeginsWith, Opening;
    if Owed(prior) == Some([]) {
      OpeningOwesNothing(inputs, prior);
      forall i | 0 <= i < |requests| ensures CallsAnswered(requests[i]) {
        OwedNothingMeansAnswered(requests[i]);
      }
    }
  }

  /** Whatever the model said stands in the conversation right behind the request it answered. */
  lemma TurnFollowsRequest(
    config: Config, world: World, opening: seq<Message>, log: seq<Entry>, requests: seq<seq<Message>>, marks: seq<nat>,
    n: nat, i: nat)
    requires AllBuilt(config, world, opening, log, requests, marks) && Followed(world, log, marks, n)
    requires i < n && world.Complete(i).Completed?
    ensures requests[i] + [Message.Assistant(world.Complete(i).turn)] <= opening + Messages(log)
  {
    hide PointOf, DueAt, LoggedTurns, TurnsOf, Messages, Items, Key;
    var mark, turn := marks[i], world.Complete(i).turn;
    assert BuiltAt(config, world, opening, log, requests[i], mark, i) && FollowedAt(world, log, mark, i);
    var before := log[..mark];
    TakeNext(log, mark);
    Extend(before, ModelTurn(turn), "", 0);
    MessagesPrefix(log, mark + 1);
    PrefixStays(opening, Messages(before) + [Message.Assistant(turn)], Messages(log));
    Associative(opening, Messages(before), [Message.Assistant(turn)]);
  }

  /**
   * Runs a session over a history. With no steps allowed nothing is started, so there is no record
   * and the mailbox is not even sealed.
   */
  method RunPromptSession(inputs: Inputs, world: World, prior: seq<Message>)
    returns (result: Result, captured: Option<seq<Item>>, s: Loop, session: Session?)
    ensures session == null <==> inputs.config.maxSteps == 0
    ensures session == null ==>
      && result == Err(ZeroSteps) && captured == None && s.modelCalls == 0
      && s.events == if inputs.config.listening then [FailedWith(Internal)] else []
    ensures session != null ==>
      && session.config == inputs.config && session.world == world
      && session.opening == Opening(inputs, prior) && session.lease.source == inputs.steering
      && BeginsWith(inputs, prior, session.opening) && BeginsWith(inputs, prior, s.messages)
      && |session.opening| ==
         One(inputs.system.Some?) + One(inputs.skillListing.Some?) + One(inputs.config.mode != Required)
         + One(inputs.notice.Some?) + |prior| + 1
      && (forall i | 0 <= i < |s.requests| :: BeginsWith(inputs, prior, s.requests[i]))
      && captured == Some([Asked(Keep(RecordedPrompt(inputs), inputs.cap))] + Items(s.log, inputs.key, inputs.cap))
      && (inputs.recorded.Some? ==> captured.value[0] == Asked(Keep(inputs.recorded.value, inputs.cap)))
      && (inputs.recorded.None? ==> captured.value[0] == Asked(Keep(inputs.prompt, inputs.cap)))
      && s.messages == session.opening + Messages(s.log)
      && LoggedSteers(s.log) == Handed(session.lease.contacts)
      && session.Good(s) && session.Settled(s) && Genuine(inputs.steering, session.lease.contacts)
      && (result == Err(Cancelled) ||
            (Unstopped(world, s.probes) && session.Recorded(s, s.modelCalls)
             && session.Spent(s) == Tried(inputs.config, world, session.At(s))))
      && session.MailboxDone(result) && session.Reported(s, result)
      && session.Leaves(s, result)
      && (result.Ok? ==> session.EndedWell(s, result.outcome))
      && (result.Err? ==> session.Explained(s, result.error))
  {
    if inputs.config.maxSteps == 0 {
      s := Loop([], 0, 0, 0, 0, [], AssetBytes(0, 0), None, 0, 0, 0, 0, 0,
                if inputs.config.listening then [FailedWith(Internal)] else [], [], [], [], [], [], []);
      return Err(ZeroSteps), None, s, null;
    }
    var running := new Session(
      inputs.config, world, Opening(inputs, prior), RecordedPrompt(inputs), inputs.key, inputs.cap, inputs.steering);
    s, result := running.Run();
    OpeningBegins(inputs, prior, running.opening);
    RequestsAreWellFormed(inputs, prior, s.requests, s.messages);
    captured := Some(running.record.items);
    session := running;
  }
}
