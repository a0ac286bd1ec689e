/**
 * A session's log read back: what has to come next at each point of it, given the turns in it and the
 * world's answers in order.
 */
module Replay {
  import opened Text
  import opened Conversation
  import opened Capture
  import opened Tools
  import opened Progress
  import opened Mailbox
  import opened Environment

  /** Some call of this turn asks for silence. */
  predicate AsksSilence(turn: Turn) {
    exists i :: 0 <= i < |turn.calls| && turn.calls[i].name == DECLINE_REPLY
  }

  /** The turn is taken as a request for silence, so that none of its calls runs. */
  predicate Declining(config: Config, turn: Turn) {
    config.mode.Offered() && AsksSilence(turn)
  }

  predicate BuiltIn(handler: Handler) {
    !handler.AssetFetch? && !handler.UnknownTool? && !handler.ScriptRunner?
  }

  /** The result a built-in tool's call gets; the two views always count as having run. */
  function BuiltInOutcome(handler: Handler, reported: Outcome): Outcome {
    if handler.ConfigView? || handler.WakeReasonView? then Exit(0) else reported
  }

  /** The first thing wrong with a turn that asks for silence: a blank id, or arguments to the ask. */
  function DeclineFault(world: World, calls: seq<Call>): Option<PromptError> {
    if calls == [] then None
    else if DeclineFault(world, calls[..|calls| - 1]).Some? then DeclineFault(world, calls[..|calls| - 1])
    else
      var call := calls[|calls| - 1];
      if Blank(call.id) then Some(EmptyToolCallId)
      else if call.name == DECLINE_REPLY && call.arguments in world.declineFaults then
        Some(BadArguments(call.name, world.declineFaults[call.arguments]))
      else None
  }

  lemma {:induction false} DeclineFaultStays(world: World, calls: seq<Call>, n: nat)
    requires n <= |calls| && DeclineFault(world, calls[..n]).Some?
    ensures DeclineFault(world, calls) == DeclineFault(world, calls[..n])
    decreases |calls|
  {
    if n == |calls| {
      assert calls[..n] == calls;
    } else {
      assert calls[..|calls| - 1][..n] == calls[..n];
      DeclineFaultStays(world, calls[..|calls| - 1], n);
    }
  }

  /** Every call has an id, and a request for silence has the arguments it may have. */
  ghost predicate Faultless(world: World, call: Call) {
    !Blank(call.id) && !(call.name == "decline_chat_reply" && call.arguments in world.declineFaults)
  }

  /** The fault found is that of the first call that has one; there is none exactly if every call is faultless. */
  lemma {:induction false} DeclineFaultMeans(world: World, calls: seq<Call>)
    ensures DeclineFault(world, calls).None? <==> forall i | 0 <= i < |calls| :: Faultless(world, calls[i])
    ensures DeclineFault(world, calls).Some? ==>
      exists i :: 0 <= i < |calls| && !Faultless(world, calls[i])
        && (forall k | 0 <= k < i :: Faultless(world, calls[k]))
        && DeclineFault(world, calls).value ==
           if Blank(calls[i].id) then EmptyToolCallId
           else BadArguments(calls[i].name, world.declineFaults[calls[i].arguments])
  {
    if calls != [] {
      var front := calls[..|calls| - 1];
      DeclineFaultMeans(world, front);
      assert forall i | 0 <= i < |front| :: front[i] == calls[i];
      if DeclineFault(world, front).None? && !Faultless(world, calls[|front|]) {
        assert forall k | 0 <= k < |front| :: Faultless(world, calls[k]);
      }
    }
  }

  /** How many of the world's answers of each kind are used up, and the one turn that may have rejections. */
  datatype Use = Use(handled: nat, fetched: nat, ran: nat, rejected: nat, rejectedIn: Option<nat>)

  /** A point of a log: the turn being answered, how many of its calls are, and what that took. */
  datatype Point = Point(turns: nat, turn: Option<Turn>, answered: nat, used: Use)

  const BEGINNING := Point(0, None, 0, Use(0, 0, 0, 0, None))

  /** The asset bytes shown once the first `n` fetches are answered. */
  function BytesAfter(config: Config, world: World, n: nat): AssetBytes {
    if n == 0 then AssetBytes(config.nativeBytes, 0)
    else Charged(world.Fetch(n - 1), BytesAfter(config, world, n - 1))
  }

  /** Where the result of a call comes from. */
  datatype Source = FromHandler | FromFetch | FromScript | FromRejection | FromRefusal

  function SourceOf(config: Config, world: World, turn: Turn, call: Call): Source {
    if Declining(config, turn) then FromRefusal
    else
      match HandlerFor(config.offer, call.name)
      case AssetFetch => FromFetch
      case UnknownTool => FromRejection
      case ScriptRunner => if call.arguments in world.scriptFaults then FromRejection else FromScript
      case _ => FromHandler
  }

  /** What has to come next: another turn, this result, this error, or silence. */
  datatype Due = Idle | Gives(entry: Entry) | Fails(error: PromptError) | Silent

  /** What a call that reaches its handler gets. */
  function AnswerTo(config: Config, world: World, at: Point, call: Call): Due {
    match HandlerFor(config.offer, call.name)
    case AssetFetch => FetchAnswer(call, world.Fetch(at.used.fetched), BytesAfter(config, world, at.used.fetched).total)
    case UnknownTool => RejectionOf(at, call, config.unknownToolFeedback, NoSuchTool(call.name))
    case ScriptRunner =>
      if call.arguments in world.scriptFaults then
        RejectionOf(at, call, config.badScriptFeedback, BadArguments(call.name, world.scriptFaults[call.arguments]))
      else
        Gives(ScriptEntry(call, world.Run(at.used.ran)))
    case handler => HandlerAnswer(call, handler, world.Handle(at.used.handled))
  }

  function ScriptEntry(call: Call, reply: ScriptReply): Entry {
    Returned(call, ScriptText(reply), Exit(reply.exit))
  }

  function FetchAnswer(call: Call, reply: FetchReply, total: nat): Due {
    if reply.Malformed? then Fails(BadArguments(call.name, reply.fault)) else Gives(FetchEntry(call, reply, total))
  }

  function HandlerAnswer(call: Call, handler: Handler, reply: HandlerReply): Due {
    match reply
    case Served(text, outcome) => Gives(Returned(call, text, BuiltInOutcome(handler, outcome)))
    case Faulted(error) => Fails(HandlerFailure(error, handler, call.name))
  }

  /** A rejected call is answered only if no earlier turn had one; otherwise the session fails. */
  function RejectionOf(at: Point, call: Call, feedback: string, error: PromptError): Due {
    if at.used.rejectedIn.None? || at.used.rejectedIn == Some(at.turns) then Gives(Returned(call, feedback, Refused))
    else Fails(error)
  }

  /**
   * What a turn that asks for silence gets: an error for the first fault, silence if the work so far
   * permits it, and otherwise a refusal of every call, if a turn is left to report in.
   */
  function DeclineAnswer(config: Config, world: World, at: Point, turn: Turn, call: Call): Due {
    match DeclineFault(world, turn.calls)
    case Some(fault) => Fails(fault)
    case None =>
      if PermitsDecline(config.mode, world.ReviewAt(at.turns), world.UsedAfter(at.used.ran)) then Silent
      else if at.turns == config.maxSteps then Fails(UnreportedCapabilityWork)
      else Gives(Returned(call, config.declineAfterWork, Refused))
  }

  function DueFor(config: Config, world: World, at: Point, turn: Turn): Due {
    if |turn.calls| <= at.answered then Idle
    else if MAX_CALLS_PER_TURN < |turn.calls| then Fails(TooManyToolCalls(|turn.calls|, MAX_CALLS_PER_TURN))
    else
      var call := turn.calls[at.answered];
      if Declining(config, turn) then DeclineAnswer(config, world, at, turn, call)
      else if Blank(call.id) then Fails(EmptyToolCallId)
      else AnswerTo(config, world, at, call)
  }

  function DueAt(config: Config, world: World, at: Point): Due {
    match at.turn
    case None => Idle
    case Some(turn) => DueFor(config, world, at, turn)
  }

  /** How many calls of the turn being answered have no result yet. */
  function Pending(at: Point): int {
    match at.turn
    case None => 0
    case Some(turn) => |turn.calls| - at.answered
  }

  /** Whatever is given is a result. */
  lemma DueIsResult(config: Config, world: World, at: Point, entry: Entry)
    requires DueAt(config, world, at) == Gives(entry)
    ensures IsResult(entry)
  {
    hide BytesAfter, ScriptText, TooLargeNotice, HandlerFor;
    var reply := world.Fetch(at.used.fetched);
    if !reply.Malformed? {
      FetchEntryKinds(at.turn.value.calls[at.answered], reply, BytesAfter(config, world, at.used.fetched).total);
    }
  }

  /** Silence is due only to a faultless request for it, and only if the work so far permits it in this mode. */
  lemma SilentMeans(config: Config, world: World, at: Point)
    requires DueAt(config, world, at) == Silent
    ensures at.turn.Some? && at.answered < |at.turn.value.calls| <= 10
    ensures exists i :: 0 <= i < |at.turn.value.calls| && at.turn.value.calls[i].name == "decline_chat_reply"
    ensures forall i | 0 <= i < |at.turn.value.calls| :: Faultless(world, at.turn.value.calls[i])
    ensures match config.mode
            case Required => false
            case Optional => world.UsedAfter(at.used.ran) == 0
            case QuietReview =>
              world.ReviewAt(at.turns).others == 0 && world.ReviewAt(at.turns).refreshes == world.UsedAfter(at.used.ran)
            case QuietDigest => true
  {
    hide BytesAfter, ScriptText, HandlerFor, DeclineFault, Faultless;
    DeclineFaultMeans(world, at.turn.value.calls);
  }

  /**
   * A faultless request for silence gets it exactly if the work so far permits it in this mode, and
   * otherwise each of its calls is refused, unless no turn is left to report in.
   */
  lemma SilenceByMode(config: Config, world: World, at: Point, turn: Turn)
    requires at.turn == Some(turn) && at.answered < |turn.calls| <= 10 && config.mode != Required
    requires exists i :: 0 <= i < |turn.calls| && turn.calls[i].name == "decline_chat_reply"
    requires forall i | 0 <= i < |turn.calls| :: Faultless(world, turn.calls[i])
    ensures var review, calls := world.ReviewAt(at.turns), world.UsedAfter(at.used.ran);
            var permitted := match config.mode
                             case Required => false
                             case Optional => calls == 0
                             case QuietReview => review.others == 0 && review.refreshes == calls
                             case QuietDigest => true;
            DueAt(config, world, at) ==
            if permitted then Silent
            else if at.turns == config.maxSteps then Fails(UnreportedCapabilityWork)
            else Gives(Returned(turn.calls[at.answered], config.declineAfterWork, Refused))
  {
    hide BytesAfter, ScriptText, HandlerFor, DeclineFault, Faultless;
    DeclineFaultMeans(world, turn.calls);
  }

  /** The answers used up once this call of this turn has its result. */
  function UsedBy(config: Config, world: World, at: Point, turn: Turn, call: Call): Use {
    match SourceOf(config, world, turn, call)
    case FromHandler => at.used.(handled := at.used.handled + 1)
    case FromFetch => at.used.(fetched := at.used.fetched + 1)
    case FromScript => at.used.(ran := at.used.ran + 1)
    case FromRejection => at.used.(rejected := at.used.rejected + 1, rejectedIn := Some(at.turns))
    case FromRefusal => at.used
  }

  /** The answers used up once the next call has been tried and has failed: a handler or a fetch was asked. */
  function Tried(config: Config, world: World, at: Point): Use {
    match at.turn
    case None => at.used
    case Some(turn) =>
      if Unasked(config, turn, at.answered) then at.used
      else
        match SourceOf(config, world, turn, turn.calls[at.answered])
        case FromHandler => at.used.(handled := at.used.handled + 1)
        case FromFetch => at.used.(fetched := at.used.fetched + 1)
        case _ => at.used
  }

  /** No call of the turn is left to hand to its handler, or it does not get that far. */
  predicate Unasked(config: Config, turn: Turn, answered: nat) {
    || |turn.calls| <= answered || MAX_CALLS_PER_TURN < |turn.calls|
    || Declining(config, turn) || Blank(turn.calls[answered].id)
  }

  /** The point of the log after one more entry. */
  function Past(config: Config, world: World, at: Point, entry: Entry): Point {
    match entry
    case ModelTurn(turn) => Point(at.turns + 1, Some(turn), 0, at.used)
    case Returned(call, _, _) => PastResult(config, world, at, call)
    case Shown(call, _, _) => PastResult(config, world, at, call)
    case _ => at
  }

  function PastResult(config: Config, world: World, at: Point, call: Call): Point {
    match at.turn
    case None => at
    case Some(turn) => at.(answered := at.answered + 1, used := UsedBy(config, world, at, turn, call))
  }

  /** The point a log has reached. */
  function PointOf(config: Config, world: World, log: seq<Entry>): Point {
    if log == [] then BEGINNING
    else Past(config, world, PointOf(config, world, log[..|log| - 1]), log[|log| - 1])
  }

  predicate IsResult(entry: Entry) {
    entry.Returned? || entry.Shown?
  }

  /** The entry is the one result that is due, or it is a turn or a steer and no result is. */
  predicate Fits(config: Config, world: World, at: Point, entry: Entry) {
    DueAt(config, world, at) == if IsResult(entry) then Gives(entry) else Idle
  }

  /** Every entry of the log fits where it stands: no result is made up, left out or out of order. */
  predicate Replays(config: Config, world: World, log: seq<Entry>) {
    log == []
    || (Replays(config, world, log[..|log| - 1])
        && Fits(config, world, PointOf(config, world, log[..|log| - 1]), log[|log| - 1]))
  }

  lemma PointNext(config: Config, world: World, log: seq<Entry>, entry: Entry)
    ensures PointOf(config, world, log + [entry]) == Past(config, world, PointOf(config, world, log), entry)
    ensures Replays(config, world, log) && Fits(config, world, PointOf(config, world, log), entry)
            ==> Replays(config, world, log + [entry])
  {
    assert (log + [entry])[..|log|] == log;
  }

  /** Steers join only where no result is due, and leave the point where it is. */
  lemma {:induction false} SteersReplay(config: Config, world: World, log: seq<Entry>, steers: seq<Steer>)
    requires Replays(config, world, log) && DueAt(config, world, PointOf(config, world, log)) == Idle
    ensures Replays(config, world, log + SteerEntries(steers))
    ensures PointOf(config, world, log + SteerEntries(steers)) == PointOf(config, world, log)
  {
    hide DueAt, PointOf, Replays, PastResult;
    if steers == [] {
      assert SteerEntries(steers) == [];
      EmptyIsUnit(log);
    } else {
      var front, last := steers[..|steers| - 1], steers[|steers| - 1];
      SteersReplay(config, world, log, front);
      SteersSplit(steers);
      Associative(log, SteerEntries(front), [SteerEntry(last)]);
      PointNext(config, world, log + SteerEntries(front), SteerEntry(last));
    }
  }

  /** A log that replays does so at each of its entries. */
  lemma {:induction false} ReplaysAt(config: Config, world: World, log: seq<Entry>, i: nat)
    requires Replays(config, world, log) && i < |log|
    ensures Replays(config, world, log[..i]) && Fits(config, world, PointOf(config, world, log[..i]), log[i])
    ensures PointOf(config, world, log[..i + 1]) == Past(config, world, PointOf(config, world, log[..i]), log[i])
    decreases |log|
  {
    var front := log[..|log| - 1];
    if i < |front| {
      assert front[..i] == log[..i] && front[..i + 1] == log[..i + 1];
      ReplaysAt(config, world, front, i);
    } else {
      assert log[..i] == front && log[..i + 1] == log;
    }
  }

  /** The results in a log that came from one source, in order. */
  function ResultsFrom(config: Config, world: World, log: seq<Entry>, source: Source): seq<Entry> {
    if log == [] then []
    else
      var front, entry := log[..|log| - 1], log[|log| - 1];
      var turn := PointOf(config, world, front).turn;
      ResultsFrom(config, world, front, source) +
      if IsResult(entry) && turn.Some? && SourceOf(config, world, turn.value, entry.call) == source then [entry] else []
  }

  /** The entry is what the world's n-th answer of this kind makes of its call. */
  predicate IsNth(config: Config, world: World, source: Source, n: nat, entry: Entry) {
    && IsResult(entry)
    && match source
       case FromScript => entry == ScriptEntry(entry.call, world.Run(n))
       case FromFetch =>
         && !world.Fetch(n).Malformed?
         && entry == FetchEntry(entry.call, world.Fetch(n), BytesAfter(config, world, n).total)
       case FromHandler =>
         HandlerAnswer(entry.call, HandlerFor(config.offer, entry.call.name), world.Handle(n)) == Gives(entry)
       case _ => entry.Returned? && entry.outcome == Refused
  }

  function CountOf(used: Use, source: Source): nat
    requires source != FromRefusal
  {
    match source
    case FromHandler => used.handled
    case FromFetch => used.fetched
    case FromScript => used.ran
    case FromRejection => used.rejected
  }

  /** A result names the call it answers, the next one of its turn, and is its source's next answer. */
  lemma ResultDue(config: Config, world: World, at: Point, entry: Entry)
    requires IsResult(entry) && Fits(config, world, at, entry)
    ensures at.turn.Some? && at.answered < |at.turn.value.calls| && entry.call == at.turn.value.calls[at.answered]
    ensures var source := SourceOf(config, world, at.turn.value, entry.call);
            source == FromRefusal || IsNth(config, world, source, CountOf(at.used, source), entry)
  {
    hide BytesAfter, ScriptText, TooLargeNotice, HandlerFor;
    var call := at.turn.value.calls[at.answered];
    var reply := world.Fetch(at.used.fetched);
    if !reply.Malformed? {
      FetchEntryKinds(call, reply, BytesAfter(config, world, at.used.fetched).total);
    }
  }

  /**
   * The k-th script result of a log is what the world's k-th script run gave, and so for fetches and
   * built-in tools: nothing ran unlogged, nothing was logged unrun, and no answer was used twice.
   */
  lemma {:induction false} ResultsInOrder(config: Config, world: World, log: seq<Entry>, source: Source)
    requires Replays(config, world, log) && source != FromRefusal
    ensures var results := ResultsFrom(config, world, log, source);
            && |results| == CountOf(PointOf(config, world, log).used, source)
            && forall k | 0 <= k < |results| :: IsNth(config, world, source, k, results[k])
    decreases |log|
  {
    hide IsNth, DueAt;
    if log != [] {
      var front, entry := log[..|log| - 1], log[|log| - 1];
      ResultsInOrder(config, world, front, source);
      if IsResult(entry) {
        ResultDue(config, world, PointOf(config, world, front), entry);
      }
    }
  }
}
