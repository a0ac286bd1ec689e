/** What is due in a session, told from the names of the tools, the texts and the limits themselves. */
module Rules {
  import opened Text
  import opened Conversation
  import opened Capture
  import opened Tools
  import opened Progress
  import opened Mailbox
  import opened Environment
  import opened Replay

  /** The turn asks for silence in a mode that offers it. */
  ghost predicate Asks(config: Config, turn: Turn) {
    config.mode != Required && exists i :: 0 <= i < |turn.calls| && turn.calls[i].name == "decline_chat_reply"
  }

  /** The names of the built-in tools that were offered. */
  ghost predicate IsBuiltIn(offer: Offer, name: string) {
    || (name == "inspect_agent_config" && offer.agentConfig)
    || (name == "wake_reason" && offer.wakeReason)
    || (name == "read_skill" && offer.skills)
    || name == "suggest_improvement"
    || ((name == "read_memory_record" || name == "set_memory_pin" || name == "clear_memory_pin") && offer.memory)
    || (name == "wake" && offer.wakes)
  }

  ghost predicate IsFetch(offer: Offer, name: string) {
    name == "fetch_chat_asset" && offer.assets
  }

  lemma NamesDecide(offer: Offer, name: string)
    ensures BuiltIn(HandlerFor(offer, name)) <==> IsBuiltIn(offer, name)
    ensures HandlerFor(offer, name) == AssetFetch <==> IsFetch(offer, name)
    ensures HandlerFor(offer, name) == ScriptRunner <==> name == "bash"
    ensures HandlerFor(offer, name) == UnknownTool <==>
      !IsBuiltIn(offer, name) && !IsFetch(offer, name) && name != "bash"
    ensures HandlerFor(offer, name) in {ConfigView, WakeReasonView} <==>
      IsBuiltIn(offer, name) && (name == "inspect_agent_config" || name == "wake_reason")
    ensures HandlerFor(offer, name) == WakeReasonView <==> IsBuiltIn(offer, name) && name == "wake_reason"
    ensures HandlerFor(offer, name) == WakeReasonView ==> offer.wakeReason
  {
    HandlerByName(offer, name);
    NameLengths();
    hide HandlerFor;
  }

  // Results.

  /** A script's output and its exit code, as one text. */
  ghost predicate IsScriptResult(call: Call, reply: ScriptReply, entry: Entry) {
    if reply.output == "" then
      entry == Returned(call, "[exit code: " + Decimal(reply.exit) + "]", Exit(reply.exit))
    else
      entry == Returned(call, reply.output + "\n[exit code: " + Decimal(reply.exit) + "]", Exit(reply.exit))
  }

  function Unseen(asset: nat): string {
    "chat-asset:" + Decimal(asset) + " will not be shown: the model request would exceed the 40 MiB decoded"
    + " asset limit. Say that chat-asset:" + Decimal(asset) + " went unseen."
  }

  /** An asset is shown as long as the bytes shown stay within 40 MiB; an empty one always is. */
  ghost predicate Fit(shown: nat, bytes: nat) {
    shown + bytes <= 41943040 || bytes == 0
  }

  ghost predicate IsFetchResult(call: Call, reply: FetchReply, shown: nat, entry: Entry) {
    match reply
    case Malformed(_) => false
    case Unavailable(reason) => entry == Returned(call, reason, Refused)
    case Unreadable(error) => entry == Returned(call, error, Failed)
    case Textual(asset, text) =>
      if Fit(shown, Utf8Len(text)) then entry == Returned(call, text, Exit(0))
      else entry == Returned(call, Unseen(asset), Refused)
    case Binary(asset, mime, bytes) =>
      if Fit(shown, bytes) then entry == Shown(call, asset, mime) else entry == Returned(call, Unseen(asset), Refused)
  }

  /** What is shown grows by each asset that fits, and text counts as text. */
  lemma ShownGrows(config: Config, world: World, n: nat)
    ensures BytesAfter(config, world, 0) == AssetBytes(config.nativeBytes, 0)
    ensures var before, after := BytesAfter(config, world, n), BytesAfter(config, world, n + 1);
            match world.Fetch(n)
            case Textual(_, text) =>
              after == if Fit(before.total, Utf8Len(text))
                       then AssetBytes(before.total + Utf8Len(text), before.text + Utf8Len(text)) else before
            case Binary(_, _, bytes) =>
              after == if Fit(before.total, bytes) then AssetBytes(before.total + bytes, before.text) else before
            case _ => after == before
  {
  }

  /** The result of a call that is not refused: by its name, and the next answer of what that name reaches. */
  ghost predicate IsResultOf(config: Config, world: World, used: Use, call: Call, entry: Entry) {
    if call.name == "bash" then
      if call.arguments in world.scriptFaults then entry == Returned(call, config.badScriptFeedback, Refused)
      else IsScriptResult(call, world.Run(used.ran), entry)
    else if IsFetch(config.offer, call.name) then
      IsFetchResult(call, world.Fetch(used.fetched), BytesAfter(config, world, used.fetched).total, entry)
    else if IsBuiltIn(config.offer, call.name) then
      match world.Handle(used.handled)
      case Served(text, outcome) =>
        var viewed := call.name == "inspect_agent_config" || call.name == "wake_reason";
        entry == Returned(call, text, if viewed then Exit(0) else outcome)
      case Faulted(_) => false
    else
      entry == Returned(call, config.unknownToolFeedback, Refused)
  }

  lemma UnseenIsSaid(asset: nat)
    ensures TooLargeNotice(asset) == Unseen(asset)
  {
    hide Decimal;
  }

  lemma FetchTexts(call: Call, reply: FetchReply, shown: nat, entry: Entry)
    requires FetchAnswer(call, reply, shown) == Gives(entry)
    ensures IsFetchResult(call, reply, shown, entry)
  {
    hide Utf8Len, TooLargeNotice, Unseen;
    if reply.Textual? || reply.Binary? {
      UnseenIsSaid(reply.asset);
    }
  }

  lemma AnswerByName(config: Config, world: World, at: Point, call: Call, entry: Entry)
    requires AnswerTo(config, world, at, call) == Gives(entry)
    ensures IsResultOf(config, world, at.used, call, entry)
  {
    hide BytesAfter, HandlerFor, ScriptEntry, IsBuiltIn, IsFetch, IsScriptResult, FetchAnswer, IsFetchResult;
    NamesDecide(config.offer, call.name);
    if IsFetch(config.offer, call.name) {
      var total := BytesAfter(config, world, at.used.fetched).total;
      FetchTexts(call, world.Fetch(at.used.fetched), total, entry);
    }
    ScriptTexts(call, world.Run(at.used.ran));
  }

  /**
   * A result that fits: it answers the next call of a turn of at most ten. In a turn that asks for silence
   * it is the refusal; otherwise its call has an id, and it is what its tool's name leads to.
   */
  lemma ResultByName(config: Config, world: World, at: Point, entry: Entry)
    requires IsResult(entry) && Fits(config, world, at, entry)
    ensures at.turn.Some? && at.answered < |at.turn.value.calls| <= 10
    ensures var turn := at.turn.value;
            var call := turn.calls[at.answered];
            if Asks(config, turn) then entry == Returned(call, config.declineAfterWork, Refused)
            else !Blank(call.id) && IsResultOf(config, world, at.used, call, entry)
  {
    hide AnswerTo, IsResultOf, Blank;
    var call := at.turn.value.calls[at.answered];
    if !Declining(config, at.turn.value) {
      AnswerByName(config, world, at, call, entry);
    }
  }

  lemma ScriptTexts(call: Call, reply: ScriptReply)
    ensures IsScriptResult(call, reply, ScriptEntry(call, reply))
  {
    hide Decimal;
    if reply.output == "" {
      assert "" + "" + "[exit code: " == "[exit code: ";
    } else {
      Associative(reply.output, "\n", "[exit code: ");
      assert "\n" + "[exit code: " == "\n[exit code: ";
    }
  }

  // Errors.

  /** What is wrong where a session ends with this error. */
  ghost predicate Wrong(config: Config, world: World, at: Point, turn: Turn, error: PromptError)
    requires at.answered < |turn.calls|
  {
    var call := turn.calls[at.answered];
    match error
    case TooManyToolCalls(actual, maximum) => 10 < |turn.calls| == actual && maximum == 10
    case EmptyToolCallId =>
      if Asks(config, turn) then exists i :: 0 <= i < |turn.calls| && Blank(turn.calls[i].id) else Blank(call.id)
    case UnreportedCapabilityWork =>
      Asks(config, turn) && at.turns == config.maxSteps && HasToReport(config, world, at)
    case NoSuchTool(name) =>
      && name == call.name && name != "bash" && !IsBuiltIn(config.offer, name) && !IsFetch(config.offer, name)
      && RejectedBefore(at)
    case WakeReasonSerialization =>
      call.name == "wake_reason" && config.offer.wakeReason && world.Handle(at.used.handled) == Faulted(Unserializable)
    case BadArguments(tool, fault) =>
      if Asks(config, turn) then
        exists i :: 0 <= i < |turn.calls| && turn.calls[i].name == tool == "decline_chat_reply"
          && turn.calls[i].arguments in world.declineFaults && world.declineFaults[turn.calls[i].arguments] == fault
      else
        && tool == call.name
        && (|| (tool == "bash" && call.arguments in world.scriptFaults && world.scriptFaults[call.arguments] == fault
                && RejectedBefore(at))
            || (IsFetch(config.offer, tool) && world.Fetch(at.used.fetched) == Malformed(fault))
            || (IsBuiltIn(config.offer, tool) && world.Handle(at.used.handled) == Faulted(Fault(fault)))
            || (IsBuiltIn(config.offer, tool) && tool != "wake_reason" && fault == InvalidJson
                && world.Handle(at.used.handled) == Faulted(Unserializable)))
    case _ => false
  }

  /** The work done so far does not permit silence in this mode. */
  ghost predicate HasToReport(config: Config, world: World, at: Point) {
    var review, calls := world.ReviewAt(at.turns), world.UsedAfter(at.used.ran);
    match config.mode
    case Required => true
    case Optional => calls != 0
    case QuietReview => review.others != 0 || review.refreshes != calls
    case QuietDigest => false
  }

  /** A call of an earlier turn was rejected. */
  predicate RejectedBefore(at: Point) {
    at.used.rejectedIn.Some? && at.used.rejectedIn != Some(at.turns)
  }

  lemma DeclineErrors(config: Config, world: World, at: Point, turn: Turn, error: PromptError)
    requires at.answered < |turn.calls| && Declining(config, turn)
    requires DeclineAnswer(config, world, at, turn, turn.calls[at.answered]) == Fails(error)
    ensures Wrong(config, world, at, turn, error)
  {
    hide Blank, DeclineFault, IsBuiltIn, IsFetch;
    DeclineFaultMeans(world, turn.calls);
  }

  lemma AnswerErrors(config: Config, world: World, at: Point, turn: Turn, error: PromptError)
    requires at.answered < |turn.calls| && !Declining(config, turn)
    requires AnswerTo(config, world, at, turn.calls[at.answered]) == Fails(error)
    ensures Wrong(config, world, at, turn, error)
  {
    hide BytesAfter, HandlerFor, Utf8Len, Blank, ScriptText, FetchEntry, IsBuiltIn, IsFetch;
    NamesDecide(config.offer, turn.calls[at.answered].name);
  }

  lemma ErrorByName(config: Config, world: World, at: Point, error: PromptError)
    requires DueAt(config, world, at) == Fails(error)
    ensures at.turn.Some? && at.answered < |at.turn.value.calls| && Wrong(config, world, at, at.turn.value, error)
  {
    hide DeclineAnswer, AnswerTo, HasToReport, IsBuiltIn, IsFetch, Blank;
    var turn := at.turn.value;
    if |turn.calls| <= 10 {
      if Declining(config, turn) {
        DeclineErrors(config, world, at, turn, error);
      } else if !Blank(turn.calls[at.answered].id) {
        AnswerErrors(config, world, at, turn, error);
      }
    }
  }

  // Where a log stands.

  /** How many results a part of a log holds. */
  function ResultCount(log: seq<Entry>): nat {
    if log == [] then 0 else ResultCount(log[..|log| - 1]) + if IsResult(log[|log| - 1]) then 1 else 0
  }

  function TurnCount(log: seq<Entry>): nat {
    if log == [] then 0 else TurnCount(log[..|log| - 1]) + if log[|log| - 1].ModelTurn? then 1 else 0
  }

  /** This turn stands in the log, none follows it, and this many results do. */
  ghost predicate Answering(log: seq<Entry>, turn: Turn, answered: nat, j: nat) {
    && j < |log| && log[j] == ModelTurn(turn) && (forall i | j < i < |log| :: !log[i].ModelTurn?)
    && answered == ResultCount(log[j + 1..])
  }

  lemma AnsweringNext(log: seq<Entry>, turn: Turn, answered: nat, j: nat)
    requires log != [] && !log[|log| - 1].ModelTurn? && Answering(log[..|log| - 1], turn, answered, j)
    ensures Answering(log, turn, answered + if IsResult(log[|log| - 1]) then 1 else 0, j)
  {
    var n := |log| - 1;
    assert log[j + 1..][..n - j - 1] == log[..n][j + 1..];
    assert forall i | 0 <= i < n :: log[i] == log[..n][i];
  }

  /** The turn being answered is the last of the log, and what follows it are its results so far. */
  lemma {:induction false} PointMeans(config: Config, world: World, log: seq<Entry>)
    ensures var at := PointOf(config, world, log);
            && at.turns == TurnCount(log)
            && match at.turn
               case None => forall i | 0 <= i < |log| :: !log[i].ModelTurn?
               case Some(turn) => exists j: nat :: Answering(log, turn, at.answered, j)
  {
    hide UsedBy;
    if log != [] {
      var front, last := log[..|log| - 1], log[|log| - 1];
      PointMeans(config, world, front);
      var at := PointOf(config, world, front);
      if last.ModelTurn? {
        assert log[|front| + 1..] == [];
        assert Answering(log, last.turn, 0, |front|);
      } else if at.turn.Some? {
        var j: nat :| Answering(front, at.turn.value, at.answered, j);
        hide Answering;
        AnsweringNext(log, at.turn.value, at.answered, j);
      } else {
        assert forall i | 0 <= i < |front| :: log[i] == front[i];
      }
    }
  }
}
