/** What a prompt session is given, and everything outside it that answers it. */
module Environment {
  import opened Text
  import opened Conversation
  import opened Capture
  import opened Tools
  import opened Progress

  const MAX_SHOWN_BYTES: nat := 40 * 1024 * 1024
  const U32_MAX: nat := 0xFFFF_FFFF

  datatype ReplyMode = Required | Optional | QuietReview | QuietDigest {
    /** Whether the decline tool is offered at all. */
    predicate Offered() {
      !Required?
    }
  }

  /** What the capability calls of a review did so far. */
  datatype Review = Review(refreshes: nat, others: nat)

  predicate PermitsDecline(mode: ReplyMode, review: Review, invocations: nat) {
    match mode
    case Required => invocations == 0
    case Optional => invocations == 0
    case QuietReview => review.others == 0 && review.refreshes == invocations
    case QuietDigest => true
  }

  datatype Config = Config(
    maxSteps: nat,
    mode: ReplyMode,
    offer: Offer,
    listening: bool,
    nativeBytes: nat,
    unknownToolFeedback: string,
    badScriptFeedback: string,
    declineAfterWork: string)

  datatype Completion = Completed(turn: Turn) | Aborted | OverMeter | Fell(kind: string)

  /** A built-in tool's answer: one tool result, or arguments it cannot take. */
  datatype HandlerReply = Served(text: string, outcome: Outcome) | Faulted(error: HandlerError)

  datatype HandlerError = Fault(fault: ArgumentFault) | Unserializable

  /** Only the wake-reason view writes its own answer out, so only there can writing it fail. */
  function HandlerFailure(error: HandlerError, handler: Handler, name: string): PromptError {
    match error
    case Fault(fault) => BadArguments(name, fault)
    case Unserializable => if handler.WakeReasonView? then WakeReasonSerialization else BadArguments(name, InvalidJson)
  }

  datatype FetchReply =
    | Malformed(fault: ArgumentFault)
    | Unavailable(reason: string)
    | Unreadable(error: string)
    | Textual(asset: nat, text: string)
    | Binary(asset: nat, mime: string, bytes: nat)

  /** A script's output and exit code, and the capability calls used once it has ended. */
  datatype ScriptReply = ScriptReply(output: string, exit: nat, used: nat)

  /**
   * Every answer the session can get: the n-th of each kind, and for arguments the faults found in
   * them. Every finite run of a session is a run against some world.
   */
  datatype World = World(
    completions: seq<Completion>,
    prepared: seq<seq<Message>>,
    cancelled: seq<bool>,
    cancelSource: CancelSource,
    handled: seq<HandlerReply>,
    fetched: seq<FetchReply>,
    scriptFaults: map<string, ArgumentFault>,
    declineFaults: map<string, ArgumentFault>,
    scripts: seq<ScriptReply>,
    reviews: seq<Review>,
    queued: seq<bool>)
  {
    function Complete(n: nat): Completion { Nth(completions, n, Fell("unavailable")) }

    /** What request preparation and trace redaction make of the n-th request. */
    function Prepare(n: nat, messages: seq<Message>): seq<Message> { Nth(prepared, n, messages) }

    predicate Cancelled(n: nat) { Nth(cancelled, n, false) }

    function Handle(n: nat): HandlerReply { Nth(handled, n, Faulted(Fault(InvalidJson))) }

    function Fetch(n: nat): FetchReply { Nth(fetched, n, Malformed(InvalidJson)) }

    function Run(n: nat): ScriptReply { Nth(scripts, n, ScriptReply("", 0, UsedAfter(|scripts|))) }

    /** The capability calls used once the first `n` scripts have ended. */
    function UsedAfter(n: nat): nat {
      if n == 0 || scripts == [] then 0
      else if n <= |scripts| then scripts[n - 1].used
      else scripts[|scripts| - 1].used
    }

    function ReviewAt(turn: nat): Review { Nth(reviews, turn, Review(0, 0)) }

    predicate QueuedAt(turn: nat) { Nth(queued, turn, false) }
  }

  function SaturatingAdd(a: nat, b: nat): nat {
    if a + b <= U32_MAX then a + b else U32_MAX
  }

  lemma Saturates(a: nat, b: nat)
    ensures SaturatingAdd(a, b) <= 4294967295 && SaturatingAdd(a, b) <= a + b
    ensures a + b <= 4294967295 ==> SaturatingAdd(a, b) == a + b
    ensures 4294967295 <= a + b ==> SaturatingAdd(a, b) == 4294967295
  {
  }

  /** How many of the first `n` model calls completed. */
  function CompletedCalls(world: World, n: nat): nat {
    if n == 0 then 0 else CompletedCalls(world, n - 1) + if world.Complete(n - 1).Completed? then 1 else 0
  }

  /** The environment gives each of its answers in its turn, and counts the calls that the scripts so far have used. */
  lemma AnswersInTurn(world: World, n: nat, messages: seq<Message>)
    ensures n < |world.completions| ==> world.Complete(n) == world.completions[n]
    ensures world.Prepare(n, messages) == if n < |world.prepared| then world.prepared[n] else messages
    ensures world.Cancelled(n) <==> n < |world.cancelled| && world.cancelled[n]
    ensures n < |world.handled| ==> world.Handle(n) == world.handled[n]
    ensures n < |world.fetched| ==> world.Fetch(n) == world.fetched[n]
    ensures n < |world.scripts| ==> world.Run(n) == world.scripts[n]
    ensures world.UsedAfter(0) == 0 && world.UsedAfter(n + 1) == world.Run(n).used
    ensures n < |world.reviews| ==> world.ReviewAt(n) == world.reviews[n]
    ensures world.QueuedAt(n) <==> n < |world.queued| && world.queued[n]
  {
  }

  lemma RunCounts(world: World, n: nat)
    ensures world.UsedAfter(n + 1) == world.Run(n).used
  {
  }

  /** What the model said: the turns of the first `n` model calls that completed. */
  function TurnsOf(world: World, n: nat): seq<Turn> {
    if n == 0 then []
    else
      match world.Complete(n - 1)
      case Completed(turn) => TurnsOf(world, n - 1) + [turn]
      case _ => TurnsOf(world, n - 1)
  }

  /** Everything the model has to say, and how many tool calls each turn makes. */
  function AllTurns(world: World): seq<Turn> {
    TurnsOf(world, |world.completions|)
  }

  function CallCounts(world: World): seq<nat> {
    var turns := AllTurns(world);
    seq(|turns|, i requires 0 <= i < |turns| => SaturatingAdd(0, |turns[i].calls|))
  }

  lemma {:induction false} TurnsGrow(world: World, m: nat, n: nat)
    requires m <= n
    ensures TurnsOf(world, m) <= TurnsOf(world, n)
    ensures |TurnsOf(world, n)| == CompletedCalls(world, n)
    decreases n
  {
    if m < n {
      TurnsGrow(world, m, n - 1);
    } else if 0 < n {
      TurnsGrow(world, n - 1, n - 1);
    }
  }

  /** The turn of a completed call has its place among all turns. */
  lemma TurnHasPlace(world: World, n: nat, turn: Turn)
    requires 0 < n && world.Complete(n - 1) == Completed(turn)
    ensures var k := CompletedCalls(world, n) - 1;
            0 <= k < |CallCounts(world)| && CallCounts(world)[k] == SaturatingAdd(0, |turn.calls|)
  {
    TurnsGrow(world, n, |world.completions|);
    TurnsGrow(world, n, n);
    assert TurnsOf(world, n)[CompletedCalls(world, n) - 1] == turn;
  }

  /** Every prompt sent is what preparation made of its request. */
  ghost predicate AllPrepared(world: World, requests: seq<seq<Message>>, prompts: seq<seq<Message>>) {
    && |requests| == |prompts|
    && forall i | 0 <= i < |requests| :: prompts[i] == world.Prepare(i, requests[i])
  }

  /** None of the first `n` looks for a stop found one. */
  ghost predicate Unstopped(world: World, n: nat) {
    forall i: nat | i < n :: !world.Cancelled(i)
  }

  /** The tool calls of the turns that the first `n` model calls completed. */
  function CallsMade(world: World, n: nat): nat {
    if n == 0 then 0
    else
      match world.Complete(n - 1)
      case Completed(turn) => SaturatingAdd(CallsMade(world, n - 1), SaturatingAdd(0, |turn.calls|))
      case _ => CallsMade(world, n - 1)
  }

  /** How many of the turns that the first `n` model calls completed made no tool call. */
  function CalllessTurns(world: World, n: nat): nat {
    if n == 0 then 0
    else
      match world.Complete(n - 1)
      case Completed(turn) => CalllessTurns(world, n - 1) + if turn.calls == [] then 1 else 0
      case _ => CalllessTurns(world, n - 1)
  }

  /** A script's result as the model sees it. */
  function ScriptText(reply: ScriptReply): string {
    reply.output + (if reply.output == [] then [] else "\n") + "[exit code: " + Decimal(reply.exit) + "]"
  }

  /** Asset bytes shown so far, all and textual. */
  datatype AssetBytes = AssetBytes(total: nat, text: nat)

  function Room(total: nat): nat {
    if MAX_SHOWN_BYTES <= total then 0 else MAX_SHOWN_BYTES - total
  }

  function TooLargeNotice(asset: nat): string {
    "chat-asset:" + Decimal(asset) + " will not be shown: the model request would exceed the 40 MiB decoded"
    + " asset limit. Say that chat-asset:" + Decimal(asset) + " went unseen."
  }

  /** How many bytes showing this asset takes, and None when it is not shown. */
  function ShownBytes(reply: FetchReply, total: nat): Option<nat> {
    match reply
    case Textual(_, text) => if Utf8Len(text) <= Room(total) then Some(Utf8Len(text)) else None
    case Binary(_, _, bytes) => if bytes <= Room(total) then Some(bytes) else None
    case _ => None
  }

  /** The running totals once this fetch has been answered. */
  function Charged(reply: FetchReply, bytes: AssetBytes): (charged: AssetBytes)
    ensures charged.text - bytes.text <= charged.total - bytes.total
    ensures charged == bytes || bytes.total <= charged.total <= MAX_SHOWN_BYTES
  {
    match ShownBytes(reply, bytes.total)
    case None => bytes
    case Some(shown) => AssetBytes(bytes.total + shown, bytes.text + if reply.Textual? then shown else 0)
  }

  /** The entry a fetch adds to the conversation when `total` bytes have been shown before it. */
  function FetchEntry(call: Call, reply: FetchReply, total: nat): Entry
    requires !reply.Malformed?
  {
    match reply
    case Unavailable(reason) => Returned(call, reason, Refused)
    case Unreadable(error) => Returned(call, error, Failed)
    case Textual(asset, text) =>
      if ShownBytes(reply, total).Some? then Returned(call, text, Exit(0))
      else Returned(call, TooLargeNotice(asset), Refused)
    case Binary(asset, mime, _) =>
      if ShownBytes(reply, total).Some? then Shown(call, asset, mime)
      else Returned(call, TooLargeNotice(asset), Refused)
  }

  lemma FetchEntryKinds(call: Call, reply: FetchReply, total: nat)
    requires !reply.Malformed?
    ensures var entry := FetchEntry(call, reply, total);
            && (entry.Returned? || entry.Shown?)
            && entry.call == call
            && (entry.Shown? ==> reply.Binary? && entry.asset == reply.asset)
  {
  }
}
