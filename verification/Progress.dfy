/** Errors and progress events of a prompt session. */
module Progress {

  datatype InferenceError = Interrupted | OverBudget | Broken(kind: string)

  /** What was wrong with the arguments of a call. */
  datatype ArgumentFault =
    | InvalidJson | NotObject | ConfigNotEmpty | WakeReasonNotEmpty | DeclineNotEmpty
    | MissingCommand | MissingAssetId | MissingSkillName | UnexpectedSkillArguments
    | InvalidSuggestion | InvalidWake

  datatype PromptError =
    | Cancelled
    | ZeroSteps
    | Model(cause: InferenceError)
    | NoSuchTool(name: string)
    | TooManyToolCalls(actual: nat, maximum: nat)
    | EmptyToolCallId
    | BadArguments(tool: string, fault: ArgumentFault)
    | WakeReasonSerialization
    | UnreportedCapabilityWork
    | EmptyAnswer
    | MaxSteps(maximum: nat)

  datatype FailureClass = StepBudget | ModelFault | Internal

  datatype Failure = NotAFailure | Class(kind: FailureClass)

  function ClassOf(error: PromptError): Failure {
    match error
    case Cancelled => NotAFailure
    case Model(Interrupted) => NotAFailure
    case Model(OverBudget) => NotAFailure
    case MaxSteps(_) => Class(StepBudget)
    case ZeroSteps => Class(Internal)
    case WakeReasonSerialization => Class(Internal)
    case _ => Class(ModelFault)
  }

  datatype CancelSource = ByUser | ByOperator | ByBudget

  datatype Event =
    | TurnStarted(turn: nat, of: nat)
    | Steered(turn: nat)
    | Answered(turn: nat, toolCalls: nat)
    | CancelledBy(who: CancelSource)
    | FailedWith(kind: FailureClass)
    | Finished(declined: bool, turns: nat, toolCalls: nat)

  /**
   * How many events announced a model call, a completed turn and a batch of steers, and whether each said
   * the right thing.
   */
  datatype Tally = Tally(started: nat, answered: nat, steered: nat, right: bool)

  /**
   * After this many answers the next call is the one after them, out of at most `most`; an answer tells
   * how many tool calls its turn made; and steers join the latest turn or the next.
   */
  predicate SaysRight(calls: seq<nat>, most: nat, answered: nat, event: Event) {
    match event
    case TurnStarted(turn, of) => turn == answered + 1 && of == most
    case Answered(turn, toolCalls) => turn == answered + 1 <= |calls| && toolCalls == calls[answered]
    case Steered(turn) => turn == answered || turn == answered + 1
    case _ => true
  }

  function Tallied(calls: seq<nat>, most: nat, events: seq<Event>): Tally {
    if events == [] then Tally(0, 0, 0, true)
    else
      var before, event := Tallied(calls, most, events[..|events| - 1]), events[|events| - 1];
      Tally(before.started + (if event.TurnStarted? then 1 else 0),
            before.answered + (if event.Answered? then 1 else 0),
            before.steered + (if event.Steered? then 1 else 0),
            before.right && SaysRight(calls, most, before.answered, event))
  }

  lemma TalliedNext(calls: seq<nat>, most: nat, events: seq<Event>, event: Event)
    ensures var before := Tallied(calls, most, events);
            Tallied(calls, most, events + [event]) ==
            Tally(before.started + (if event.TurnStarted? then 1 else 0),
                  before.answered + (if event.Answered? then 1 else 0),
                  before.steered + (if event.Steered? then 1 else 0),
                  before.right && SaysRight(calls, most, before.answered, event))
  {
    assert (events + [event])[..|events|] == events;
  }

  predicate IsTerminal(event: Event) {
    event.CancelledBy? || event.FailedWith? || event.Finished?
  }

  predicate NoneTerminal(events: seq<Event>) {
    forall i | 0 <= i < |events| :: !IsTerminal(events[i])
  }

  /** Exactly one event is terminal: the last, and it is this one. */
  predicate EndsWith(events: seq<Event>, end: Event) {
    && events != [] && IsTerminal(end)
    && events[|events| - 1] == end
    && NoneTerminal(events[..|events| - 1])
  }
}
