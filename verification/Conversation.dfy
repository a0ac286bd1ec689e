/** The messages of a prompt session and the shape every model request must have. */
module Conversation {
  import opened Text

  datatype Call = Call(id: string, name: string, arguments: string)

  /** One completed model turn; `reasoning` is None when its opaque reasoning could not be extracted. */
  datatype Turn = Turn(
    content: Option<string>,
    reasoning: Option<seq<seq<Byte>>>,
    model: Option<string>,
    calls: seq<Call>)

  datatype Message =
    | System(text: string)
    | User(text: string)
    | Media(asset: nat, mime: string)
    | Assistant(turn: Turn)
    | ToolResult(id: string, text: string)
    | Journal(replay: string)

  function CallIds(calls: seq<Call>): (ids: seq<string>)
    ensures |ids| == |calls|
    ensures forall i | 0 <= i < |calls| :: ids[i] == calls[i].id
  {
    seq(|calls|, i requires 0 <= i < |calls| => calls[i].id)
  }

  /**
   * The call ids still waiting for a tool result, in call order; None when the sequence is one no
   * provider accepts.
   */
  function Owed(messages: seq<Message>): Option<seq<string>> {
    if messages == [] then Some([])
    else
      var before := messages[..|messages| - 1];
      match Owed(before)
      case None => None
      case Some(ids) => OwedAfter(ids, before, messages[|messages| - 1])
  }

  function OwedAfter(ids: seq<string>, before: seq<Message>, message: Message): Option<seq<string>> {
    match message
    case Assistant(turn) => if ids == [] then Some(CallIds(turn.calls)) else None
    case ToolResult(id, _) => if ids != [] && ids[0] == id then Some(ids[1..]) else None
    case Media(_, _) =>
      if ids == [] || (before != [] && before[|before| - 1].ToolResult?) then Some(ids) else None
    case System(_) => if ids == [] then Some(ids) else None
    case User(_) => if ids == [] then Some(ids) else None
    case Journal(_) => if ids == [] then Some(ids) else None
  }

  lemma OwedAppend(messages: seq<Message>, message: Message)
    ensures Owed(messages + [message]) ==
            match Owed(messages)
            case None => None
            case Some(ids) => OwedAfter(ids, messages, message)
  {
    assert (messages + [message])[..|messages|] == messages;
  }

  lemma {:induction false} OwedPrefix(messages: seq<Message>, n: nat)
    requires n <= |messages| && Owed(messages).Some?
    ensures Owed(messages[..n]).Some?
    decreases |messages|
  {
    if n < |messages| {
      OwedPrefix(messages[..|messages| - 1], n);
      assert messages[..|messages| - 1][..n] == messages[..n];
    } else {
      assert messages[..n] == messages;
    }
  }

  lemma OwedStep(messages: seq<Message>, n: nat)
    requires n < |messages| && Owed(messages).Some?
    ensures Owed(messages[..n]).Some? && Owed(messages[..n + 1]).Some?
    ensures Owed(messages[..n + 1]) == OwedAfter(Owed(messages[..n]).value, messages[..n], messages[n])
  {
    OwedPrefix(messages, n);
    OwedPrefix(messages, n + 1);
    assert messages[..n + 1] == messages[..n] + [messages[n]];
    OwedAppend(messages[..n], messages[n]);
  }

  /** Well-formed conversations can be joined. */
  lemma {:induction false} OwedJoins(a: seq<Message>, b: seq<Message>)
    requires Owed(a) == Some([]) && Owed(b).Some?
    ensures Owed(a + b) == Owed(b)
  {
    if b == [] {
      assert a + b == a;
    } else {
      var front, last := b[..|b| - 1], b[|b| - 1];
      OwedJoins(a, front);
      assert a + b == (a + front) + [last];
      OwedAppend(a + front, last);
    }
  }

  /** The ids answered by the tool results among these messages. */
  function ResultIds(messages: seq<Message>): seq<string> {
    if messages == [] then []
    else
      ResultIds(messages[..|messages| - 1]) +
      match messages[|messages| - 1]
      case ToolResult(id, _) => [id]
      case _ => []
  }

  predicate NoAssistant(messages: seq<Message>) {
    forall k | 0 <= k < |messages| :: !messages[k].Assistant?
  }

  lemma NoAssistantBefore(before: seq<Message>, message: Message)
    requires NoAssistant(before + [message])
    ensures NoAssistant(before) && !message.Assistant?
  {
    assert (before + [message])[|before|] == message;
    assert forall k | 0 <= k < |before| :: before[k] == (before + [message])[k];
  }

  lemma ResultIdsNext(before: seq<Message>, message: Message)
    ensures ResultIds(before + [message]) == ResultIds(before) + if message.ToolResult? then [message.id] else []
  {
    assert (before + [message])[..|before|] == before;
  }

  /** A result moves one id from what is owed to what is answered; anything else moves none. */
  lemma ResultOrNot(
    between: seq<Message>, before: seq<Message>, message: Message, owed: seq<string>, calls: seq<string>)
    requires OwedAfter(owed, before, message).Some? && !message.Assistant?
    requires ResultIds(between) + owed == calls
    ensures ResultIds(between + [message]) + OwedAfter(owed, before, message).value == calls
  {
    ResultIdsNext(between, message);
    if message.ToolResult? {
      assert owed == [message.id] + owed[1..];
      Associative(ResultIds(between), [message.id], owed[1..]);
    }
  }

  /**
   * After the assistant message at `i`, as long as no other assistant message has come, the results
   * so far followed by the ids still owed are that message's calls, in order.
   */
  lemma {:induction false} ResultsThenOwed(messages: seq<Message>, i: nat, j: nat)
    requires i < j <= |messages| && messages[i].Assistant? && Owed(messages).Some?
    requires NoAssistant(messages[i + 1..j])
    ensures Owed(messages[..j]).Some?
    ensures ResultIds(messages[i + 1..j]) + Owed(messages[..j]).value == CallIds(messages[i].turn.calls)
    decreases j
  {
    hide Owed, OwedAfter, CallIds, ResultIds, NoAssistant;
    if j == i + 1 {
      TurnOwes(messages, i);
    } else {
      var before, message := messages[i + 1..j - 1], messages[j - 1];
      SliceNext(messages, i + 1, j);
      NoAssistantBefore(before, message);
      OwedStep(messages, j - 1);
      ResultsThenOwed(messages, i, j - 1);
      ResultOrNot(before, messages[..j - 1], message, Owed(messages[..j - 1]).value, CallIds(messages[i].turn.calls));
    }
  }

  /** Right after an assistant message all of its calls wait. */
  lemma TurnOwes(messages: seq<Message>, i: nat)
    requires i < |messages| && messages[i].Assistant? && Owed(messages).Some?
    ensures Owed(messages[..i + 1]) == Some(CallIds(messages[i].turn.calls))
    ensures ResultIds(messages[i + 1..i + 1]) + CallIds(messages[i].turn.calls) == CallIds(messages[i].turn.calls)
  {
    OwedStep(messages, i);
    assert messages[i + 1..i + 1] == [];
  }

  /**
   * With an assistant message at `i` and none up to `j`, the results in between are a prefix of its
   * calls, and all of them if at `j` the conversation moves on or ends.
   */
  ghost predicate AnsweredUpTo(messages: seq<Message>, i: nat, j: nat)
    requires i < j <= |messages| && messages[i].Assistant?
  {
    var results, calls := ResultIds(messages[i + 1..j]), CallIds(messages[i].turn.calls);
    && results <= calls
    && ((j == |messages| || !(messages[j].ToolResult? || messages[j].Media?)) ==> results == calls)
  }

  /**
   * What a provider checks, said of positions: the tool results between one assistant message and
   * the next (or the end) are exactly its calls, in call order, and every text, system or replayed
   * message in between comes after all of them.
   */
  ghost predicate CallsAnswered(messages: seq<Message>) {
    forall i: nat, j: nat | i < j <= |messages| && messages[i].Assistant? && NoAssistant(messages[i + 1..j]) ::
      AnsweredUpTo(messages, i, j)
  }

  /** Owing nothing at the end means every assistant message's calls were answered in order. */
  lemma OwedNothingMeansAnswered(messages: seq<Message>)
    requires Owed(messages) == Some([])
    ensures CallsAnswered(messages)
  {
    forall i: nat, j: nat | i < j <= |messages| && messages[i].Assistant? && NoAssistant(messages[i + 1..j])
      ensures AnsweredUpTo(messages, i, j)
    {
      ResultsThenOwed(messages, i, j);
      if j == |messages| {
        assert messages[..j] == messages;
      } else {
        OwedStep(messages, j);
      }
    }
  }

  /** The text of the latest tool result with this id. */
  function LatestResult(messages: seq<Message>, id: string): Option<string> {
    if messages == [] then None
    else
      match messages[|messages| - 1]
      case ToolResult(found, text) =>
        if found == id then Some(text) else LatestResult(messages[..|messages| - 1], id)
      case _ => LatestResult(messages[..|messages| - 1], id)
  }

  lemma LatestIsLast(messages: seq<Message>, id: string, text: string)
    ensures LatestResult(messages + [ToolResult(id, text)], id) == Some(text)
  {
  }

  predicate IsResultFor(message: Message, id: string) {
    message.ToolResult? && message.id == id
  }

  ghost predicate LatestAt(messages: seq<Message>, id: string, text: string, i: nat) {
    && i < |messages| && messages[i] == ToolResult(id, text)
    && forall k | i < k < |messages| :: !IsResultFor(messages[k], id)
  }

  /** The latest result with an id is one that no other with that id follows; without one there is none. */
  lemma {:induction false} LatestMeans(messages: seq<Message>, id: string)
    ensures LatestResult(messages, id).None? <==> forall i | 0 <= i < |messages| :: !IsResultFor(messages[i], id)
    ensures LatestResult(messages, id).Some? ==>
      exists i: nat :: LatestAt(messages, id, LatestResult(messages, id).value, i)
  {
    if messages != [] {
      var front, last := messages[..|messages| - 1], messages[|messages| - 1];
      LatestMeans(front, id);
      assert forall k | 0 <= k < |front| :: messages[k] == front[k];
      if IsResultFor(last, id) {
        assert LatestResult(messages, id) == Some(last.text) && LatestAt(messages, id, last.text, |front|);
      } else if LatestResult(front, id).Some? {
        var text := LatestResult(front, id).value;
        var i: nat :| LatestAt(front, id, text, i);
        assert LatestAt(messages, id, text, i);
      }
    }
  }
}
