/**
 * The captured record of a session, and the log of which both the message list and the record are
 * projections.
 */
module Capture {
  import opened Text
  import opened Conversation
  import opened Tools

  const MAX_OPAQUE_BYTES: nat := 64 * 1024

  datatype Outcome = Exit(code: nat) | Refused | Failed

  datatype Item =
    | Asked(user: Kept)
    | Steer(recorded: Kept)
    | Said(text: Kept)
    | Reasoned(model: string, bytes: seq<Byte>)
    | Exchange(id: string, tool: Tool, arguments: Kept, outcome: Outcome, result: Kept)

  function ExchangeOf(call: Call, text: string, outcome: Outcome, cap: nat): Item {
    Exchange(call.id, ToolNamed(call.name, cap), Kept(call.arguments, Utf8Len(call.arguments)),
             outcome, Keep(text, cap))
  }

  /** The model key in force once this turn has been captured. */
  function KeyAfter(key: string, turn: Turn): string {
    match turn.model
    case Some(reported) => reported
    case None => key
  }

  function ReasoningItems(key: string, blocks: seq<seq<Byte>>): seq<Item> {
    if blocks == [] then []
    else
      var last := blocks[|blocks| - 1];
      ReasoningItems(key, blocks[..|blocks| - 1]) +
      if |last| <= MAX_OPAQUE_BYTES then [Reasoned(key, last)] else []
  }

  function TurnItems(key: string, turn: Turn, cap: nat): seq<Item> {
    (match turn.reasoning
     case Some(blocks) => ReasoningItems(KeyAfter(key, turn), blocks)
     case None => []) +
    match turn.content
    case Some(text) => [Said(Keep(text, cap))]
    case None => []
  }

  class RecordBuilder {
    var items: seq<Item>
    var key: string
    const cap: nat

    constructor (user: string, key: string, cap: nat)
      ensures items == [Asked(Keep(user, cap))] && this.key == key && this.cap == cap
    {
      items := [Asked(Keep(user, cap))];
      this.key := key;
      this.cap := cap;
    }

    method Steered(recorded: string)
      modifies this
      ensures items == old(items) + [Steer(Keep(recorded, cap))] && key == old(key)
    {
      items := items + [Steer(Keep(recorded, cap))];
    }

    method Assistant(turn: Turn)
      modifies this
      ensures key == KeyAfter(old(key), turn)
      ensures items == old(items) + TurnItems(old(key), turn, cap)
    {
      if turn.model.Some? {
        key := turn.model.value;
      }
      if turn.reasoning.Some? {
        var blocks := turn.reasoning.value;
        for i := 0 to |blocks|
          invariant key == KeyAfter(old(key), turn)
          invariant items == old(items) + ReasoningItems(key, blocks[..i])
        {
          assert blocks[..i + 1][..i] == blocks[..i];
          if |blocks[i]| <= MAX_OPAQUE_BYTES {
            items := items + [Reasoned(key, blocks[i])];
          }
        }
        assert blocks[..|blocks|] == blocks;
      }
      if turn.content.Some? {
        items := items + [Said(Keep(turn.content.value, cap))];
      }
    }

    method Exchanged(call: Call, text: string, outcome: Outcome)
      modifies this
      ensures items == old(items) + [ExchangeOf(call, text, outcome, cap)] && key == old(key)
    {
      items := items + [ExchangeOf(call, text, outcome, cap)];
    }

    /** Records the latest tool result that answers this call, if there is one. */
    method Answered(call: Call, messages: seq<Message>, outcome: Outcome)
      modifies this
      ensures key == old(key)
      ensures items == old(items) +
              match LatestResult(messages, call.id)
              case Some(text) => [ExchangeOf(call, text, outcome, cap)]
              case None => []
    {
      var n := |messages|;
      assert messages[..n] == messages;
      while 0 < n
        invariant 0 <= n <= |messages|
        invariant LatestResult(messages, call.id) == LatestResult(messages[..n], call.id)
        invariant items == old(items) && key == old(key)
      {
        assert messages[..n][..n - 1] == messages[..n - 1];
        if messages[n - 1].ToolResult? && messages[n - 1].id == call.id {
          Exchanged(call, messages[n - 1].text, outcome);
          return;
        }
        n := n - 1;
      }
    }
  }

  /** One thing that joined the conversation after its opening. */
  datatype Entry =
    | PersonSteer(prompt: string, recorded: string)
    | NoticeSteer(text: string)
    | ModelTurn(turn: Turn)
    | Returned(call: Call, text: string, outcome: Outcome)
    | Shown(call: Call, asset: nat, mime: string)

  function ShownText(asset: nat): string {
    "chat-asset:" + Decimal(asset) + " follows in the next message."
  }

  function RefetchNote(asset: nat): string {
    "chat-asset:" + Decimal(asset)
    + " was shown when it was fetched and is not replayed; call fetch_chat_asset to see it again."
  }

  function EntryMessages(entry: Entry): seq<Message> {
    match entry
    case PersonSteer(prompt, _) => [User(prompt)]
    case NoticeSteer(text) => [User(text)]
    case ModelTurn(turn) => [Message.Assistant(turn)]
    case Returned(call, text, _) => [ToolResult(call.id, text)]
    case Shown(call, asset, mime) => [ToolResult(call.id, ShownText(asset)), Media(asset, mime)]
  }

  function EntryItems(entry: Entry, key: string, cap: nat): seq<Item> {
    match entry
    case PersonSteer(_, recorded) => [Steer(Keep(recorded, cap))]
    case NoticeSteer(_) => []
    case ModelTurn(turn) => TurnItems(key, turn, cap)
    case Returned(call, text, outcome) => [ExchangeOf(call, text, outcome, cap)]
    case Shown(call, asset, _) => [ExchangeOf(call, RefetchNote(asset), Exit(0), cap)]
  }

  /** The messages a log stands for. */
  function Messages(log: seq<Entry>): seq<Message> {
    if log == [] then [] else Messages(log[..|log| - 1]) + EntryMessages(log[|log| - 1])
  }

  function Key(log: seq<Entry>, key: string): string {
    if log == [] then key
    else
      var before := Key(log[..|log| - 1], key);
      match log[|log| - 1]
      case ModelTurn(turn) => KeyAfter(before, turn)
      case _ => before
  }

  /** The record items a log stands for. */
  function Items(log: seq<Entry>, key: string, cap: nat): seq<Item> {
    if log == [] then []
    else
      Items(log[..|log| - 1], key, cap)
      + EntryItems(log[|log| - 1], Key(log[..|log| - 1], key), cap)
  }

  lemma Extend(log: seq<Entry>, entry: Entry, key: string, cap: nat)
    ensures Messages(log + [entry]) == Messages(log) + EntryMessages(entry)
    ensures Items(log + [entry], key, cap) == Items(log, key, cap) + EntryItems(entry, Key(log, key), cap)
    ensures Key(log + [entry], key) ==
            if entry.ModelTurn? then KeyAfter(Key(log, key), entry.turn) else Key(log, key)
  {
    assert (log + [entry])[..|log|] == log;
  }

  /** The messages of a part of the log start the messages of all of it. */
  lemma {:induction false} MessagesPrefix(log: seq<Entry>, n: nat)
    requires n <= |log|
    ensures Messages(log[..n]) <= Messages(log)
    decreases |log|
  {
    if n == |log| {
      assert log[..n] == log;
    } else {
      assert log[..|log| - 1][..n] == log[..n];
      MessagesPrefix(log[..|log| - 1], n);
    }
  }

  /** Ids and texts of the tool results among these messages. */
  function Results(messages: seq<Message>): seq<(string, string)> {
    if messages == [] then []
    else
      Results(messages[..|messages| - 1]) +
      match messages[|messages| - 1]
      case ToolResult(id, text) => [(id, text)]
      case _ => []
  }

  function Exchanges(items: seq<Item>): seq<(string, Kept)> {
    if items == [] then []
    else
      Exchanges(items[..|items| - 1]) +
      match items[|items| - 1]
      case Exchange(id, _, _, _, result) => [(id, result)]
      case _ => []
  }

  lemma {:induction false} ResultsConcat(a: seq<Message>, b: seq<Message>)
    ensures Results(a + b) == Results(a) + Results(b)
  {
    if b == [] {
      assert a + b == a;
    } else {
      assert (a + b)[..|a + b| - 1] == a + b[..|b| - 1];
      ResultsConcat(a, b[..|b| - 1]);
    }
  }

  lemma {:induction false} ExchangesConcat(a: seq<Item>, b: seq<Item>)
    ensures Exchanges(a + b) == Exchanges(a) + Exchanges(b)
  {
    if b == [] {
      assert a + b == a;
    } else {
      assert (a + b)[..|a + b| - 1] == a + b[..|b| - 1];
      ExchangesConcat(a, b[..|b| - 1]);
    }
  }

  lemma {:induction false} TurnHasNoExchange(key: string, turn: Turn, cap: nat)
    ensures Exchanges(TurnItems(key, turn, cap)) == []
  {
    if turn.reasoning.Some? {
      ReasoningHasNoExchange(KeyAfter(key, turn), turn.reasoning.value);
    }
    var said := if turn.content.Some? then [Said(Keep(turn.content.value, cap))] else [];
    var thought := if turn.reasoning.Some? then ReasoningItems(KeyAfter(key, turn), turn.reasoning.value) else [];
    ExchangesConcat(thought, said);
  }

  lemma {:induction false} ReasoningHasNoExchange(key: string, blocks: seq<seq<Byte>>)
    ensures Exchanges(ReasoningItems(key, blocks)) == []
  {
    if blocks != [] {
      ReasoningHasNoExchange(key, blocks[..|blocks| - 1]);
      var last := blocks[|blocks| - 1];
      ExchangesConcat(ReasoningItems(key, blocks[..|blocks| - 1]),
                      if |last| <= MAX_OPAQUE_BYTES then [Reasoned(key, last)] else []);
    }
  }

  /** An exchange mirrors a tool result: same id, and its text capped or a note to fetch it again. */
  ghost predicate Mirrors(exchange: (string, Kept), result: (string, string), cap: nat) {
    && exchange.0 == result.0
    && (exchange.1 == Keep(result.1, cap) ||
        exists asset: nat :: result.1 == ShownText(asset) && exchange.1 == Keep(RefetchNote(asset), cap))
  }

  ghost predicate AllMirror(exchanges: seq<(string, Kept)>, results: seq<(string, string)>, cap: nat) {
    && |exchanges| == |results|
    && forall k | 0 <= k < |results| :: Mirrors(exchanges[k], results[k], cap)
  }

  lemma EntryMirrors(entry: Entry, key: string, cap: nat)
    ensures AllMirror(Exchanges(EntryItems(entry, key, cap)), Results(EntryMessages(entry)), cap)
  {
    assert Exchanges([]) == [];
    hide Results, Exchanges, Keep, ShownText, RefetchNote, TurnItems, ToolNamed, Utf8Len;
    match entry {
      case ModelTurn(turn) =>
        TurnHasNoExchange(key, turn, cap);
        ResultsNext([], Message.Assistant(turn));
      case PersonSteer(prompt, recorded) =>
        ResultsNext([], User(prompt));
        ExchangesNext([], Steer(Keep(recorded, cap)));
      case NoticeSteer(text) =>
        ResultsNext([], User(text));
      case Returned(call, text, outcome) =>
        ReturnedMirrors(call, text, outcome, cap);
      case Shown(call, asset, mime) =>
        ShownMirrors(call, asset, mime, cap);
    }
  }

  lemma ReturnedMirrors(call: Call, text: string, outcome: Outcome, cap: nat)
    ensures AllMirror(Exchanges([ExchangeOf(call, text, outcome, cap)]), Results([ToolResult(call.id, text)]), cap)
  {
    hide Results, Exchanges, Keep, ToolNamed, Utf8Len, ShownText, RefetchNote;
    ResultsNext([], ToolResult(call.id, text));
    ExchangesNext([], ExchangeOf(call, text, outcome, cap));
  }

  lemma ShownMirrors(call: Call, asset: nat, mime: string, cap: nat)
    ensures AllMirror(Exchanges([ExchangeOf(call, RefetchNote(asset), Exit(0), cap)]),
                      Results([ToolResult(call.id, ShownText(asset)), Media(asset, mime)]), cap)
  {
    hide Results, Exchanges, Keep, ToolNamed, Utf8Len, ShownText, RefetchNote;
    var result := ToolResult(call.id, ShownText(asset));
    ResultsNext([], result);
    ResultsNext([result], Media(asset, mime));
    assert [result] + [Media(asset, mime)] == [result, Media(asset, mime)];
    ExchangesNext([], ExchangeOf(call, RefetchNote(asset), Exit(0), cap));
  }

  lemma ResultsNext(messages: seq<Message>, message: Message)
    ensures Results(messages + [message]) ==
            Results(messages) + if message.ToolResult? then [(message.id, message.text)] else []
    ensures Results([]) == [] && [] + [message] == [message]
  {
    assert (messages + [message])[..|messages|] == messages;
  }

  lemma ExchangesNext(items: seq<Item>, item: Item)
    ensures Exchanges(items + [item]) ==
            Exchanges(items) + if item.Exchange? then [(item.id, item.result)] else []
    ensures Exchanges([]) == [] && [] + [item] == [item]
  {
    assert (items + [item])[..|items|] == items;
  }

  /**
   * Message list and record agree on every tool call: the record holds one exchange per tool result,
   * in the same order, under the same id.
   */
  lemma {:induction false} ExchangesMirrorResults(log: seq<Entry>, key: string, cap: nat)
    ensures AllMirror(Exchanges(Items(log, key, cap)), Results(Messages(log)), cap)
  {
    if log != [] {
      var front, last := log[..|log| - 1], log[|log| - 1];
      ExchangesMirrorResults(front, key, cap);
      EntryMirrors(last, Key(front, key), cap);
      ResultsConcat(Messages(front), EntryMessages(last));
      ExchangesConcat(Items(front, key, cap), EntryItems(last, Key(front, key), cap));
    }
  }
}
