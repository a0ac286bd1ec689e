/** What a captured record holds of each thing that happened. */
module Record {
  import opened Text
  import opened Conversation
  import opened Tools
  import opened Capture

  /** The reasoning blocks that are small enough to keep. */
  function Small(blocks: seq<seq<Byte>>): seq<seq<Byte>> {
    if blocks == [] then []
    else Small(blocks[..|blocks| - 1]) + if |blocks[|blocks| - 1]| <= 65536 then [blocks[|blocks| - 1]] else []
  }

  function Thoughts(model: string, blocks: seq<seq<Byte>>): seq<Item> {
    seq(|blocks|, i requires 0 <= i < |blocks| => Reasoned(model, blocks[i]))
  }

  lemma {:induction false} ReasoningIsSmall(key: string, blocks: seq<seq<Byte>>)
    ensures ReasoningItems(key, blocks) == Thoughts(key, Small(blocks))
  {
    if blocks != [] {
      ReasoningIsSmall(key, blocks[..|blocks| - 1]);
    }
  }

  /** The last model that a turn of the log reported, if one did. */
  ghost predicate LatestModel(log: seq<Entry>, key: string, model: string) {
    || (model == key && forall i | 0 <= i < |log| :: !Reports(log[i]))
    || exists i :: 0 <= i < |log| && Reports(log[i]) && log[i].turn.model == Some(model)
         && forall k | i < k < |log| :: !Reports(log[k])
  }

  predicate Reports(entry: Entry) {
    entry.ModelTurn? && entry.turn.model.Some?
  }

  lemma {:induction false} KeyIsLatest(log: seq<Entry>, key: string)
    ensures LatestModel(log, key, Key(log, key))
  {
    if log != [] {
      var front, last := log[..|log| - 1], log[|log| - 1];
      KeyIsLatest(front, key);
      assert forall i | 0 <= i < |front| :: front[i] == log[i];
      if Reports(last) {
        assert log[|front|].turn.model == Some(Key(log, key));
      } else if !(forall i | 0 <= i < |front| :: !Reports(front[i])) {
        var i :| 0 <= i < |front| && Reports(front[i]) && front[i].turn.model == Some(Key(front, key))
          && forall k | i < k < |front| :: !Reports(front[k]);
        assert Reports(log[i]) && forall k | i < k < |log| :: !Reports(log[k]);
      }
    }
  }

  /**
   * What one entry adds to the record. A turn leaves its small reasoning blocks under its model, then
   * its text, capped; what a person sent is kept as recorded, and a notice not at all; a call is kept with
   * its tool, all its arguments and its outcome, and with its result, capped, or a note where media was shown.
   */
  ghost predicate Adds(entry: Entry, model: string, cap: nat, items: seq<Item>) {
    match entry
    case PersonSteer(_, recorded) => items == [Steer(Keep(recorded, cap))]
    case NoticeSteer(_) => items == []
    case ModelTurn(turn) =>
      var thoughts := if turn.reasoning.Some? then Thoughts(model, Small(turn.reasoning.value)) else [];
      items == thoughts + if turn.content.Some? then [Said(Keep(turn.content.value, cap))] else []
    case Returned(call, text, outcome) =>
      items == [Exchange(call.id, ToolNamed(call.name, cap), Kept(call.arguments, Utf8Len(call.arguments)), outcome,
                         Keep(text, cap))]
    case Shown(call, asset, _) =>
      items == [Exchange(call.id, ToolNamed(call.name, cap), Kept(call.arguments, Utf8Len(call.arguments)), Exit(0),
                         Keep("chat-asset:" + Decimal(asset)
                         + " was shown when it was fetched and is not replayed; call fetch_chat_asset to see it again.",
                         cap))]
  }

  lemma {:induction false} ItemsPrefix(log: seq<Entry>, key: string, cap: nat, n: nat)
    requires n <= |log|
    ensures Items(log[..n], key, cap) <= Items(log, key, cap)
    decreases |log|
  {
    if n == |log| {
      assert log[..n] == log;
    } else {
      assert log[..|log| - 1][..n] == log[..n];
      ItemsPrefix(log[..|log| - 1], key, cap, n);
    }
  }

  /**
   * The record holds what every entry of the log adds to it, in order and nothing else: from `from` to `to` it
   * is what the i-th entry adds, under the model its turn or the last turn before it reported.
   */
  lemma RecordHolds(log: seq<Entry>, key: string, cap: nat, i: nat)
    requires i < |log|
    ensures var items, from, to := Items(log, key, cap), |Items(log[..i], key, cap)|, |Items(log[..i + 1], key, cap)|;
            && from <= to <= |items| && items[..from] == Items(log[..i], key, cap)
            && Adds(log[i], Key(log[..i + 1], key), cap, items[from..to])
            && LatestModel(log[..i + 1], key, Key(log[..i + 1], key))
            && (i + 1 == |log| ==> to == |items|)
            && (i == 0 ==> from == 0)
  {
    hide Keep, ToolNamed, Utf8Len, Decimal, LatestModel, Items;
    var before, entry, after := log[..i], log[i], log[..i + 1];
    TakeNext(log, i);
    WholeIsAll(log);
    Extend(before, entry, key, cap);
    ItemsPrefix(log, key, cap, i);
    ItemsPrefix(log, key, cap, i + 1);
    KeyIsLatest(after, key);
    NoItems(key, cap);
    MiddlePart(Items(log, key, cap), Items(before, key, cap), EntryItems(entry, Key(before, key), cap));
    if entry.ModelTurn? && entry.turn.reasoning.Some? {
      ReasoningIsSmall(Key(after, key), entry.turn.reasoning.value);
    }
  }

  lemma WholeIsAll(log: seq<Entry>)
    ensures log[..|log|] == log && log[..0] == []
  {
  }

  lemma NoItems(key: string, cap: nat)
    ensures Items([], key, cap) == []
  {
  }

  // What the model is sent of each thing that happened.

  /** The messages one entry adds to the conversation. */
  ghost predicate Sends(entry: Entry, messages: seq<Message>) {
    match entry
    case PersonSteer(prompt, _) => messages == [User(prompt)]
    case NoticeSteer(text) => messages == [User(text)]
    case ModelTurn(turn) => messages == [Message.Assistant(turn)]
    case Returned(call, text, _) => messages == [ToolResult(call.id, text)]
    case Shown(call, asset, mime) =>
      messages == [ToolResult(call.id, "chat-asset:" + Decimal(asset) + " follows in the next message."),
                   Media(asset, mime)]
  }

  /** The conversation holds what every entry of the log adds to it, in order and nothing else. */
  lemma ConversationHolds(log: seq<Entry>, i: nat)
    requires i < |log|
    ensures var messages, from, to := Messages(log), |Messages(log[..i])|, |Messages(log[..i + 1])|;
            && from <= to <= |messages| && messages[..from] == Messages(log[..i])
            && Sends(log[i], messages[from..to])
            && (i + 1 == |log| ==> to == |messages|)
            && (i == 0 ==> from == 0)
  {
    hide Decimal, Messages;
    TakeNext(log, i);
    WholeIsAll(log);
    Extend(log[..i], log[i], "", 0);
    MessagesPrefix(log, i);
    MessagesPrefix(log, i + 1);
    NoMessages();
    MiddlePart(Messages(log), Messages(log[..i]), EntryMessages(log[i]));
  }

  lemma NoMessages()
    ensures Messages([]) == []
  {
  }
}
