/** The audit transcript of the prompts sent to a model, logged in full or as an extension. */
module Audit {
  import opened Conversation

  /** One logged prompt; `definitions` says whether the tool definitions were logged with it. */
  datatype AuditEntry = AuditEntry(full: bool, messages: seq<Message>, definitions: bool)

  /** What is logged for `prepared` when `transcribed` is what the log already holds. */
  function EntryFor(transcribed: seq<Message>, prepared: seq<Message>): AuditEntry {
    var start := if transcribed <= prepared then |transcribed| else 0;
    AuditEntry(start == 0, prepared[start..], start == 0)
  }

  /**
   * A prompt that extends a transcript that holds something is logged as its new messages; any other is
   * logged whole, with the tool definitions.
   */
  lemma EntryIsLean(transcribed: seq<Message>, prepared: seq<Message>)
    ensures var entry := EntryFor(transcribed, prepared);
            if transcribed != [] && transcribed <= prepared then
              !entry.full && !entry.definitions && prepared == transcribed + entry.messages
            else
              entry.full && entry.definitions && entry.messages == prepared
  {
  }

  /** A reader of the log: a full entry replaces what it knows, any other extends it. */
  function Read(log: seq<AuditEntry>): seq<Message> {
    if log == [] then []
    else
      var last := log[|log| - 1];
      if last.full then last.messages else Read(log[..|log| - 1]) + last.messages
  }

  /**
   * After each of the calls the reader holds exactly what that call was sent, and the definitions
   * come exactly with the full entries. `transcribed` is empty or the latest of the prompts.
   */
  ghost predicate Reconstructs(log: seq<AuditEntry>, prompts: seq<seq<Message>>, transcribed: seq<Message>) {
    && |log| == |prompts|
    && (forall k | 0 <= k < |log| :: Read(log[..k + 1]) == prompts[k])
    && (forall k | 0 <= k < |log| :: log[k].definitions <==> log[k].full)
    && (transcribed == [] || (prompts != [] && transcribed == prompts[|prompts| - 1]))
  }

  lemma ReadNext(log: seq<AuditEntry>, entry: AuditEntry)
    ensures Read(log + [entry]) == if entry.full then entry.messages else Read(log) + entry.messages
  {
    assert (log + [entry])[..|log|] == log;
  }

  /** Logging one more prompt keeps the reader exact, whatever preparation did to earlier messages. */
  lemma LogPrompt(log: seq<AuditEntry>, prompts: seq<seq<Message>>, transcribed: seq<Message>, prepared: seq<Message>)
    requires Reconstructs(log, prompts, transcribed)
    ensures Reconstructs(log + [EntryFor(transcribed, prepared)], prompts + [prepared], prepared)
  {
    var entry := EntryFor(transcribed, prepared);
    var log' := log + [entry];
    ReadNext(log, entry);
    assert log'[..|log'|] == log' && log[..|log|] == log;
    hide Read;
    forall k | 0 <= k < |log'|
      ensures Read(log'[..k + 1]) == (prompts + [prepared])[k]
    {
      if k < |log| {
        assert log'[..k + 1] == log[..k + 1];
      } else if !entry.full {
        assert prepared == transcribed + prepared[|transcribed|..];
      }
    }
  }
}
