/** The model tools of a session: which handler a call reaches and how the record names it. */
module Tools {
  import opened Text

  const SCRIPT := "bash"
  const AGENT_CONFIG := "inspect_agent_config"
  const WAKE_REASON := "wake_reason"
  const FETCH_ASSET := "fetch_chat_asset"
  const DECLINE_REPLY := "decline_chat_reply"
  const READ_SKILL := "read_skill"
  const IMPROVEMENT := "suggest_improvement"
  const WAKE := "wake"
  const READ_MEMORY := "read_memory_record"
  const SET_PIN := "set_memory_pin"
  const CLEAR_PIN := "clear_memory_pin"

  const MAX_CALLS_PER_TURN: nat := 10

  /** The optional tools this session was given. */
  datatype Offer = Offer(
    agentConfig: bool, wakeReason: bool, skills: bool, memory: bool, wakes: bool, assets: bool)

  datatype Handler =
    | ConfigView | WakeReasonView | SkillReader | Suggestions | MemoryTool | WakeTool
    | AssetFetch | UnknownTool | ScriptRunner

  /** The first handler, in the loop's order, that claims a call of this name. */
  function HandlerFor(offer: Offer, name: string): Handler {
    if name == AGENT_CONFIG && offer.agentConfig then ConfigView
    else if name == WAKE_REASON && offer.wakeReason then WakeReasonView
    else if name == READ_SKILL && offer.skills then SkillReader
    else if name == IMPROVEMENT then Suggestions
    else if offer.memory && name in {READ_MEMORY, SET_PIN, CLEAR_PIN} then MemoryTool
    else if name == WAKE && offer.wakes then WakeTool
    else if name == FETCH_ASSET && offer.assets then AssetFetch
    else if name != SCRIPT then UnknownTool
    else ScriptRunner
  }

  lemma NameLengths()
    ensures |AGENT_CONFIG| == 20 && |WAKE_REASON| == 11 && |READ_SKILL| == 10 && |IMPROVEMENT| == 19
    ensures |READ_MEMORY| == 18 && |SET_PIN| == 14 && |CLEAR_PIN| == 16 && |FETCH_ASSET| == 16
    ensures |WAKE| == 4 && |SCRIPT| == 4 && WAKE[0] != SCRIPT[0] && CLEAR_PIN[0] != FETCH_ASSET[0]
  {
  }

  /** Each tool is reached by its own name, if it was offered, and every other name is unknown. */
  lemma HandlerByName(offer: Offer, name: string)
    ensures HandlerFor(offer, name) == ConfigView <==> name == "inspect_agent_config" && offer.agentConfig
    ensures HandlerFor(offer, name) == WakeReasonView <==> name == "wake_reason" && offer.wakeReason
    ensures HandlerFor(offer, name) == SkillReader <==> name == "read_skill" && offer.skills
    ensures HandlerFor(offer, name) == Suggestions <==> name == "suggest_improvement"
    ensures HandlerFor(offer, name) == MemoryTool <==>
      (name == "read_memory_record" || name == "set_memory_pin" || name == "clear_memory_pin") && offer.memory
    ensures HandlerFor(offer, name) == WakeTool <==> name == "wake" && offer.wakes
    ensures HandlerFor(offer, name) == AssetFetch <==> name == "fetch_chat_asset" && offer.assets
    ensures HandlerFor(offer, name) == ScriptRunner <==> name == "bash"
  {
    NameLengths();
  }

  /** The tool as a record names it. */
  datatype Tool =
    | Bash | ReadSkill | FetchChatAsset | ReadMemoryRecord | SetMemoryPin | ClearMemoryPin
    | InspectAgentConfig | SuggestImprovement | Wake | Rejected(name: Kept)

  function ToolNamed(name: string, cap: nat): Tool {
    if name == SCRIPT then Bash
    else if name == READ_SKILL then ReadSkill
    else if name == FETCH_ASSET then FetchChatAsset
    else if name == READ_MEMORY then ReadMemoryRecord
    else if name == SET_PIN then SetMemoryPin
    else if name == CLEAR_PIN then ClearMemoryPin
    else if name == AGENT_CONFIG then InspectAgentConfig
    else if name == IMPROVEMENT then SuggestImprovement
    else if name == WAKE then Wake
    else Rejected(Keep(name, cap))
  }

  /** The record names a tool as itself, whether or not it was offered, and any other name as rejected. */
  lemma ToolByName(name: string, cap: nat)
    ensures ToolNamed(name, cap) == Bash <==> name == "bash"
    ensures ToolNamed(name, cap) == ReadSkill <==> name == "read_skill"
    ensures ToolNamed(name, cap) == FetchChatAsset <==> name == "fetch_chat_asset"
    ensures ToolNamed(name, cap) == ReadMemoryRecord <==> name == "read_memory_record"
    ensures ToolNamed(name, cap) == SetMemoryPin <==> name == "set_memory_pin"
    ensures ToolNamed(name, cap) == ClearMemoryPin <==> name == "clear_memory_pin"
    ensures ToolNamed(name, cap) == InspectAgentConfig <==> name == "inspect_agent_config"
    ensures ToolNamed(name, cap) == SuggestImprovement <==> name == "suggest_improvement"
    ensures ToolNamed(name, cap) == Wake <==> name == "wake"
    ensures ToolNamed(name, cap).Rejected? ==> ToolNamed(name, cap).name == Keep(name, cap)
  {
    NameLengths();
  }

  /**
   * A served call is recorded under its own tool, with one exception the naming table makes: a
   * served wake_reason call is recorded as a rejected one.
   */
  lemma ServedButRecordedAsRejected(offer: Offer, name: string, cap: nat)
    requires HandlerFor(offer, name) != UnknownTool
    ensures ToolNamed(name, cap).Rejected? <==> HandlerFor(offer, name) == WakeReasonView
  {
    assert {AGENT_CONFIG, WAKE_REASON, READ_SKILL, IMPROVEMENT, READ_MEMORY} !!
           {SET_PIN, CLEAR_PIN, WAKE, FETCH_ASSET, SCRIPT} by {
      assert |AGENT_CONFIG| == 20 && |WAKE_REASON| == 11 && |READ_SKILL| == 10;
      assert |IMPROVEMENT| == 19 && |READ_MEMORY| == 18;
      assert |SET_PIN| == 14 && |CLEAR_PIN| == 16 && |WAKE| == 4 && |FETCH_ASSET| == 16 && |SCRIPT| == 4;
    }
    assert |WAKE_REASON| == 11;
  }
}
