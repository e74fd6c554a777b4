/**
 * How a report reaches the chat channel (`setLastSlackMessage`): the latest
 * message of the channel is looked up, and if the bot wrote it, the report
 * either replies in its thread or overwrites it; otherwise a new message is
 * posted. The chat calls themselves are outside the model.
 */
module Publisher {
  import opened Wrappers

  datatype BotProfile = BotProfile(name: string)

  /** A channel message: its timestamp id and, for a bot's message, the bot's profile. */
  datatype Message = Message(ts: string, botProfile: Option<BotProfile>)

  /** The answer of the channel-history lookup, asked for one message. */
  datatype History = History(ok: bool, messages: seq<Message>)

  datatype Action = ReplyInThread(ts: string) | EditInPlace(ts: string) | PostNew

  /** The SPAM_STRATEGY that makes reports thread replies; every other value edits. */
  const ThreadStrategy := "THREAD"

  /** The SPAM_STRATEGY used when the environment does not set one. */
  const DefaultStrategy := "EDIT"

  /** The lookup succeeded and the latest message was posted by a bot named `botName`. */
  predicate LatestIsOwn(history: History, botName: string)
  {
    history.ok && |history.messages| > 0
    && history.messages[0].botProfile.Some?
    && history.messages[0].botProfile.value.name == botName
  }

  /**
   * The chat call a report becomes. The timestamp of the bot's own latest
   * message is the target; an empty timestamp is no target (it is falsy).
   */
  function ChooseAction(history: History, botName: string, strategy: string): (r: Action)
    // an edit touches only the bot's own latest message
    ensures r.EditInPlace? ==>
              LatestIsOwn(history, botName) && strategy != ThreadStrategy && r.ts == history.messages[0].ts
    ensures r.ReplyInThread? ==>
              LatestIsOwn(history, botName) && strategy == ThreadStrategy && r.ts == history.messages[0].ts
    // someone else's message (or none, or a failed lookup): always a new post, whatever the strategy
    ensures !LatestIsOwn(history, botName) ==> r == PostNew
    ensures r != PostNew <==> LatestIsOwn(history, botName) && history.messages[0].ts != ""
  {
    var threadId: Option<string> :=
      if history.ok && |history.messages| > 0 && history.messages[0].botProfile.Some?
         && history.messages[0].botProfile.value.name == botName
      then Some(history.messages[0].ts)
      else None;
    if threadId.Some? && threadId.value != "" then
      if strategy == ThreadStrategy then ReplyInThread(threadId.value) else EditInPlace(threadId.value)
    else
      PostNew
  }

  /** Under the default strategy a report overwrites the bot's own latest message. */
  lemma DefaultStrategyEditsOwnMessage(history: History, botName: string)
    requires LatestIsOwn(history, botName) && history.messages[0].ts != ""
    ensures ChooseAction(history, botName, DefaultStrategy) == EditInPlace(history.messages[0].ts)
  {
  }
}
