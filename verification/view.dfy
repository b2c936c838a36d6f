/** The rendering decisions of the chat view: which panel, indicator,
    annotation and action bar appear for a given conversation. */
module View {
  import opened JsText
  import opened Messages
  import opened Conversation

  /** The welcome panel replaces the message list when there is no message. */
  predicate ShowsWelcome(ms: seq<Message>) {
    |ms| == 0
  }

  /** The annotation is shown when it is present, non-empty (JavaScript
      truthiness of a string) and the message is from the assistant. */
  predicate ShowsThinking(m: Message) {
    m.thinking.Some? && m.thinking.value != "" && m.sender == Assistant
  }

  /** As written: the typing indicator is chosen by the text alone. */
  predicate ShowsTypingIndicator(m: Message) {
    m.text == TypingText
  }

  /** Copy, like, dislike and regenerate appear under assistant messages
      that are not the placeholder. */
  predicate ShowsActions(m: Message) {
    m.sender == Assistant && m.text != TypingText
  }

  /** The placeholder renders as typing dots with its annotation and no action
      bar; a finalised reply renders its text, its annotation and the action
      bar; a user message never shows an annotation or an action bar. */
  lemma ShapesRender(m: Message)
    ensures IsPlaceholder(m) ==> ShowsTypingIndicator(m) && !ShowsActions(m) && ShowsThinking(m)
    ensures IsFinalised(m) ==> !ShowsTypingIndicator(m) && ShowsActions(m) && ShowsThinking(m)
    ensures IsUserMessage(m) ==> !ShowsActions(m) && !ShowsThinking(m)
  {
    if IsFinalised(m) {
      EchoRoundTrip(ParseEcho(m.text).value, m.text);
    }
  }

  /** As written, a user who sends exactly "..." sees the typing indicator in
      place of their own message. */
  lemma UserEllipsisShowsTyping(s: Stamp)
    ensures ShowsTypingIndicator(UserMessage(s, TypingText))
    ensures UserMessage(s, TypingText).sender == User
  {
  }

  /** Corrected rule: only an assistant message holding the sentinel is drawn
      as the typing indicator.  It agrees with the written rule on every
      assistant message and never hides a user's text. */
  function ShowsTypingIntended(m: Message): (b: bool)
    ensures b ==> m.sender == Assistant
    ensures m.sender == Assistant ==> (b <==> ShowsTypingIndicator(m))
    ensures b ==> !ShowsActions(m)
  {
    m.sender == Assistant && m.text == TypingText
  }

  /** Under the corrected rule each assistant message shows exactly one of the
      typing indicator and the action bar, and every user message shows its
      own text. */
  lemma IntendedTypingExclusive(m: Message)
    ensures m.sender == Assistant ==> (ShowsTypingIntended(m) != ShowsActions(m))
    ensures m.sender == User ==> !ShowsTypingIntended(m) && !ShowsActions(m)
  {
  }

  /** Right after a successful send the welcome panel is gone, the user's
      message has no action bar, and the newest message is drawn as typing
      dots with the "crafting" annotation and no action bar. */
  lemma SendRendering(c: ChatState, user: Stamp, typing: Stamp)
    requires !AllWhitespace(c.input)
    ensures var ms := Send(c, user, typing).messages;
      && !ShowsWelcome(ms)
      && !ShowsActions(ms[|ms| - 2])
      && ShowsTypingIntended(ms[|ms| - 1])
      && ShowsThinking(ms[|ms| - 1])
      && !ShowsActions(ms[|ms| - 1])
  {
  }

  /** In every state reachable from mount, each message is drawn in one of
      three ways (typing dots by the corrected rule): an assistant message
      shows the typing dots or the action bar but never both, always with
      its annotation, and a user message shows neither an annotation nor the
      action bar.  By the written rule a user message is still drawn as
      typing dots exactly when its text is the sentinel. */
  lemma ReachableRendering(es: seq<Event>, i: nat)
    requires i < |Run(Initial, es).messages|
    ensures var m := Run(Initial, es).messages[i];
      && (m.sender == Assistant ==> ShowsTypingIntended(m) != ShowsActions(m))
      && (m.sender == Assistant ==> ShowsThinking(m))
      && (m.sender == User ==> !ShowsTypingIntended(m) && !ShowsActions(m) && !ShowsThinking(m))
      && (m.sender == User ==> (ShowsTypingIndicator(m) <==> m.text == TypingText))
  {
    ReachableIsGood(es);
    ShapesRender(Run(Initial, es).messages[i]);
  }
}
