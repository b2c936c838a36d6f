/** The message-lifecycle state machine of the chat component.

    The state is the message list, the pending input and the queue of
    scheduled completions.  Each handler of the component is one transition:
    typing, a key press in the textarea, a click on the send button, and the
    firing of a scheduled completion.  Every clock reading is passed in as a
    `Stamp` on the event that makes it. */
module Conversation {
  import opened Options
  import opened JsText
  import opened Messages

  /** What a scheduled completion captured: the placeholder's id and the
      untrimmed text of the user message it answers. */
  datatype Reply = Reply(placeholderId: int, userText: string)

  /** `timers` lists the scheduled completions in the order they were
      scheduled; with one fixed delay this is also the order they fire in. */
  datatype ChatState = ChatState(messages: seq<Message>, input: string, timers: seq<Reply>)

  /** The state on mount: no message, empty input, nothing scheduled. */
  const Initial: ChatState := ChatState([], "", [])

  /** The send button is disabled exactly when the input holds whitespace
      only; the send handler uses the same test as its guard. */
  function SendDisabled(input: string): (b: bool)
    ensures b <==> AllWhitespace(input)
  {
    BlankIffAllWhitespace(input);
    IsBlank(input)
  }

  /** The send handler; `user` and `typing` are the clock readings taken for
      the two messages.  Whitespace-only input changes nothing.  Otherwise
      the user message (untrimmed text) and the placeholder are appended in
      that order, every earlier message is kept, the input is cleared and the
      completion for the placeholder is scheduled. */
  function Send(c: ChatState, user: Stamp, typing: Stamp): (r: ChatState)
    ensures AllWhitespace(c.input) ==> r == c
    ensures !AllWhitespace(c.input) ==>
      && |r.messages| == |c.messages| + 2
      && r.messages[..|c.messages|] == c.messages
      && r.messages[|c.messages|] == Message(user.now, c.input, User, None, user.at)
      && IsPlaceholder(r.messages[|c.messages| + 1])
      && r.messages[|c.messages| + 1].id == typing.now + 1
      && r.messages[|c.messages| + 1].timestamp == typing.at
      && r.input == ""
      && r.timers == c.timers + [Reply(typing.now + 1, c.input)]
  {
    if SendDisabled(c.input) then c
    else
      var userMessage := UserMessage(user, c.input);
      var typingMessage := Placeholder(typing);
      ChatState(c.messages + [userMessage, typingMessage], "",
                c.timers + [Reply(typingMessage.id, c.input)])
  }

  /** The completion body, with clock reading `s`: every message carrying
      the placeholder's id is swapped for the finalised reply (assistant,
      echo of the user text, "analyzed" annotation, fresh id and time);
      every other message stays where it is. */
  function Resolve(ms: seq<Message>, reply: Reply, s: Stamp): (r: seq<Message>)
    ensures |r| == |ms|
    ensures forall i :: 0 <= i < |ms| && ms[i].id != reply.placeholderId ==> r[i] == ms[i]
    ensures forall i :: 0 <= i < |ms| && ms[i].id == reply.placeholderId ==>
      && r[i].sender == Assistant
      && r[i].text == EchoOpen + reply.userText + EchoClose
      && r[i].thinking == Some(AnalyzedNote)
      && r[i].id == s.now + 2
      && r[i].timestamp == s.at
    ensures (forall i :: 0 <= i < |ms| ==> ms[i].id != reply.placeholderId) ==> r == ms
  {
    ReplaceById(ms, reply.placeholderId, Finalised(s, reply.userText))
  }

  /** The earliest scheduled completion fires: it leaves the queue and is
      resolved against the list as it is now; the input is not touched and
      the list keeps its length.  With nothing scheduled nothing fires. */
  function Fire(c: ChatState, s: Stamp): (r: ChatState)
    ensures |c.timers| == 0 ==> r == c
    ensures |c.timers| > 0 ==>
      && r.timers == c.timers[1..]
      && r.input == c.input
      && r.messages == Resolve(c.messages, c.timers[0], s)
    ensures |r.messages| == |c.messages|
  {
    if |c.timers| == 0 then c
    else ChatState(Resolve(c.messages, c.timers[0], s), c.input, c.timers[1..])
  }

  /** The textarea's change handler stores the new text and nothing else. */
  function Type(c: ChatState, text: string): (r: ChatState)
    ensures r.input == text && r.messages == c.messages && r.timers == c.timers
  {
    c.(input := text)
  }

  /** What a key press does to the state, and whether the browser's default
      action (inserting a newline) is suppressed. */
  datatype KeyOutcome = KeyOutcome(state: ChatState, preventDefault: bool)

  /** Enter without Shift suppresses the newline and sends, even when the
      input is blank; any other key, and Enter with Shift, leaves the state
      as it is and lets the newline through. */
  function KeyDown(c: ChatState, key: string, shift: bool, user: Stamp, typing: Stamp): (r: KeyOutcome)
    ensures r.preventDefault <==> key == "Enter" && !shift
    ensures r.preventDefault ==> r.state == Send(c, user, typing)
    ensures !r.preventDefault ==> r.state == c
  {
    if key == "Enter" && !shift then KeyOutcome(Send(c, user, typing), true)
    else KeyOutcome(c, false)
  }

  /** A click on the send button: a disabled button delivers no click, an
      enabled one runs the send handler, whose guard then always passes. */
  function Click(c: ChatState, user: Stamp, typing: Stamp): (r: ChatState)
    ensures SendDisabled(c.input) ==> r == c
    ensures !SendDisabled(c.input) ==>
      |r.messages| == |c.messages| + 2 && r.input == "" && |r.timers| == |c.timers| + 1
  {
    if SendDisabled(c.input) then c else Send(c, user, typing)
  }

  /** Disabling the button adds nothing to the handler's own guard: a click
      and a send always have the same effect. */
  lemma ClickIsSend(c: ChatState, user: Stamp, typing: Stamp)
    ensures Click(c, user, typing) == Send(c, user, typing)
  {
  }

  /** The events the component reacts to, in the order they occur. */
  datatype Event =
    | Typed(text: string)
    | KeyPressed(key: string, shift: bool, user: Stamp, typing: Stamp)
    | Clicked(user: Stamp, typing: Stamp)
    | TimerFired(clock: Stamp)

  function Step(c: ChatState, e: Event): ChatState {
    match e
    case Typed(text) => Type(c, text)
    case KeyPressed(key, shift, user, typing) => KeyDown(c, key, shift, user, typing).state
    case Clicked(user, typing) => Click(c, user, typing)
    case TimerFired(clock) => Fire(c, clock)
  }

  /** How each kind of event is handled, one equation per kind. */
  lemma StepCases(c: ChatState, t: string, user: Stamp, typing: Stamp, clock: Stamp)
    ensures Step(c, Typed(t)) == Type(c, t)
    ensures Step(c, Clicked(user, typing)) == Send(c, user, typing)
    ensures Step(c, TimerFired(clock)) == Fire(c, clock)
  {
  }

  function Run(c: ChatState, es: seq<Event>): ChatState
    decreases |es|
  {
    if |es| == 0 then c else Run(Step(c, es[0]), es[1..])
  }

  /** What every reachable state satisfies: each message is a user message,
      a placeholder or a finalised reply, and the list has even length (it
      grows two at a time and replacement keeps its length). */
  predicate Good(c: ChatState) {
    && (forall i :: 0 <= i < |c.messages| ==> WellFormed(c.messages[i]))
    && |c.messages| % 2 == 0
  }

  /** A successful send is exactly an append of the user message and the
      placeholder. */
  lemma SendAppends(c: ChatState, user: Stamp, typing: Stamp)
    requires !AllWhitespace(c.input)
    ensures Send(c, user, typing).messages
         == c.messages + [UserMessage(user, c.input), Placeholder(typing)]
  {
    assert !SendDisabled(c.input);
  }

  /** Appending two well-formed messages keeps every message well formed. */
  lemma AppendKeepsWellFormed(ms: seq<Message>, u: Message, p: Message)
    requires forall i :: 0 <= i < |ms| ==> WellFormed(ms[i])
    requires WellFormed(u) && WellFormed(p)
    ensures forall i :: 0 <= i < |ms + [u, p]| ==> WellFormed((ms + [u, p])[i])
  {
  }

  /** A send keeps the invariant: it appends a user message and a
      placeholder. */
  lemma SendKeepsGood(c: ChatState, user: Stamp, typing: Stamp)
    requires Good(c)
    ensures Good(Send(c, user, typing))
  {
    if !AllWhitespace(c.input) {
      SendAppends(c, user, typing);
      AppendKeepsWellFormed(c.messages, UserMessage(user, c.input), Placeholder(typing));
      EvenPlusTwo(|c.messages|);
    }
  }

  /** A firing keeps the invariant: it puts finalised replies in place. */
  lemma FireKeepsGood(c: ChatState, s: Stamp)
    requires Good(c)
    ensures Good(Fire(c, s))
  {
    if |c.timers| > 0 {
      ReplaceKeepsWellFormed(c.messages, c.timers[0].placeholderId,
                             Finalised(s, c.timers[0].userText));
    }
  }

  /** Every event keeps the invariant. */
  lemma StepKeepsGood(c: ChatState, e: Event)
    requires Good(c)
    ensures Good(Step(c, e))
  {
    match e
    case Typed(_) =>
    case KeyPressed(_, _, user, typing) => SendKeepsGood(c, user, typing);
    case Clicked(user, typing) => SendKeepsGood(c, user, typing);
    case TimerFired(clock) => FireKeepsGood(c, clock);
  }

  /** Any sequence of events keeps the invariant. */
  lemma {:induction false} RunKeepsGood(c: ChatState, es: seq<Event>)
    requires Good(c)
    ensures Good(Run(c, es))
    decreases |es|
  {
    if |es| > 0 {
      StepKeepsGood(c, es[0]);
      RunKeepsGood(Step(c, es[0]), es[1..]);
    }
  }

  /** Every state reachable from mount satisfies the invariant. */
  lemma ReachableIsGood(es: seq<Event>)
    ensures Good(Run(Initial, es))
  {
    RunKeepsGood(Initial, es);
  }

  /** Nothing is deleted or reordered: the list never shrinks, and every
      message that was there is, at the same position, either unchanged or
      a finalised reply that replaced it. */
  lemma {:induction false} RunKeepsPositions(c: ChatState, es: seq<Event>)
    ensures |Run(c, es).messages| >= |c.messages|
    ensures forall i :: 0 <= i < |c.messages| ==>
      Run(c, es).messages[i] == c.messages[i] || IsFinalised(Run(c, es).messages[i])
    decreases |es|
  {
    if |es| > 0 {
      var c1 := Step(c, es[0]);
      assert forall i :: 0 <= i < |c.messages| ==>
        c1.messages[i] == c.messages[i] || IsFinalised(c1.messages[i]) by {
        if !es[0].TimerFired? && c1.messages != c.messages {
          assert forall i :: 0 <= i < |c.messages| ==>
            c1.messages[i] == c1.messages[..|c.messages|][i];
        }
      }
      RunKeepsPositions(c1, es[1..]);
    }
  }

  /** Firing the only scheduled completion resolves it and empties the
      queue. */
  lemma FireOnly(ms: seq<Message>, id: int, text: string, s: Stamp)
    ensures Fire(ChatState(ms, "", [Reply(id, text)]), s) ==
      ChatState(ReplaceById(ms, id, Finalised(s, text)), "", [])
  {
  }

  /** Replacing the id of the second of two appended messages, carried by no
      earlier message, replaces that message only. */
  lemma ReplaceAfterPair(ms: seq<Message>, u: Message, p: Message, id: int, f: Message)
    requires forall i :: 0 <= i < |ms| ==> ms[i].id != id
    requires u.id != id && p.id == id
    ensures ReplaceById(ms + [u, p], id, f) == ms + [u, f]
  {
    ReplaceAppend(ms, [u, p], id, f);
    ReplaceAbsentIsNoOp(ms, id, f);
    ReplacePair(u, p, id, f);
  }

  /** One turn on its own: after a send and the firing of its completion the
      list is the old list plus the user message and the finalised reply,
      provided no other message happens to carry the placeholder's id. */
  lemma SendThenFire(c: ChatState, user: Stamp, typing: Stamp, later: Stamp)
    requires !AllWhitespace(c.input)
    requires |c.timers| == 0
    requires user.now != typing.now + 1
    requires forall i :: 0 <= i < |c.messages| ==> c.messages[i].id != typing.now + 1
    ensures Fire(Send(c, user, typing), later) ==
      ChatState(c.messages + [UserMessage(user, c.input), Finalised(later, c.input)], "", [])
  {
    var u, p := UserMessage(user, c.input), Placeholder(typing);
    var f, id := Finalised(later, c.input), typing.now + 1;
    SendAppends(c, user, typing);
    FireOnly(c.messages + [u, p], id, c.input, later);
    ReplaceAfterPair(c.messages, u, p, id, f);
  }

  /** The first turn from mount, as events: typing `t` and clicking send
      shows the user message and the placeholder; when the completion fires
      the placeholder has become the echo of `t`, and the list has length 2
      throughout.  The clock only has to run forward between the two
      readings of the click. */
  lemma FirstTurn(t: string, user: Stamp, typing: Stamp, later: Stamp)
    requires !AllWhitespace(t)
    requires user.now <= typing.now
    ensures var s := Step(Step(Initial, Typed(t)), Clicked(user, typing));
      s.messages == [UserMessage(user, t), Placeholder(typing)]
    ensures var s := Step(Step(Step(Initial, Typed(t)), Clicked(user, typing)), TimerFired(later));
      && s.messages == [UserMessage(user, t), Finalised(later, t)]
      && s.input == "" && s.timers == []
  {
    var u, p, f := UserMessage(user, t), Placeholder(typing), Finalised(later, t);
    var c1 := Type(Initial, t);
    assert c1 == ChatState([], t, []);
    var c2 := Send(c1, user, typing);
    SendAppends(c1, user, typing);
    EmptyAppend([u, p]);
    SendThenFire(c1, user, typing, later);
    EmptyAppend([u, f]);
    StepCases(Initial, t, user, typing, later);
    StepCases(c1, t, user, typing, later);
    StepCases(c2, t, user, typing, later);
  }

  /** The reply to "hi" reads `You said: "hi"`. */
  lemma HiExample(s: Stamp)
    ensures Finalised(s, "hi").text == "You said: \"hi\""
  {
  }

  /** Typing a non-blank text and clicking send appends its two messages and
      queues its completion. */
  lemma TypeThenClick(c: ChatState, text: string, user: Stamp, typing: Stamp)
    requires !AllWhitespace(text)
    ensures Click(Type(c, text), user, typing) ==
      ChatState(c.messages + [UserMessage(user, text), Placeholder(typing)], "",
                c.timers + [Reply(typing.now + 1, text)])
  {
    ClickIsSend(Type(c, text), user, typing);
    SendAppends(Type(c, text), user, typing);
  }

  /** Two sends from mount whose placeholders were created in the same
      millisecond: both placeholders get the same id and both completions
      are queued. */
  lemma TwoSendsSharedId(a: string, b: string, u1: Stamp, u2: Stamp, p: Stamp)
    requires !AllWhitespace(a) && !AllWhitespace(b)
    ensures Click(Type(Click(Type(Initial, a), u1, p), b), u2, p) ==
      ChatState([UserMessage(u1, a), Placeholder(p), UserMessage(u2, b), Placeholder(p)],
                "", [Reply(p.now + 1, a), Reply(p.now + 1, b)])
  {
    var m1, m2, m3 := UserMessage(u1, a), Placeholder(p), UserMessage(u2, b);
    var ra, rb := Reply(p.now + 1, a), Reply(p.now + 1, b);
    var c1 := ChatState([m1, m2], "", [ra]);
    TypeThenClick(Initial, a, u1, p);
    EmptyAppend([m1, m2]);
    EmptyAppend([ra]);
    TypeThenClick(c1, b, u2, p);
    PairAppend(m1, m2, m3, m2);
    SingleAppend(ra, rb);
  }

  /** With both placeholders sharing an id, the first completion answers
      both with the first reply and the second completion changes nothing. */
  lemma FireSharedId(a: string, b: string, u1: Stamp, u2: Stamp, p: Stamp, f1: Stamp, f2: Stamp)
    requires u1.now != p.now + 1 && u2.now != p.now + 1 && f1.now + 2 != p.now + 1
    ensures var c2 := ChatState([UserMessage(u1, a), Placeholder(p), UserMessage(u2, b), Placeholder(p)],
                                "", [Reply(p.now + 1, a), Reply(p.now + 1, b)]);
      var c3 := Fire(c2, f1);
      && c3.messages == [UserMessage(u1, a), Finalised(f1, a), UserMessage(u2, b), Finalised(f1, a)]
      && Fire(c3, f2).messages == c3.messages
  {
    var ms3 := [UserMessage(u1, a), Finalised(f1, a), UserMessage(u2, b), Finalised(f1, a)];
    ReplaceAbsentIsNoOp(ms3, p.now + 1, Finalised(f2, b));
  }

  /** Ids come from the millisecond clock and are not unique: when two sends
      create their placeholders within the same millisecond, the first
      completion overwrites both placeholders with its reply, the reply to
      the second message is never shown, and the second completion finds
      nothing left to replace.  The clock readings are ordered: the user
      messages, then the placeholder, then the completion. */
  lemma SameMillisecondSends(a: string, b: string, u1: Stamp, u2: Stamp, p: Stamp, f1: Stamp, f2: Stamp)
    requires !AllWhitespace(a) && !AllWhitespace(b)
    requires u1.now <= u2.now <= p.now < f1.now
    ensures var c1 := Click(Type(Initial, a), u1, p);
      var c2 := Click(Type(c1, b), u2, p);
      var c3 := Fire(c2, f1);
      && c3.messages == [UserMessage(u1, a), Finalised(f1, a), UserMessage(u2, b), Finalised(f1, a)]
      && Fire(c3, f2).messages == c3.messages
  {
    TwoSendsSharedId(a, b, u1, u2, p);
    FireSharedId(a, b, u1, u2, p, f1, f2);
  }

  /** Sequence and parity identities, kept apart so the solver meets them in
      a small context. */
  lemma EvenPlusTwo(n: nat)
    requires n % 2 == 0
    ensures (n + 2) % 2 == 0
  {
  }

  lemma EmptyAppend<T>(s: seq<T>)
    ensures [] + s == s
  {
  }

  lemma SingleAppend<T>(a: T, b: T)
    ensures [a] + [b] == [a, b]
  {
  }

  lemma PairAppend<T>(a: T, b: T, c: T, d: T)
    ensures [a, b] + [c, d] == [a, b, c, d]
  {
  }
}
