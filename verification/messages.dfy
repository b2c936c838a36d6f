/** The chat's `Message` record, the three shapes a message takes during its
    life (user message, typing placeholder, finalised reply), the echo format
    of the simulated reply, and the replace-by-id update the reply performs. */
module Messages {
  import opened Options

  datatype Sender = User | Assistant

  /** An opaque instant, as produced by `new Date()`. */
  type Time = int

  /** `thinking` is the optional annotation; `id` comes from `Date.now()`
      and is not assumed to be unique. */
  datatype Message = Message(
    id: int,
    text: string,
    sender: Sender,
    thinking: Option<string>,
    timestamp: Time)

  /** The sentinel text of the typing placeholder. */
  const TypingText: string := "..."
  /** Annotation carried by the placeholder. */
  const CraftingNote: string := "Crafting the perfect response..."
  /** Annotation carried by the finalised reply. */
  const AnalyzedNote: string := "Analyzed input and formulated response."
  /** The reply text is `EchoOpen + <user text> + EchoClose`. */
  const EchoOpen: string := "You said: \""
  const EchoClose: string := "\""

  /** One reading of the clock: `Date.now()` for an id, together with the
      `new Date()` taken beside it for the same message's timestamp. */
  datatype Stamp = Stamp(now: int, at: Time)

  /** The message a send creates from the pending input (no annotation). */
  function UserMessage(s: Stamp, text: string): Message {
    Message(s.now, text, User, None, s.at)
  }

  /** The assistant message a send appends right after the user message. */
  function Placeholder(s: Stamp): Message {
    Message(s.now + 1, TypingText, Assistant, Some(CraftingNote), s.at)
  }

  /** The text of the simulated reply to `userText`. */
  function Echo(userText: string): (r: string)
    ensures |r| == |EchoOpen| + |userText| + |EchoClose|
    ensures r[..|EchoOpen|] == EchoOpen && r[|r| - 1] == '"'
    ensures r[|EchoOpen|..|r| - 1] == userText
  {
    EchoOpen + userText + EchoClose
  }

  /** Recovers the user text from a reply text, or None when `s` does not
      have the echo format. */
  function ParseEcho(s: string): Option<string> {
    if |s| >= |EchoOpen| + |EchoClose| && s[..|EchoOpen|] == EchoOpen && s[|s| - 1] == '"'
    then Some(s[|EchoOpen|..|s| - 1])
    else None
  }

  /** The echo format round-trips in both directions: every echo parses back
      to its user text, and every text that parses is the echo of what it
      parses to. */
  lemma EchoRoundTrip(userText: string, s: string)
    ensures ParseEcho(Echo(userText)) == Some(userText)
    ensures ParseEcho(s) == Some(userText) ==> Echo(userText) == s
  {
    if ParseEcho(s) == Some(userText) {
      assert s == s[..|EchoOpen|] + s[|EchoOpen|..|s| - 1] + [s[|s| - 1]];
    }
  }

  /** Different user texts give different replies. */
  lemma EchoInjective(a: string, b: string)
    ensures Echo(a) == Echo(b) ==> a == b
  {
    EchoRoundTrip(a, Echo(b));
  }

  /** The reply that replaces a placeholder, built when the timer fires. */
  function Finalised(s: Stamp, userText: string): (m: Message)
    ensures m.sender == Assistant && ParseEcho(m.text) == Some(userText)
    ensures m.thinking == Some(AnalyzedNote) && m.text != TypingText
  {
    EchoRoundTrip(userText, []);
    Message(s.now + 2, Echo(userText), Assistant, Some(AnalyzedNote), s.at)
  }

  predicate IsUserMessage(m: Message) {
    m.sender == User && m.thinking == None
  }

  predicate IsPlaceholder(m: Message) {
    m.sender == Assistant && m.text == TypingText && m.thinking == Some(CraftingNote)
  }

  predicate IsFinalised(m: Message) {
    m.sender == Assistant && ParseEcho(m.text).Some? && m.thinking == Some(AnalyzedNote)
  }

  /** Every message the chat can hold has one of the three shapes. */
  predicate WellFormed(m: Message) {
    IsUserMessage(m) || IsPlaceholder(m) || IsFinalised(m)
  }

  /** Every message carrying `id` becomes `m`, every other one is kept in
      place, and the length does not change. */
  function ReplaceById(ms: seq<Message>, id: int, m: Message): (r: seq<Message>)
    ensures |r| == |ms|
    ensures forall i :: 0 <= i < |ms| && ms[i].id != id ==> r[i] == ms[i]
    ensures forall i :: 0 <= i < |ms| && ms[i].id == id ==> r[i] == m
  {
    if |ms| == 0 then []
    else [if ms[0].id == id then m else ms[0]] + ReplaceById(ms[1..], id, m)
  }

  /** When no message carries `id`, replacing is a no-op. */
  lemma ReplaceAbsentIsNoOp(ms: seq<Message>, id: int, m: Message)
    requires forall i :: 0 <= i < |ms| ==> ms[i].id != id
    ensures ReplaceById(ms, id, m) == ms
  {
  }

  /** Replacing twice with the same message is replacing once, even when the
      new message itself carries `id`. */
  lemma ReplaceIdempotent(ms: seq<Message>, id: int, m: Message)
    ensures ReplaceById(ReplaceById(ms, id, m), id, m) == ReplaceById(ms, id, m)
  {
  }

  /** Replacing distributes over concatenation, so messages appended after
      the placeholder are affected only if they carry its id. */
  lemma {:induction false} ReplaceAppend(a: seq<Message>, b: seq<Message>, id: int, m: Message)
    ensures ReplaceById(a + b, id, m) == ReplaceById(a, id, m) + ReplaceById(b, id, m)
  {
    if |a| == 0 {
      assert a + b == b;
    } else {
      assert (a + b)[1..] == a[1..] + b;
      ReplaceAppend(a[1..], b, id, m);
    }
  }

  /** In a two-message list where only the second carries `id`, only the
      second is replaced. */
  lemma ReplacePair(a: Message, b: Message, id: int, m: Message)
    requires a.id != id && b.id == id
    ensures ReplaceById([a, b], id, m) == [a, m]
  {
    var r := ReplaceById([a, b], id, m);
    assert r[0] == a && r[1] == m;
  }

  /** When exactly one position carries `id`, the result differs from the
      input at that position only. */
  lemma ReplaceUnique(ms: seq<Message>, k: nat, m: Message)
    requires k < |ms|
    requires forall i :: 0 <= i < |ms| && i != k ==> ms[i].id != ms[k].id
    ensures ReplaceById(ms, ms[k].id, m) == ms[k := m]
  {
  }

  /** Replacing keeps every message well formed if the new one is. */
  lemma ReplaceKeepsWellFormed(ms: seq<Message>, id: int, m: Message)
    requires forall i :: 0 <= i < |ms| ==> WellFormed(ms[i])
    requires WellFormed(m)
    ensures forall i :: 0 <= i < |ms| ==> WellFormed(ReplaceById(ms, id, m)[i])
  {
  }
}
