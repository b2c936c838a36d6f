# Shmaude chat core in Dafny

A model of the message lifecycle of the Shmaude chat component, `App` in `src/App.tsx`,
with proofs about it. The component keeps a message list, a pending input and a dark-mode
flag. Sending a message appends the user's message and an assistant placeholder whose
text is `...`. A timer later swaps the placeholder, matched by id, for the reply
`You said: "<text>"`.

Outside React, this is a sequential transition system over an immutable `seq<Message>`:

- `options.dfy`, module `Options`: the `Option` type. It is used for the optional
  `thinking` field and for a storage key that was never written.
- `js_text.dfy`, module `JsText`: `String.prototype.trim` over the ECMAScript
  WhiteSpace and LineTerminator code points, and the `trim() === ''` guard.
- `messages.dfy`, module `Messages`: the `Message` record and a clock reading `Stamp`.
  A `Stamp` pairs a `Date.now()` value with the `new Date()` read next to it. The module
  also holds the three message shapes (user message, placeholder, finalised reply), the
  echo format with its parser, and the replace-by-id map the timer performs.
- `conversation.dfy`, module `Conversation`: the state machine. The state holds the
  messages, the input and the queue of scheduled completions (`Reply`: the placeholder id
  and the user text the timer's closure captured). The transitions are `Type`, `KeyDown`,
  `Click`, `Send` and `Fire`. `Step`/`Run` run event sequences, so sends and completions
  can interleave. The module proves a reachable-state invariant.
- `view.dfy`, module `View`: the rendering decisions. These are the welcome panel, the
  annotation, the typing indicator and the action bar.
- `theme.dfy`, module `Theme`: the dark-mode effect, modelled both as written and as
  intended. The storage is one variable of type `Option<string>`.

Clock readings are parameters. Ids are not assumed to be unique. A completion is the
event `TimerFired`. All completions use the same delay, so they fire in the order they
were scheduled, and the model keeps them in a FIFO queue.

The dark-mode effect re-reads the storage every time the flag changes. A click from a
persisted dark mode therefore cannot leave it, although the button at line 153 is a toggle
(`setDarkMode(!darkMode)`). The model follows the code. The evidently intended toggle, which
reads the storage once at start-up, is modelled next to it (see Findings).

## Model

| member | source | states |
|---|---|---|
| JsText.TrimStart | src/App.tsx:64 | the result is a suffix of the input, every character removed in front is whitespace, and the result does not begin with whitespace |
| JsText.TrimEnd | src/App.tsx:64 | the result is a prefix of the input, every character removed at the end is whitespace, and the result does not end with whitespace |
| JsText.Trim | src/App.tsx:64 | the trimmed text neither starts nor ends with whitespace and is no longer than the input |
| JsText.TrimIsSlice | src/App.tsx:64 | `trim()` yields the contiguous slice of the input between its leading and trailing whitespace: everything outside the slice is whitespace |
| JsText.IsBlank | src/App.tsx:64 | definition of the `trim() === ''` guard; its behaviour is checked by JsText.BlankIffAllWhitespace |
| JsText.BlankIffAllWhitespace | src/App.tsx:64 | `trim() === ''` holds exactly when every character of the input is whitespace (both directions) |
| JsText.TrimIdempotent | src/App.tsx:64 | trimming a trimmed string changes nothing |
| Messages.UserMessage | src/App.tsx:66-71 | definition of the user message (clock id, untrimmed text, no annotation); its behaviour is checked by Conversation.Send |
| Messages.Placeholder | src/App.tsx:82-88 | definition of the placeholder (id one past its clock reading, `...`, crafting note); its behaviour is checked by Conversation.Send |
| Messages.Echo | src/App.tsx:96 | the reply text is the user text, unchanged, framed by `You said: "` and a closing `"` (12 extra characters) |
| Messages.EchoRoundTrip | src/App.tsx:96 | the echo format round-trips both ways: the parser recovers the user text from every reply, and every text it accepts is the reply to what it returns |
| Messages.EchoInjective | src/App.tsx:96 | different user texts give different replies |
| Messages.Finalised | src/App.tsx:94-100 | the finalised reply is from the assistant, its text parses back to the user's text, its annotation is `Analyzed input and formulated response.`, and it is never the `...` sentinel |
| Messages.ReplaceById | src/App.tsx:102-106 | the map keeps the length, keeps every message whose id differs, and puts the new message at every position whose id matches |
| Messages.ReplaceAbsentIsNoOp | src/App.tsx:102-106 | when no message carries the id, the list is returned unchanged |
| Messages.ReplaceIdempotent | src/App.tsx:102-106 | replacing twice with the same message is the same as replacing once |
| Messages.ReplaceAppend | src/App.tsx:102-106 | replacing in a concatenation is replacing in each part |
| Messages.ReplacePair | src/App.tsx:102-106 | in a two-message list where only the second carries the id, only the second is replaced |
| Messages.ReplaceUnique | src/App.tsx:102-106 | when exactly one message carries the id, only that position changes |
| Messages.ReplaceKeepsWellFormed | src/App.tsx:102-106 | replacing with a well-formed message keeps every message well formed |
| Conversation.SendDisabled | src/App.tsx:270-272 | the send button is disabled exactly when the input is whitespace only |
| Conversation.Send | src/App.tsx:63-91 | blank input changes nothing. Otherwise the old messages stay as a prefix, followed by exactly the user message (untrimmed text, clock id) and a placeholder (`...`, crafting note, id one past its clock reading). The input becomes empty and one completion for that placeholder is queued |
| Conversation.Resolve | src/App.tsx:93-107 | the length is kept; messages with another id are untouched; each message with the placeholder id becomes an assistant reply with text `You said: "` + the user text + `"`, the analyzed note, id `now + 2` and the new time; when no id matches nothing changes |
| Conversation.Fire | src/App.tsx:93-107 | the earliest queued completion is removed and resolved against the current list; the input is untouched and the list keeps its length; with nothing queued nothing changes |
| Conversation.Type | src/App.tsx:260 | typing replaces the input and touches neither the messages nor the queue |
| Conversation.KeyDown | src/App.tsx:110-115 | Enter without Shift prevents the default and behaves as a send; any other key, or Enter with Shift, prevents nothing and leaves the state as it is |
| Conversation.Click | src/App.tsx:269-273 | a click on a disabled button does nothing; a click on an enabled button always appends two messages, clears the input and queues one completion |
| Conversation.ClickIsSend | src/App.tsx:270-272 | the disabled rule is the send handler's own guard, so a click and a send always have the same effect |
| Conversation.SendAppends | src/App.tsx:66-90 | a successful send is exactly the old list followed by the user message and then the placeholder |
| Conversation.Step | src/App.tsx:93-115 | definition of the event dispatch to the key handler (110-115), the change handler (260), the send button (269-273) and the completion (93-107); its behaviour is checked by Conversation.StepCases and Conversation.StepKeepsGood |
| Conversation.StepCases | src/App.tsx:63-115 | typing, clicking send and a timer firing are handled by `Type`, the send handler and `Fire` respectively |
| Conversation.FireOnly | src/App.tsx:93-107 | firing the only queued completion resolves its placeholder id with the reply to its captured text and empties the queue |
| Conversation.ReplaceAfterPair | src/App.tsx:102-106 | when only the newly appended placeholder carries the id, the map swaps that placeholder and keeps everything else, the user message included |
| Conversation.TypeThenClick | src/App.tsx:63-90 | typing a non-blank text and clicking send appends the user message and the placeholder and queues one completion carrying that text |
| Conversation.SendKeepsGood | src/App.tsx:63-90 | a send keeps every message well formed and the list length even |
| Conversation.FireKeepsGood | src/App.tsx:93-107 | a completion keeps every message well formed and the list length even |
| Conversation.StepKeepsGood | src/App.tsx:63-115 | every handler keeps the invariant |
| Conversation.RunKeepsGood | src/App.tsx:63-115 | every sequence of events keeps the invariant |
| Conversation.ReachableIsGood | src/App.tsx:28-115 | every state reachable from mount holds only user messages, placeholders and finalised replies, in a list of even length |
| Conversation.RunKeepsPositions | src/App.tsx:73-106 | no event deletes or reorders messages: the list never shrinks, and each existing position keeps its message or holds a finalised reply |
| Conversation.SendThenFire | src/App.tsx:63-107 | one send and its completion leave the old list followed by the user message and the reply, an empty input and an empty queue, when the placeholder id is not already in use |
| Conversation.FirstTurn | src/App.tsx:63-107 | starting from an empty chat: typing `t` and sending shows [user `t`, placeholder]; after the completion the list is [user `t`, reply to `t`], of length 2 throughout |
| Conversation.HiExample | src/App.tsx:96 | the reply to `hi` is exactly `You said: "hi"` |
| Conversation.TwoSendsSharedId | src/App.tsx:67-90 | two sends whose placeholders read the same millisecond produce two placeholders with the same id and queue two completions |
| Conversation.FireSharedId | src/App.tsx:102-106 | with a shared placeholder id, the first completion answers both placeholders with the first reply, and the second completion changes nothing |
| Conversation.SameMillisecondSends | src/App.tsx:67-106 | with the clock running forward, two sends in the same millisecond end with the second user message answered by the first reply, and the second reply is lost |
| View.ShowsWelcome | src/App.tsx:191 | definition of the welcome-panel test (empty list); its behaviour is checked by View.SendRendering |
| View.ShowsThinking | src/App.tsx:213 | definition of the annotation test (present, non-empty, assistant); its behaviour is checked by View.ShapesRender |
| View.ShowsTypingIndicator | src/App.tsx:221 | definition of the typing-dots test as written (text `...` alone); its behaviour is checked by View.ShapesRender and View.UserEllipsisShowsTyping |
| View.ShowsActions | src/App.tsx:230 | definition of the action-bar test (assistant and not `...`); its behaviour is checked by View.ShapesRender and View.IntendedTypingExclusive |
| View.ShapesRender | src/App.tsx:213-246 | a placeholder shows typing dots and its annotation but no action bar; a finalised reply shows its text, its annotation and the action bar; a user message shows neither an annotation nor the action bar |
| View.UserEllipsisShowsTyping | src/App.tsx:221 | as written, a user message whose text is `...` is drawn as the typing indicator |
| View.ShowsTypingIntended | src/App.tsx:221 | corrected rule: only assistant messages can show typing dots; it agrees with the written rule on every assistant message and never shows the action bar at the same time |
| View.IntendedTypingExclusive | src/App.tsx:221-230 | under the corrected rule, an assistant message shows exactly one of typing dots and action bar, and a user message shows neither |
| View.SendRendering | src/App.tsx:191-230 | after a successful send the welcome panel is gone, the user message has no action bar, and the newest message shows typing dots and its annotation but no action bar |
| View.ReachableRendering | src/App.tsx:200-246 | in every reachable state, assistant messages show typing dots by the corrected rule (`View.ShowsTypingIntended`) or the action bar, never both, always with the annotation; user messages show neither an annotation nor the action bar, nor dots by the corrected rule; as written (line 221) a user message is drawn as typing dots exactly when its text is `...` |
| Theme.Persisted | src/App.tsx:41-47 | the stored string is `"true"` exactly when the flag is set |
| Theme.EffectRun | src/App.tsx:35-48 | one run of the effect: a stored `"true"` forces the flag on, otherwise the flag is kept; the storage is overwritten with the flag the run captured, which is the old flag |
| Theme.Settle | src/App.tsx:35-48 | repeated runs stop with the storage equal to `"true"` exactly when the flag is on, at a point a further run does not change; the flag ends on exactly when it was on or `"true"` was stored |
| Theme.Mount | src/App.tsx:30-48 | at mount the flag ends on exactly when the storage held `"true"`, and the storage then agrees with the flag |
| Theme.Toggle | src/App.tsx:153 | a click as written: from light mode it always ends in dark mode; from dark mode with `"true"` stored it changes nothing |
| Theme.ToggleStaysDark | src/App.tsx:36-38 | as written, a click in dark mode with `"true"` stored leaves dark mode on and `"true"` stored |
| Theme.TogglesStayDark | src/App.tsx:36-47 | as written, no number of clicks leaves a persisted dark mode |
| Theme.DarkForeverAfterFirstToggle | src/App.tsx:35-48 | as written, after the first click the flag stays on for every later number of clicks, whatever was stored at mount |
| Theme.EffectIntended | src/App.tsx:41-47 | the corrected effect only persists: the flag is unchanged and the storage agrees with it |
| Theme.MountIntended | src/App.tsx:35-39 | the corrected mount restores the stored preference once and persists it |
| Theme.ToggleIntended | src/App.tsx:153 | a corrected click flips the flag, and the storage holds `"true"` exactly when the new flag is on |
| Theme.ToggleIntendedTwice | src/App.tsx:153 | corrected: two clicks restore both the flag and the stored value |
| Theme.TogglesIntendedParity | src/App.tsx:153 | corrected: after n clicks the flag has flipped n times and the storage agrees with it |
| Theme.AgreeExceptLeavingDark | src/App.tsx:35-48 | the written and corrected behaviour agree at mount and on a click from light mode, and differ on every click from dark mode |

## Left out

- React machinery (`useState`, `useRef`, batching, re-render scheduling). Each handler and
  each effect run is an explicit transition instead. The effect is re-run exactly when the
  flag changed.
- DOM side effects. These are `scrollIntoView` (line 52), the textarea resizing
  (lines 56-61 and 77-79) and `document.body.classList` (lines 42 and 45). They are pure
  presentation.
- The 1500 ms delay of `setTimeout`. A completion is the `TimerFired` event. Completions
  fire in the order they were scheduled. Teardown never cancels a timer.
- The clock. `Date.now()` and `new Date()` are parameters. Each message's id and timestamp
  come from one `Stamp`, although the source makes two calls next to each other. Ids are
  unbounded integers. Real `Date.now()` values stay below 2^53, so `+1` and `+2` are exact
  there too.
- `formatTime` and `toLocaleTimeString` (lines 117-119). These are locale formatting.
- Real `localStorage`. It is one `Option<string>` variable, and read or write failures
  are not modelled.
- JSX markup, CSS classes, icons, and the inert buttons (copy, like, dislike, regenerate,
  new conversation, share, settings, attachment). They have no behaviour.
- The exact Unicode version behind `trim`. The whitespace set is ECMAScript's WhiteSpace
  and LineTerminator, with the space separators of Unicode 15.
- Conversation.Fire: firing with an empty queue is a no-op. The program never produces
  that event.

## Findings

| source | as written | input that shows it | evidently intended | confidence | as-written member | corrected member |
|---|---|---|---|---|---|---|
| src/App.tsx:36-38 | the dark-mode effect re-reads the storage on every flag change and sets the flag back to true whenever `"true"` is stored | dark mode on with `"true"` stored, then one click on the toggle at line 153 | the click switches to light mode and persists `"false"`; the storage is read only at start-up | high, not executed | Theme.ToggleStaysDark | Theme.ToggleIntended |
| src/App.tsx:221 | the typing indicator is chosen by the text `...` alone, whoever sent it | the user sends the message `...` | only the assistant placeholder is drawn as typing dots, and a user message always shows its own text | medium, not executed | View.UserEllipsisShowsTyping | View.ShowsTypingIntended |
