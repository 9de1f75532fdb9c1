# Chat streaming state machine

This project models the chat page of the frontend (`frontend/src/App.jsx`).
The user types a draft and submits it as a question. The page opens a
server-sent event stream for the answer and shows the tokens as they arrive.
The answer is committed to the conversation history when the stream reports
completion or when the user presses Stop. Stopping may schedule a one-second
timer that clears the buffers and closes the EventSource that the stopping
handler sees as stored. Which source that is, and whether there is one at
all, depends on the handler (see below).

The project has four modules:

- `JsString` (`js_string.dfy`) models `String.prototype.trim` over the
  ECMAScript whitespace and line-terminator characters. The handlers use it
  only to ask whether a text is blank.
- `ChatState` (`chat_state.dfy`) holds the page state as a value and defines
  one transition function per handler. It also defines `Step`, which delivers
  one browser event, and `Run`, which delivers a sequence of them. It proves
  that every reachable state keeps the invariant `Wf`:
  - at most one EventSource is open, and it is the stored one;
  - the handlers of each source captured the source stored before it.
- `ChatApp` (`chat_app.dfy`) is the `App` component as a class. Its fields are
  the state variables and the ref. Each handler is a method that updates the
  fields in the order the JavaScript calls its setters. Each handler method is
  proved to keep `Valid` and to produce exactly the state its `ChatState`
  function describes. `AddQuestionToChat` and `AddAnswerToChat` run in the
  middle of a handler, so they are specified by the history they produce
  alone and touch no other field.
- `ChatTraces` (`chat_traces.dfy`) states properties of whole event
  sequences:
  - tokens accumulate verbatim;
  - a finished stream commits the ref buffer;
  - the invariant holds in every reachable state;
  - concrete runs show how the handlers behave as written.

State and events are modelled as follows:

- EventSources are numbered in creation order.
- `closed` is the set of sources whose `readyState` is CLOSED.
- `capturedSource[i]` is the value of the `eventSource` state variable as the
  `onmessage` and `onerror` closures of source `i` saw it. A closure sees the
  render in which it was created, so this is the source stored before `i`.
- The completed-message path runs `handleStopStream` with that captured
  source. The Stop button runs it with the currently stored source.
- Each `setTimeout` schedules a pending reset that records the source it will
  close. Every delay is the same 1000 ms, so the resets fire in the order they
  were scheduled. The model therefore keeps them as a queue, `pendingResets`,
  and `TimerFired` fires the oldest one.

### Behaviours of the code as written

The model follows the code. Five behaviours of the handlers are easy to
miss when reading them, and a lemma in `ChatTraces` states each one:

- **Stop has no "already idle" guard.** `handleStopStream`
  (frontend/src/App.jsx:96-116) commits the ref buffer whenever it is not
  blank. So two presses of Stop before the reset timer fires commit the same
  answer twice (`StopTwiceCommitsTwice`, `CountStoppedTwice`). One might
  expect a second stop on an idle page to do nothing.
- **Tokens after Stop are still used.** Stop does not close the source; only
  the timer does. A token that arrives in between is still appended to both
  buffers (`TokenAfterStopIsAppended`). One might expect tokens to stop once
  Stop is pressed.
- **The ref buffer outlives the exchange.** Submit clears `currentLine`
  (frontend/src/App.jsx:57) but not the ref buffer, which only the timer
  empties. The comment at frontend/src/App.jsx:113 says the buffer is reset
  "after using it".
  - The completion of the first stream schedules no timer, because its
    handlers saw no stored source. So the first answer stays in the ref
    buffer.
  - The second answer is therefore the first answer followed by the new
    tokens (`FirstExchangeKeepsAnswer`, `SecondAnswerRepeatsFirst`).
- **The completion timer closes the previous source.** The `handleStopStream`
  a completed message calls is the one of the render that created the
  source, and that render stored the source created before it. So the timer
  closes that earlier source, never the one that completed
  (`CompletionNeverClosesItsOwnSource`).
- **Only the first source's errors are reported.** The comment at
  frontend/src/App.jsx:83 says the guard ignores errors on a connection that
  was closed intentionally. The guard at frontend/src/App.jsx:84 looks at the
  source stored before the new one, and submit closed that source at
  frontend/src/App.jsx:54. So every error on any source after the first is
  suppressed, whether or not it followed an intentional close, while errors
  on the first source never are (`ErrorSuppressedIffNotFirst`).

## Model

| member | source | states |
|---|---|---|
| JsString.IsBlank | frontend/src/App.jsx:47 | the test `!prompt.trim()` (and `trim() !== ''` at line 105): every character is ECMAScript whitespace or a line terminator; `Trim` proves the two agree |
| JsString.Trim | frontend/src/App.jsx:47 | `trim` returns a slice of the text with only whitespace before and after it; that slice is the empty, falsy string exactly when the text is all whitespace, and otherwise neither starts nor ends with whitespace |
| JsString.TrimStartIsLongestSuffix | frontend/src/App.jsx:105 | stripping leading whitespace leaves a suffix that does not start with whitespace, and everything removed is whitespace |
| JsString.TrimEndIsLongestPrefix | frontend/src/App.jsx:105 | stripping trailing whitespace leaves a prefix that does not end with whitespace, and everything removed is whitespace |
| ChatState.Initial | frontend/src/App.jsx:7-14 | the first render has an empty history and empty buffers, is not loading, has no source and no pending reset, and satisfies the invariant |
| ChatState.InputChange | frontend/src/App.jsx:24-26 | typing replaces the draft and changes nothing else |
| ChatState.AddQuestion | frontend/src/App.jsx:28-33 | the history grows by exactly one entry, a question with the given content, and the old history is kept as a prefix |
| ChatState.AddAnswer | frontend/src/App.jsx:35-41 | the history grows by exactly one entry, an answer with the given content, and the old history is kept as a prefix |
| ChatState.Submit | frontend/src/App.jsx:43-94 | a blank draft changes nothing. Otherwise: the page is loading; the stored source is closed; the draft and `currentLine` are emptied; the ref buffer is kept; the untrimmed draft is appended as a question; a new source becomes the stored one and its handlers see the old source; nothing else changes |
| ChatState.HandleStop | frontend/src/App.jsx:96-117 | loading stops; one answer holding the untrimmed ref buffer is appended if and only if the buffer is not blank; a reset is queued if and only if the handler sees a source; nothing else changes |
| ChatState.ReceiveMessage | frontend/src/App.jsx:68-80 | a token is appended verbatim to both buffers and nothing else changes; a completed message leaves both buffers alone, sets `completedMessageReceived` and then acts as stop with the source the closure captured |
| ChatState.TransportError | frontend/src/App.jsx:82-91 | a suppressed error changes nothing; any other error closes the erroring source and stops loading, and leaves the history and buffers as they were |
| ChatState.ErrorSuppressed | frontend/src/App.jsx:84 | the `onerror` guard: the source the closure captured exists and is closed |
| ChatState.TimerFire | frontend/src/App.jsx:110-116 | the oldest pending reset empties both buffers, closes the source it recorded and leaves the queue; the history is untouched |
| ChatState.Step | frontend/src/App.jsx:43-117 | one turn of the event loop: Stop runs `handleStopStream` with the stored source (the button at line 200); no event edits or removes a history entry, and each appends at most one; an event the browser would not deliver (on a closed or unknown source, or a timer with none pending) changes nothing |
| ChatState.RunOnlyAppends | frontend/src/App.jsx:28-41 | over any sequence of events the old history stays a prefix, and it grows by at most one entry per event |
| ChatState.SubmitKeepsWf | frontend/src/App.jsx:53-66 | closing the stored source before opening the new one keeps at most one source open, and the new source is open |
| ChatState.HandleStopKeepsWf | frontend/src/App.jsx:96-117 | stop keeps the invariant |
| ChatState.ReceiveMessageKeepsWf | frontend/src/App.jsx:68-80 | a message keeps the invariant |
| ChatState.TransportErrorKeepsWf | frontend/src/App.jsx:82-91 | an error keeps the invariant |
| ChatState.TimerFireKeepsWf | frontend/src/App.jsx:110-116 | a reset keeps the invariant |
| ChatState.StepKeepsWf | frontend/src/App.jsx:43-117 | every event keeps the invariant |
| ChatState.RunKeepsWf | frontend/src/App.jsx:43-117 | every sequence of events keeps the invariant |
| ChatApp.App.constructor | frontend/src/App.jsx:7-14 | the fields start at the initial state and are valid |
| ChatApp.App.HandleInputChange | frontend/src/App.jsx:24-26 | keeps `Valid`, and the new state is `InputChange` of the old one |
| ChatApp.App.AddQuestionToChat | frontend/src/App.jsx:28-33 | the history becomes `AddQuestion` of the old history, and no other field changes |
| ChatApp.App.AddAnswerToChat | frontend/src/App.jsx:35-41 | the history becomes `AddAnswer` of the old history, and no other field changes |
| ChatApp.App.HandleFormSubmit | frontend/src/App.jsx:43-94 | keeps `Valid`, and the new state is `Submit` of the old one |
| ChatApp.App.HandleStopStream | frontend/src/App.jsx:96-117 | keeps `Valid`, and the new state is `HandleStop` of the old one with the source the calling render sees |
| ChatApp.App.StopClicked | frontend/src/App.jsx:200 | the Stop button runs stop with the currently stored source |
| ChatApp.App.OnMessage | frontend/src/App.jsx:68-80 | keeps `Valid`, and the new state is `ReceiveMessage` of the old one |
| ChatApp.App.OnError | frontend/src/App.jsx:82-91 | keeps `Valid`, and the new state is `TransportError` of the old one |
| ChatApp.App.OnTimer | frontend/src/App.jsx:111-115 | keeps `Valid`, and the new state is `TimerFire` of the old one |
| ChatTraces.TokensAccumulate | frontend/src/App.jsx:76-79 | after tokens t1..tn on an open source, both buffers are their old content followed by t1+...+tn, and nothing else changes |
| ChatTraces.StreamCommitsTokens | frontend/src/App.jsx:68-107 | tokens then completion: the page is idle; the ref buffer holds its old content followed by the tokens; it is committed as one answer if and only if it is not blank; a reset is queued only if the closure captured a source |
| ChatTraces.StreamAnswerIsConcatenation | frontend/src/App.jsx:76-107 | with an empty ref buffer, the committed answer is exactly the tokens joined in delivery order |
| ChatTraces.ReachableHasAtMostOneOpen | frontend/src/App.jsx:53-93 | in every state reachable from the first render, every open source is the stored one |
| ChatTraces.ErrorSuppressedIffNotFirst | frontend/src/App.jsx:84-86 | an error on a source is suppressed if and only if that source is not the first one created |
| ChatTraces.CompletionNeverClosesItsOwnSource | frontend/src/App.jsx:110-114 | the reset queued by a completed message closes the source created before the completing one, never the completing one itself |
| ChatTraces.StopTwiceCommitsTwice | frontend/src/App.jsx:96-107 | two stops in a row with a non-blank ref buffer append that buffer twice |
| ChatTraces.TokenAfterStopIsAppended | frontend/src/App.jsx:76-79 | a token that arrives after Stop and before the reset is still appended to both buffers |
| ChatTraces.TypeAndSubmit | frontend/src/App.jsx:24-60 | typing a draft and submitting it is the submit of that draft |
| ChatTraces.ExchangeCommitsBufferAndTokens | frontend/src/App.jsx:57-107 | a whole exchange appends the untrimmed question and, as the answer, the previous ref buffer followed by the tokens |
| ChatTraces.FirstExchangeKeepsAnswer | frontend/src/App.jsx:110-116 | after the first exchange: the history is the question and the joined tokens; no reset is pending; the ref buffer still holds the answer |
| ChatTraces.SecondAnswerRepeatsFirst | frontend/src/App.jsx:78 | the second exchange commits the first answer followed by its own tokens as one answer |
| ChatTraces.HelloExchange | frontend/src/App.jsx:43-117 | "Hello", then tokens "Hi" and " there", then completion, gives the history [Q "Hello", A "Hi there"] with the page idle |
| ChatTraces.StreamStoppedTwice | frontend/src/App.jsx:96-107 | tokens then two stops commit the ref buffer twice |
| ChatTraces.ExchangeStoppedTwice | frontend/src/App.jsx:96-107 | a whole exchange stopped twice appends the question and the same answer twice |
| ChatTraces.CountStoppedTwice | frontend/src/App.jsx:96-107 | "Count", then tokens "1" and "2", then two stops, gives [Q "Count", A "12", A "12"] |
| ChatTraces.BlankSubmitChangesNothing | frontend/src/App.jsx:47-49 | submitting a draft of only spaces, tabs and newlines changes nothing |

## Left out

- JSX rendering and `formatResponseText` (frontend/src/App.jsx:119-208) are presentation. Only the Stop button's binding to `handleStopStream` is modelled (`StopClicked`).
- `disabled={loading}` on the Send button is left out. `Submitted` is enabled in every state, so the model also allows submits that the disabled button would block. Every property above holds for these extra runs too.
- Constructing the `EventSource` is left out: the URL, the port and `encodeURIComponent` of the prompt (frontend/src/App.jsx:64-66). A source is an abstract handle that is open or closed.
- The browser's automatic reconnection and any `readyState` change other than `close()` are left out. A source is open until a handler or a timer closes it.
- `JSON.parse` of `event.data` (frontend/src/App.jsx:70) is left out. Handlers receive already-decoded `{token, completed}` records, so malformed payloads are not modelled.
- The `useEffect` cleanup (frontend/src/App.jsx:16-22) is left out. When the stored source changes, the cleanup closes a source that submit has already closed. The unmount case is not modelled: there, the cleanup would close the stored source, which no handler may ever close.
- React's render scheduling and setter batching are left out. Each setter takes effect at once, in the order the handler calls it. The one stale-closure effect that changes behaviour is kept explicitly as `capturedSource`.
- The 1000 ms delay is left out. Only the order of pending resets is kept, so a reset never races a later one.
- `console.log` and `console.error` calls are left out.
- Strings are sequences of Unicode scalar values (Dafny `char`), not UTF-16 code units as in JavaScript. A token holding half a surrogate pair, which `JSON.parse` of `"\ud83d"` can produce, has no counterpart in the model.
