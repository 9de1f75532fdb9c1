/** The `App` component as an object: its state variables and its ref are
    fields, and each handler is a method that updates them in the order the
    handler calls its setters. Each method is specified by the transition
    function of `ChatState` it implements. */
module ChatApp {
  import opened JsString
  import opened ChatState

  class App {
    var prompt: string
    var loading: bool
    var chatHistory: seq<Entry>
    var eventSource: Option<SourceId>
    var currentLine: string
    var completedMessageReceived: bool
    /** `latestCurrentLineRef.current` */
    var latestCurrentLine: string
    /** For each EventSource created so far, the stored source its handlers captured. */
    var capturedSource: seq<Option<SourceId>>
    /** The EventSources whose `readyState` is CLOSED. */
    var closed: set<SourceId>
    /** The sources the scheduled reset timers will close, oldest first. */
    var pendingResets: seq<SourceId>

    ghost function Snapshot(): State
      reads this
    {
      State(prompt, loading, chatHistory, eventSource, currentLine, completedMessageReceived,
            latestCurrentLine, capturedSource, closed, pendingResets)
    }

    ghost predicate Valid()
      reads this
    {
      Wf(Snapshot())
    }

    /** The first render: every `useState` and `useRef` at its initial value. */
    constructor ()
      ensures Valid() && Snapshot() == Initial()
    {
      prompt, loading, chatHistory, eventSource := [], false, [], None;
      currentLine, completedMessageReceived, latestCurrentLine := [], false, [];
      capturedSource, closed, pendingResets := [], {}, [];
    }

    /** `handleInputChange`: the draft becomes the input's value. */
    method HandleInputChange(value: string)
      requires Valid()
      modifies this
      ensures Valid() && Snapshot() == InputChange(old(Snapshot()), value)
    {
      prompt := value;
    }

    /** `addQuestionToChat` */
    method AddQuestionToChat(question: string)
      modifies this`chatHistory
      ensures chatHistory == AddQuestion(old(chatHistory), question)
    {
      chatHistory := chatHistory + [Entry(Question, question)];
    }

    /** `addAnswerToChat` */
    method AddAnswerToChat(answer: string)
      modifies this`chatHistory
      ensures chatHistory == AddAnswer(old(chatHistory), answer)
    {
      chatHistory := chatHistory + [Entry(Answer, answer)];
    }

    /** `handleFormSubmit`. The question recorded is the draft as it was when the
        form was submitted, before `setPrompt('')`. */
    method HandleFormSubmit()
      requires Valid()
      modifies this
      ensures Valid() && Snapshot() == Submit(old(Snapshot()))
    {
      SubmitKeepsWf(Snapshot());
      ghost var before := Snapshot();
      if IsBlank(prompt) {
        return;
      }
      loading := true;
      if eventSource.Some? {
        closed := closed + {eventSource.value};
      }
      currentLine := [];
      var question := prompt;
      prompt := [];
      AddQuestionToChat(question);
      // new EventSource(...); its onmessage and onerror closures see the
      // eventSource of this render
      var newEventSource := |capturedSource|;
      capturedSource := capturedSource + [eventSource];
      eventSource := Some(newEventSource);
      assert Snapshot() == before.(loading := true, closed := before.closed + AsSet(before.eventSource),
                                   currentLine := [], prompt := [],
                                   chatHistory := AddQuestion(before.chatHistory, before.prompt),
                                   capturedSource := before.capturedSource + [before.eventSource],
                                   eventSource := Some(|before.capturedSource|));
    }

    /** `handleStopStream` as seen by a handler whose render stored `visible`. */
    method HandleStopStream(visible: Option<SourceId>)
      requires Valid()
      requires visible.Some? ==> visible.value < |capturedSource|
      modifies this
      ensures Valid() && Snapshot() == HandleStop(old(Snapshot()), visible)
    {
      HandleStopKeepsWf(Snapshot(), visible);
      loading := false;
      if !IsBlank(latestCurrentLine) {
        AddAnswerToChat(latestCurrentLine);
      }
      if visible.Some? {
        pendingResets := pendingResets + [visible.value];
      }
    }

    /** The Stop button, bound to the `handleStopStream` of the latest render. */
    method StopClicked()
      requires Valid()
      modifies this
      ensures Valid() && Snapshot() == HandleStop(old(Snapshot()), old(eventSource))
    {
      HandleStopStream(eventSource);
    }

    /** `onmessage` of source `src`, with `JSON.parse` already applied. */
    method OnMessage(src: SourceId, message: Message)
      requires Valid() && IsOpen(Snapshot(), src)
      modifies this
      ensures Valid() && Snapshot() == ReceiveMessage(old(Snapshot()), src, message)
    {
      ReceiveMessageKeepsWf(Snapshot(), src, message);
      if message.completed {
        completedMessageReceived := true;
        HandleStopStream(capturedSource[src]);
      } else {
        currentLine := currentLine + message.token;
        latestCurrentLine := latestCurrentLine + message.token;
      }
    }

    /** `onerror` of source `src`; the guard reads the captured stored source. */
    method OnError(src: SourceId)
      requires Valid() && IsOpen(Snapshot(), src)
      modifies this
      ensures Valid() && Snapshot() == TransportError(old(Snapshot()), src)
    {
      TransportErrorKeepsWf(Snapshot(), src);
      var seen := capturedSource[src];
      if seen.Some? && seen.value in closed {
        return;
      }
      closed := closed + {src};
      loading := false;
    }

    /** The body of the oldest pending `setTimeout(..., 1000)`. */
    method OnTimer()
      requires Valid() && |pendingResets| > 0
      modifies this
      ensures Valid() && Snapshot() == TimerFire(old(Snapshot()))
    {
      TimerFireKeepsWf(Snapshot());
      var source := pendingResets[0];
      pendingResets := pendingResets[1..];
      currentLine := [];
      latestCurrentLine := [];
      closed := closed + {source};
    }
  }
}
