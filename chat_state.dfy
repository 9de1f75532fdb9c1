/** The state of the chat page and one transition function per event handler.
    Every setter a handler calls is applied at once, in the order the handler
    calls it; the browser's EventSource objects are abstract handles numbered in
    creation order, and the one-second reset timers are an explicit queue. */
module ChatState {
  import opened JsString

  datatype Option<+T> = None | Some(value: T)

  /** The `type` of a chat history item. */
  datatype Role = Question | Answer

  /** One item of `chatHistory`: `{type, content}`. */
  datatype Entry = Entry(role: Role, content: string)

  /** A decoded server-sent event payload `{token, completed}`. */
  datatype Message = Message(token: string, completed: bool)

  /** An EventSource, identified by its position in creation order. */
  type SourceId = nat

  /** Everything the handlers read or write.
      - `latestCurrentLine` is `latestCurrentLineRef.current`;
      - `capturedSource[i]` is the value of the `eventSource` state variable that
        the `onmessage` and `onerror` closures of source `i` captured when they
        were created; `|capturedSource|` is the number of sources created;
      - `closed` holds the sources whose `readyState` is CLOSED;
      - `pendingResets` lists, oldest first, the source each scheduled reset
        timer will close. */
  datatype State = State(
    prompt: string,
    loading: bool,
    chatHistory: seq<Entry>,
    eventSource: Option<SourceId>,
    currentLine: string,
    completedMessageReceived: bool,
    latestCurrentLine: string,
    capturedSource: seq<Option<SourceId>>,
    closed: set<SourceId>,
    pendingResets: seq<SourceId>)

  /** The source created just before source `n` (or, for `n` sources created,
      the most recent one). */
  function LastSource(n: nat): Option<SourceId> {
    if n == 0 then None else Some(n - 1)
  }

  function AsSet(o: Option<SourceId>): set<SourceId> {
    if o.Some? then {o.value} else {}
  }

  function AsSeq(o: Option<SourceId>): seq<SourceId> {
    if o.Some? then [o.value] else []
  }

  ghost predicate IsPrefix<T>(a: seq<T>, b: seq<T>) {
    |a| <= |b| && b[..|a|] == a
  }

  /** A source that exists and has not been closed. */
  predicate IsOpen(s: State, id: SourceId) {
    id < |s.capturedSource| && id !in s.closed
  }

  /** At most one connection is live, and it is the stored one. */
  ghost predicate AtMostOneOpen(s: State) {
    forall id: SourceId :: IsOpen(s, id) ==> s.eventSource == Some(id)
  }

  /** The invariant of every reachable state. */
  ghost predicate Wf(s: State) {
    && s.eventSource == LastSource(|s.capturedSource|)
    && (forall i :: 0 <= i < |s.capturedSource| ==> s.capturedSource[i] == LastSource(i))
    && (forall id :: id in s.closed ==> id < |s.capturedSource|)
    && (forall k :: 0 <= k < |s.pendingResets| ==> s.pendingResets[k] < |s.capturedSource|)
    && AtMostOneOpen(s)
  }

  /** The state after the first render. */
  function Initial(): (r: State)
    ensures Wf(r)
    ensures r.chatHistory == [] && !r.loading && r.eventSource == None
    ensures r.currentLine == [] && r.latestCurrentLine == [] && r.pendingResets == []
  {
    State([], false, [], None, [], false, [], [], {}, [])
  }

  /** `addQuestionToChat`: the old history followed by one question. */
  function AddQuestion(history: seq<Entry>, question: string): (r: seq<Entry>)
    ensures |r| == |history| + 1 && IsPrefix(history, r)
    ensures r[|history|] == Entry(Question, question)
  {
    history + [Entry(Question, question)]
  }

  /** `addAnswerToChat`: the old history followed by one answer. */
  function AddAnswer(history: seq<Entry>, answer: string): (r: seq<Entry>)
    ensures |r| == |history| + 1 && IsPrefix(history, r)
    ensures r[|history|] == Entry(Answer, answer)
  {
    history + [Entry(Answer, answer)]
  }

  /** `handleInputChange`: only the draft changes. */
  function InputChange(s: State, value: string): (r: State)
    ensures r.prompt == value && r.(prompt := s.prompt) == s
  {
    s.(prompt := value)
  }

  /** `handleFormSubmit`. A blank draft changes nothing. Otherwise the page is
      busy, the stored source is closed, the draft and the displayed line are
      cleared (the ref buffer is not), the untrimmed draft is appended as a
      question, and a new open source, whose handlers see the previously stored
      source, becomes the stored one. */
  function Submit(s: State): (r: State)
    ensures IsBlank(s.prompt) ==> r == s
    ensures !IsBlank(s.prompt) ==>
      && r.loading && r.prompt == [] && r.currentLine == []
      && r.latestCurrentLine == s.latestCurrentLine
      && r.chatHistory == AddQuestion(s.chatHistory, s.prompt)
      && r.closed == s.closed + AsSet(s.eventSource)
      && r.eventSource == Some(|s.capturedSource|)
      && r.capturedSource == s.capturedSource + [s.eventSource]
      && r.completedMessageReceived == s.completedMessageReceived
      && r.pendingResets == s.pendingResets
  {
    if IsBlank(s.prompt) then s
    else
      s.(loading := true, closed := s.closed + AsSet(s.eventSource), currentLine := [], prompt := [],
         chatHistory := AddQuestion(s.chatHistory, s.prompt),
         capturedSource := s.capturedSource + [s.eventSource],
         eventSource := Some(|s.capturedSource|))
  }

  /** `handleStopStream`, run by a handler that sees `visible` as the stored
      source. The page stops being busy; one answer holding the untrimmed ref
      buffer is appended exactly when that buffer is not blank; a reset timer is
      scheduled exactly when `visible` is a source; nothing else changes. */
  function HandleStop(s: State, visible: Option<SourceId>): (r: State)
    ensures !r.loading
    ensures IsBlank(s.latestCurrentLine) ==> r.chatHistory == s.chatHistory
    ensures !IsBlank(s.latestCurrentLine) ==>
      r.chatHistory == AddAnswer(s.chatHistory, s.latestCurrentLine)
    ensures r.pendingResets == s.pendingResets + AsSeq(visible)
    ensures r.(loading := s.loading, chatHistory := s.chatHistory, pendingResets := s.pendingResets) == s
  {
    var history := if IsBlank(s.latestCurrentLine) then s.chatHistory
                   else AddAnswer(s.chatHistory, s.latestCurrentLine);
    s.(loading := false, chatHistory := history, pendingResets := s.pendingResets + AsSeq(visible))
  }

  /** `onmessage` of source `src`. A token is appended verbatim to both the
      displayed line and the ref buffer and nothing else changes; a completed
      message leaves both buffers alone, sets `completedMessageReceived` and then
      stops exactly as `handleStopStream` would in the render that created the
      source, which sees the source stored before it. */
  function ReceiveMessage(s: State, src: SourceId, m: Message): (r: State)
    requires src < |s.capturedSource|
    ensures !m.completed ==>
      r == s.(currentLine := s.currentLine + m.token, latestCurrentLine := s.latestCurrentLine + m.token)
    ensures m.completed ==>
      && r.currentLine == s.currentLine && r.latestCurrentLine == s.latestCurrentLine
      && r.completedMessageReceived
      && r == HandleStop(s.(completedMessageReceived := true), s.capturedSource[src])
  {
    if m.completed then
      HandleStop(s.(completedMessageReceived := true), s.capturedSource[src])
    else
      s.(currentLine := s.currentLine + m.token, latestCurrentLine := s.latestCurrentLine + m.token)
  }

  /** The guard of `onerror`: the source stored before `src` was created exists
      and is closed. */
  predicate ErrorSuppressed(s: State, src: SourceId)
    requires src < |s.capturedSource|
  {
    s.capturedSource[src].Some? && s.capturedSource[src].value in s.closed
  }

  /** `onerror` of source `src`. A suppressed error changes nothing; any other
      error closes `src` and clears `loading`, and leaves the history, the
      buffers and everything else as they were. */
  function TransportError(s: State, src: SourceId): (r: State)
    requires src < |s.capturedSource|
    ensures ErrorSuppressed(s, src) ==> r == s
    ensures !ErrorSuppressed(s, src) ==>
      && r.closed == s.closed + {src} && !r.loading
      && r.(closed := s.closed, loading := s.loading) == s
  {
    if ErrorSuppressed(s, src) then s
    else s.(closed := s.closed + {src}, loading := false)
  }

  /** The oldest reset timer fires: both buffers are emptied and the source the
      timer captured is closed; the history is untouched. */
  function TimerFire(s: State): (r: State)
    requires |s.pendingResets| > 0
    ensures r.currentLine == [] && r.latestCurrentLine == []
    ensures r.closed == s.closed + {s.pendingResets[0]}
    ensures r.pendingResets == s.pendingResets[1..]
    ensures r.(currentLine := s.currentLine, latestCurrentLine := s.latestCurrentLine,
               closed := s.closed, pendingResets := s.pendingResets) == s
  {
    s.(currentLine := [], latestCurrentLine := [], closed := s.closed + {s.pendingResets[0]},
       pendingResets := s.pendingResets[1..])
  }

  /** The events the browser delivers to the page, one at a time. */
  datatype Event =
    | Typed(value: string)
    | Submitted
    | StopClicked
    | MessageArrived(src: SourceId, msg: Message)
    | ErrorArrived(src: SourceId)
    | TimerFired

  /** The browser dispatches no event on a closed EventSource, and a timer fires
      only when one is scheduled. */
  predicate Enabled(s: State, e: Event) {
    match e
    case MessageArrived(src, _) => IsOpen(s, src)
    case ErrorArrived(src) => IsOpen(s, src)
    case TimerFired => |s.pendingResets| > 0
    case _ => true
  }

  /** One turn of the event loop; an event that cannot be delivered is not.
      The Stop button is bound to the `handleStopStream` of the latest render,
      so it sees the stored source. No event edits or removes a history entry,
      and each appends at most one. */
  function Step(s: State, e: Event): (r: State)
    ensures !Enabled(s, e) ==> r == s
    ensures e == StopClicked ==> r == HandleStop(s, s.eventSource)
    ensures IsPrefix(s.chatHistory, r.chatHistory)
    ensures |r.chatHistory| <= |s.chatHistory| + 1
  {
    if !Enabled(s, e) then s
    else
      match e
      case Typed(value) => InputChange(s, value)
      case Submitted => Submit(s)
      case StopClicked => HandleStop(s, s.eventSource)  // the latest render sees the stored source
      case MessageArrived(src, m) => ReceiveMessage(s, src, m)
      case ErrorArrived(src) => TransportError(s, src)
      case TimerFired => TimerFire(s)
  }

  /** The state after a sequence of events, delivered in order. */
  function Run(s: State, es: seq<Event>): State
    decreases |es|
  {
    if es == [] then s else Run(Step(s, es[0]), es[1..])
  }

  /** The history only ever grows at its end, by at most one entry per event. */
  lemma {:induction false} RunOnlyAppends(s: State, es: seq<Event>)
    ensures IsPrefix(s.chatHistory, Run(s, es).chatHistory)
    ensures |Run(s, es).chatHistory| <= |s.chatHistory| + |es|
    decreases |es|
  {
    if es != [] {
      var s1 := Step(s, es[0]);
      RunOnlyAppends(s1, es[1..]);
      var h := Run(s, es).chatHistory;
      assert h[..|s.chatHistory|] == h[..|s1.chatHistory|][..|s.chatHistory|];
    }
  }

  /** Submit keeps the invariant, and the source it creates is open. */
  lemma SubmitKeepsWf(s: State)
    requires Wf(s)
    ensures Wf(Submit(s))
    ensures !IsBlank(s.prompt) ==> IsOpen(Submit(s), |s.capturedSource|)
  {
    if !IsBlank(s.prompt) {
      var r := Submit(s);
      forall id: SourceId | IsOpen(r, id) ensures r.eventSource == Some(id) {
        if id < |s.capturedSource| {
          assert IsOpen(s, id);
        }
      }
    }
  }

  /** Stop keeps the invariant when the source it sees exists. */
  lemma HandleStopKeepsWf(s: State, visible: Option<SourceId>)
    requires Wf(s) && (visible.Some? ==> visible.value < |s.capturedSource|)
    ensures Wf(HandleStop(s, visible))
  {
  }

  lemma ReceiveMessageKeepsWf(s: State, src: SourceId, m: Message)
    requires Wf(s) && src < |s.capturedSource|
    ensures Wf(ReceiveMessage(s, src, m))
  {
    if m.completed {
      HandleStopKeepsWf(s.(completedMessageReceived := true), s.capturedSource[src]);
    }
  }

  lemma TransportErrorKeepsWf(s: State, src: SourceId)
    requires Wf(s) && src < |s.capturedSource|
    ensures Wf(TransportError(s, src))
  {
  }

  lemma TimerFireKeepsWf(s: State)
    requires Wf(s) && |s.pendingResets| > 0
    ensures Wf(TimerFire(s))
  {
  }

  /** Every turn of the event loop keeps the invariant. */
  lemma StepKeepsWf(s: State, e: Event)
    requires Wf(s)
    ensures Wf(Step(s, e))
  {
    if Enabled(s, e) {
      match e
      case Typed(value) =>
      case Submitted => SubmitKeepsWf(s);
      case StopClicked => HandleStopKeepsWf(s, s.eventSource);
      case MessageArrived(src, m) => ReceiveMessageKeepsWf(s, src, m);
      case ErrorArrived(src) => TransportErrorKeepsWf(s, src);
      case TimerFired => TimerFireKeepsWf(s);
    }
  }

  /** Every state reached by a sequence of events keeps the invariant. */
  lemma {:induction false} RunKeepsWf(s: State, es: seq<Event>)
    requires Wf(s)
    ensures Wf(Run(s, es))
    decreases |es|
  {
    if es != [] {
      StepKeepsWf(s, es[0]);
      RunKeepsWf(Step(s, es[0]), es[1..]);
    }
  }
}
