/** Properties of whole event sequences: how tokens accumulate, what a
    completed stream commits, and the behaviours of the handlers as written in
    concrete runs. */
module ChatTraces {
  import opened JsString
  import opened ChatState

  /** The tokens joined in delivery order, with nothing between them. */
  function Concat(tokens: seq<string>): string {
    if tokens == [] then [] else tokens[0] + Concat(tokens[1..])
  }

  /** One non-final message on `src` per token, in order. */
  function TokenEvents(src: SourceId, tokens: seq<string>): (es: seq<Event>)
    ensures |es| == |tokens|
    ensures forall i :: 0 <= i < |tokens| ==> es[i] == MessageArrived(src, Message(tokens[i], false))
  {
    if tokens == [] then []
    else [MessageArrived(src, Message(tokens[0], false))] + TokenEvents(src, tokens[1..])
  }

  /** Running two event sequences one after the other is running their
      concatenation. */
  lemma {:induction false} RunAppend(s: State, a: seq<Event>, b: seq<Event>)
    ensures Run(s, a + b) == Run(Run(s, a), b)
    decreases |a|
  {
    if a == [] {
      assert a + b == b;
    } else {
      assert (a + b)[0] == a[0];
      assert (a + b)[1..] == a[1..] + b;
      RunAppend(Step(s, a[0]), a[1..], b);
    }
  }

  /** While `src` is open, its tokens t1..tn leave both buffers extended by
      t1 + ... + tn and change nothing else. */
  lemma {:induction false} TokensAccumulate(s: State, src: SourceId, tokens: seq<string>)
    requires IsOpen(s, src)
    ensures Run(s, TokenEvents(src, tokens)) ==
      s.(currentLine := s.currentLine + Concat(tokens),
         latestCurrentLine := s.latestCurrentLine + Concat(tokens))
    decreases |tokens|
  {
    if tokens == [] {
      assert s.currentLine + [] == s.currentLine;
      assert s.latestCurrentLine + [] == s.latestCurrentLine;
    } else {
      var es := TokenEvents(src, tokens);
      var s1 := Step(s, es[0]);
      assert es[1..] == TokenEvents(src, tokens[1..]);
      TokensAccumulate(s1, src, tokens[1..]);
      assert s.currentLine + tokens[0] + Concat(tokens[1..]) == s.currentLine + Concat(tokens);
      assert s.latestCurrentLine + tokens[0] + Concat(tokens[1..]) == s.latestCurrentLine + Concat(tokens);
    }
  }

  /** Tokens followed by the completed message on `src`: the page is idle and
      one answer is committed exactly when the ref buffer, which is its old
      content followed by the tokens, is not blank; that answer is that whole
      buffer. A reset is scheduled only if the handlers of `src` saw a source. */
  lemma StreamCommitsTokens(s: State, src: SourceId, tokens: seq<string>, last: string)
    requires IsOpen(s, src)
    ensures var r := Run(s, TokenEvents(src, tokens) + [MessageArrived(src, Message(last, true))]);
      var answer := s.latestCurrentLine + Concat(tokens);
      && !r.loading && r.completedMessageReceived
      && r.latestCurrentLine == answer
      && (!IsBlank(answer) ==> r.chatHistory == AddAnswer(s.chatHistory, answer))
      && (IsBlank(answer) ==> r.chatHistory == s.chatHistory)
      && r.pendingResets == s.pendingResets + AsSeq(s.capturedSource[src])
      && r.capturedSource == s.capturedSource
  {
    var es := TokenEvents(src, tokens);
    var done := [MessageArrived(src, Message(last, true))];
    RunAppend(s, es, done);
    TokensAccumulate(s, src, tokens);
    var mid := Run(s, es);
    assert IsOpen(mid, src);
    assert Run(mid, done) == Step(mid, done[0]);
  }

  /** With a fresh ref buffer, the committed answer is exactly the tokens
      joined in delivery order. */
  lemma StreamAnswerIsConcatenation(s: State, src: SourceId, tokens: seq<string>, last: string)
    requires IsOpen(s, src) && s.latestCurrentLine == []
    requires !IsBlank(Concat(tokens))
    ensures Run(s, TokenEvents(src, tokens) + [MessageArrived(src, Message(last, true))]).chatHistory
      == s.chatHistory + [Entry(Answer, Concat(tokens))]
  {
    StreamCommitsTokens(s, src, tokens, last);
    assert s.latestCurrentLine + Concat(tokens) == Concat(tokens);
  }

  /** Every state the page can reach keeps the invariant: at most one source is
      open, and it is the stored one. */
  lemma ReachableHasAtMostOneOpen(es: seq<Event>)
    ensures Wf(Run(Initial(), es))
    ensures forall id: SourceId :: IsOpen(Run(Initial(), es), id) ==> Run(Initial(), es).eventSource == Some(id)
  {
    RunKeepsWf(Initial(), es);
  }

  /** The error guard looks at the source stored before `src`, which Submit
      closed when it created `src`: every error on a source after the first is
      suppressed, and only the first source's errors reach the handler body. */
  lemma {:induction false} ErrorSuppressedIffNotFirst(s: State, src: SourceId)
    requires Wf(s) && src < |s.capturedSource|
    ensures ErrorSuppressed(s, src) <==> src > 0
    ensures src > 0 ==> TransportError(s, src) == s
  {
    if src > 0 {
      assert s.capturedSource[src] == Some(src - 1);
      assert !IsOpen(s, src - 1);
    } else {
      assert s.capturedSource[0] == None;
    }
  }

  /** The completed message of `src` schedules, at most, the closing of the
      source created before it, never of `src` itself. */
  lemma CompletionNeverClosesItsOwnSource(s: State, src: SourceId, m: Message)
    requires Wf(s) && src < |s.capturedSource| && m.completed
    ensures ReceiveMessage(s, src, m).pendingResets == s.pendingResets + AsSeq(LastSource(src))
    ensures src !in AsSeq(LastSource(src))
  {
  }

  /** Stop has no "already stopped" guard: two stops in a row with a non-blank
      ref buffer commit that buffer twice. */
  lemma {:induction false} StopTwiceCommitsTwice(s: State)
    requires !IsBlank(s.latestCurrentLine)
    ensures Run(s, [StopClicked, StopClicked]).chatHistory
      == s.chatHistory + [Entry(Answer, s.latestCurrentLine), Entry(Answer, s.latestCurrentLine)]
  {
    var s1 := Step(s, StopClicked);
    assert [StopClicked, StopClicked][1..] == [StopClicked];
    assert Run(s1, [StopClicked]) == Step(s1, StopClicked);
  }

  /** A token that arrives after Stop but before the reset timer fires is still
      appended, since Stop leaves the source open until then. */
  lemma TokenAfterStopIsAppended(s: State, t: string)
    requires Wf(s) && s.eventSource.Some? && IsOpen(s, s.eventSource.value)
    ensures var r := Run(s, [StopClicked, MessageArrived(s.eventSource.value, Message(t, false))]);
      r.latestCurrentLine == s.latestCurrentLine + t && r.currentLine == s.currentLine + t
  {
    var src := s.eventSource.value;
    var es := [StopClicked, MessageArrived(src, Message(t, false))];
    var s1 := Step(s, StopClicked);
    assert IsOpen(s1, src);
    var s2 := Step(s1, es[1]);
    assert Run(s1, es[1..]) == Run(s2, es[2..]);
  }

  /** Typing a draft and submitting it is the submit of that draft. */
  lemma TypeAndSubmit(s: State, prompt: string)
    ensures Run(s, [Typed(prompt), Submitted]) == Submit(s.(prompt := prompt))
  {
    var es := [Typed(prompt), Submitted];
    var s1 := Step(s, es[0]);
    assert Run(s1, es[1..]) == Run(Step(s1, es[1]), es[2..]);
  }

  /** One whole exchange from a state `s`: draft, submit, tokens on the new
      source, completion. The question is the untrimmed draft, and the answer
      committed is the ref buffer as Submit left it, which is the buffer of `s`
      followed by the tokens, not the tokens alone. */
  lemma ExchangeCommitsBufferAndTokens(s: State, prompt: string, tokens: seq<string>, last: string)
    requires Wf(s) && !IsBlank(prompt)
    requires !IsBlank(s.latestCurrentLine + Concat(tokens))
    ensures var src := |s.capturedSource|;
      var r := Run(s, [Typed(prompt), Submitted]
                      + (TokenEvents(src, tokens) + [MessageArrived(src, Message(last, true))]));
      && r.chatHistory == s.chatHistory + [Entry(Question, prompt),
                                           Entry(Answer, s.latestCurrentLine + Concat(tokens))]
      && !r.loading
      && r.latestCurrentLine == s.latestCurrentLine + Concat(tokens)
      && r.pendingResets == s.pendingResets + AsSeq(s.eventSource)
      && |r.capturedSource| == |s.capturedSource| + 1
  {
    var src := |s.capturedSource|;
    var rest := TokenEvents(src, tokens) + [MessageArrived(src, Message(last, true))];
    var s2 := Submit(s.(prompt := prompt));
    assert Run(s, [Typed(prompt), Submitted] + rest) == Run(s2, rest) by {
      RunAppend(s, [Typed(prompt), Submitted], rest);
      TypeAndSubmit(s, prompt);
    }
    SubmitKeepsWf(s.(prompt := prompt));
    StreamCommitsTokens(s2, src, tokens, last);
  }

  /** The first exchange after the page loads: the history is the question and
      the joined tokens, the page is idle, and, because the handlers of the
      first source saw no stored source, no reset is pending and the ref buffer
      still holds the answer. */
  lemma FirstExchangeKeepsAnswer(prompt: string, tokens: seq<string>, last: string)
    requires !IsBlank(prompt) && !IsBlank(Concat(tokens))
    ensures var r := Run(Initial(), [Typed(prompt), Submitted]
                                    + (TokenEvents(0, tokens) + [MessageArrived(0, Message(last, true))]));
      && r.chatHistory == [Entry(Question, prompt), Entry(Answer, Concat(tokens))]
      && !r.loading && r.pendingResets == [] && r.latestCurrentLine == Concat(tokens)
      && Wf(r) && |r.capturedSource| == 1
  {
    var s := Initial();
    assert s.latestCurrentLine + Concat(tokens) == Concat(tokens);
    ExchangeCommitsBufferAndTokens(s, prompt, tokens, last);
    RunKeepsWf(s, [Typed(prompt), Submitted]
                  + (TokenEvents(0, tokens) + [MessageArrived(0, Message(last, true))]));
  }

  /** The second exchange after the page loads commits the first answer
      followed by its own tokens as one answer. */
  lemma SecondAnswerRepeatsFirst(p1: string, t1: seq<string>, p2: string, t2: seq<string>, last: string)
    requires !IsBlank(p1) && !IsBlank(Concat(t1)) && !IsBlank(p2)
    ensures var first := [Typed(p1), Submitted]
                         + (TokenEvents(0, t1) + [MessageArrived(0, Message(last, true))]);
      var second := [Typed(p2), Submitted]
                    + (TokenEvents(1, t2) + [MessageArrived(1, Message(last, true))]);
      Run(Initial(), first + second).chatHistory
        == [Entry(Question, p1), Entry(Answer, Concat(t1)),
            Entry(Question, p2), Entry(Answer, Concat(t1) + Concat(t2))]
  {
    var first := [Typed(p1), Submitted] + (TokenEvents(0, t1) + [MessageArrived(0, Message(last, true))]);
    var second := [Typed(p2), Submitted] + (TokenEvents(1, t2) + [MessageArrived(1, Message(last, true))]);
    FirstExchangeKeepsAnswer(p1, t1, last);
    RunAppend(Initial(), first, second);
    var s := Run(Initial(), first);
    assert !IsBlank(Concat(t1) + Concat(t2)) by {
      NotBlankPrefix(Concat(t1), Concat(t2));
    }
    ExchangeCommitsBufferAndTokens(s, p2, t2, last);
  }

  /** Submitting "Hello" and receiving "Hi", " there" and the completion
      records the question and the answer "Hi there" and leaves the page idle. */
  lemma HelloExchange()
    ensures var r := Run(Initial(), [Typed("Hello"), Submitted,
                                    MessageArrived(0, Message("Hi", false)),
                                    MessageArrived(0, Message(" there", false)),
                                    MessageArrived(0, Message("", true))]);
      && r.chatHistory == [Entry(Question, "Hello"), Entry(Answer, "Hi there")]
      && !r.loading
  {
    var tokens := ["Hi", " there"];
    assert Concat(tokens) == "Hi there" by {
      assert Concat(tokens[1..][1..]) == [];
    }
    assert !IsBlank("Hello") by { assert !IsJsWhitespace("Hello"[0]); }
    assert !IsBlank("Hi there") by { assert !IsJsWhitespace("Hi there"[0]); }
    FirstExchangeKeepsAnswer("Hello", tokens, "");
    assert [Typed("Hello"), Submitted] + (TokenEvents(0, tokens) + [MessageArrived(0, Message("", true))])
        == [Typed("Hello"), Submitted,
            MessageArrived(0, Message("Hi", false)),
            MessageArrived(0, Message(" there", false)),
            MessageArrived(0, Message("", true))];
  }

  /** Tokens on an open source and then two presses of Stop before any reset
      timer fires: the ref buffer is committed twice. */
  lemma StreamStoppedTwice(s: State, src: SourceId, tokens: seq<string>)
    requires IsOpen(s, src)
    requires !IsBlank(s.latestCurrentLine + Concat(tokens))
    ensures var answer := Entry(Answer, s.latestCurrentLine + Concat(tokens));
      Run(s, TokenEvents(src, tokens) + [StopClicked, StopClicked]).chatHistory
        == s.chatHistory + [answer, answer]
  {
    var stops := [StopClicked, StopClicked];
    var s1 := s.(currentLine := s.currentLine + Concat(tokens),
                 latestCurrentLine := s.latestCurrentLine + Concat(tokens));
    assert Run(s, TokenEvents(src, tokens) + stops) == Run(s1, stops) by {
      RunAppend(s, TokenEvents(src, tokens), stops);
      TokensAccumulate(s, src, tokens);
    }
    StopTwiceCommitsTwice(s1);
  }

  /** A whole exchange stopped twice by the user. */
  lemma ExchangeStoppedTwice(s: State, prompt: string, tokens: seq<string>)
    requires Wf(s) && !IsBlank(prompt)
    requires !IsBlank(s.latestCurrentLine + Concat(tokens))
    ensures var answer := Entry(Answer, s.latestCurrentLine + Concat(tokens));
      Run(s, [Typed(prompt), Submitted]
             + (TokenEvents(|s.capturedSource|, tokens) + [StopClicked, StopClicked])).chatHistory
        == s.chatHistory + [Entry(Question, prompt), answer, answer]
  {
    var src := |s.capturedSource|;
    var rest := TokenEvents(src, tokens) + [StopClicked, StopClicked];
    var s2 := Submit(s.(prompt := prompt));
    assert Run(s, [Typed(prompt), Submitted] + rest) == Run(s2, rest) by {
      RunAppend(s, [Typed(prompt), Submitted], rest);
      TypeAndSubmit(s, prompt);
    }
    assert && IsOpen(s2, src) && s2.latestCurrentLine == s.latestCurrentLine
           && s2.chatHistory == s.chatHistory + [Entry(Question, prompt)] by {
      SubmitKeepsWf(s.(prompt := prompt));
    }
    StreamStoppedTwice(s2, src, tokens);
  }

  /** Submitting "Count", receiving "1" and "2" and pressing Stop twice
      records the answer "12" twice. */
  lemma CountStoppedTwice()
    ensures Run(Initial(), [Typed("Count"), Submitted,
                            MessageArrived(0, Message("1", false)),
                            MessageArrived(0, Message("2", false)),
                            StopClicked, StopClicked]).chatHistory
      == [Entry(Question, "Count"), Entry(Answer, "12"), Entry(Answer, "12")]
  {
    var tokens := ["1", "2"];
    var es := [Typed("Count"), Submitted] + (TokenEvents(0, tokens) + [StopClicked, StopClicked]);
    assert Run(Initial(), es).chatHistory
        == [Entry(Question, "Count"), Entry(Answer, "12"), Entry(Answer, "12")] by {
      assert Concat(tokens) == "12" by {
        assert Concat(tokens[1..][1..]) == [];
      }
      assert !IsBlank("Count") by { assert !IsJsWhitespace("Count"[0]); }
      assert !IsBlank("12") by { assert !IsJsWhitespace("12"[0]); }
      assert Initial().latestCurrentLine + Concat(tokens) == "12";
      ExchangeStoppedTwice(Initial(), "Count", tokens);
    }
    assert es == [Typed("Count"), Submitted,
                  MessageArrived(0, Message("1", false)),
                  MessageArrived(0, Message("2", false)),
                  StopClicked, StopClicked];
  }

  /** A whitespace-only draft submits nothing. */
  lemma BlankSubmitChangesNothing(s: State)
    requires s.prompt == " \t\n"
    ensures Step(s, Submitted) == s
  {
    assert IsBlank(" \t\n");
  }
}
