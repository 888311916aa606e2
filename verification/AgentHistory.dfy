/**
 Tool calls and replies in the stored history: where a window cuts a reply off from the assistant
 message that made its call, and when a call is left without a reply.
 */
module AgentHistory {
  import opened PythonSlices
  import opened Wrappers
  import opened AgentRunner

  predicate Makes(said: Message, callId: string) {
    said.Assistant? && exists c :: c in said.calls && c.id == callId
  }

  /** Message j made the call that message i answers, with nothing but replies in between. */
  ghost predicate Grounds(msgs: seq<Message>, j: nat, i: nat) {
    && j < i < |msgs| && msgs[i].ToolReply? && Makes(msgs[j], msgs[i].callId)
    && forall k :: j < k <= i ==> msgs[k].ToolReply?
  }

  /** Every tool reply comes with the assistant message that made its call. */
  ghost predicate Grounded(msgs: seq<Message>) {
    forall i: nat :: i < |msgs| && msgs[i].ToolReply? ==> exists j: nat :: Grounds(msgs, j, i)
  }

  lemma GroundedConcat(a: seq<Message>, b: seq<Message>)
    requires Grounded(a) && Grounded(b)
    ensures Grounded(a + b)
  {
    var msgs := a + b;
    forall i: nat | i < |msgs| && msgs[i].ToolReply? ensures exists j: nat :: Grounds(msgs, j, i) {
      if i < |a| {
        var j: nat :| Grounds(a, j, i);
        assert Grounds(msgs, j, i);
      } else {
        var j: nat :| Grounds(b, j, i - |a|);
        forall k | |a| + j < k <= i ensures msgs[k].ToolReply? {
          assert msgs[k] == b[k - |a|];
        }
        assert Grounds(msgs, |a| + j, i);
      }
    }
  }

  lemma {:induction false} FunctionCallsAreCalls(calls: seq<Call>, c: Call)
    requires c in FunctionCalls(calls)
    ensures c in calls
  {
    if c in FunctionCalls(calls[1..]) {
      FunctionCallsAreCalls(calls[1..], c);
    }
  }

  lemma RoundGrounded(r: Round)
    requires RoundOk(r)
    ensures Grounded([r.said] + r.replies)
  {
    var msgs := [r.said] + r.replies;
    var calls := FunctionCalls(r.said.calls);
    forall i: nat | i < |msgs| && msgs[i].ToolReply? ensures exists j: nat :: Grounds(msgs, j, i) {
      assert calls[i - 1] in calls;
      FunctionCallsAreCalls(r.said.calls, calls[i - 1]);
      assert Grounds(msgs, 0, i);
    }
  }

  lemma {:induction false} RoundsGrounded(rounds: seq<Round>)
    requires forall r :: r in rounds ==> RoundOk(r)
    ensures Grounded(Flatten(rounds))
  {
    if rounds != [] {
      assert rounds[0] in rounds && forall r :: r in rounds[1..] ==> r in rounds;
      RoundGrounded(rounds[0]);
      RoundsGrounded(rounds[1..]);
      GroundedConcat([rounds[0].said] + rounds[0].replies, Flatten(rounds[1..]));
    }
  }

  lemma TurnGrounded(full: seq<Message>, text: string, p: Script)
    requires p.Valid() && Grounded(full)
    ensures Grounded(AfterTurn(full, text, p))
  {
    if Turn(p).Ok? {
      var rounds, last := TurnGrammar(p);
      RoundsGrounded(rounds);
      GroundedConcat(Flatten(rounds), [last]);
      GroundedConcat(full, [User(text)]);
      GroundedConcat(full + [User(text)], Turn(p).value.segment);
    }
  }

  lemma {:induction false} TurnsGrounded(full: seq<Message>, inputs: seq<Input>)
    requires Grounded(full) && forall x :: x in inputs ==> x.script.Valid()
    ensures Grounded(AfterTurns(full, inputs))
    decreases |inputs|
  {
    if inputs != [] {
      assert inputs[0] in inputs && forall x :: x in inputs[1..] ==> x in inputs;
      TurnGrounded(full, inputs[0].text, inputs[0].script);
      TurnsGrounded(AfterTurn(full, inputs[0].text, inputs[0].script), inputs[1..]);
    }
  }

  lemma CutGrounded(full: seq<Message>, m: nat)
    requires Grounded(full) && m <= |full|
    ensures Grounded(full[m..]) <==> m == |full| || !full[m].ToolReply?
  {
    var rest := full[m..];
    if m < |full| && full[m].ToolReply? {
      assert rest[0].ToolReply?;
      assert !Grounded(rest) by {
        if j: nat :| Grounds(rest, j, 0) {
        }
      }
    } else {
      forall i: nat | i < |rest| && rest[i].ToolReply? ensures exists j: nat :: Grounds(rest, j, i) {
        var j: nat :| Grounds(full, j, m + i);
        assert j >= m;
        forall k | j - m < k <= i ensures rest[k].ToolReply? {
          assert rest[k] == full[m + k];
        }
        assert Grounds(rest, j - m, i);
      }
    }
  }

  /**
   For every history of turns and every limit: the window has the assistant message of each of
   its tool replies if and only if it does not begin with a tool reply.
   */
  lemma WindowAtRoundBoundary(inputs: seq<Input>, limit: Option<int>)
    requires forall x :: x in inputs ==> x.script.Valid()
    ensures var full := AfterTurns([], inputs);
            var window := Window(full, limit);
            Grounded(full) && (Grounded(window) <==> window == [] || !window[0].ToolReply?)
  {
    var full := AfterTurns([], inputs);
    TurnsGrounded([], inputs);
    if limit.Some? && |full| > limit.value {
      CutGrounded(full, SliceIndex(|full|, -limit.value));
    } else {
      assert full[0..] == full;
      CutGrounded(full, 0);
    }
  }

  // ---- calls without a reply

  /** The messages right after number j reply to its calls one by one. */
  predicate AnsweredAt(msgs: seq<Message>, j: nat)
    requires j < |msgs| && msgs[j].Assistant?
  {
    var n := |msgs[j].calls|;
    j + 1 + n <= |msgs| && Answers(msgs[j + 1..j + 1 + n], msgs[j].calls)
  }

  ghost predicate AllAnswered(msgs: seq<Message>) {
    forall j :: 0 <= j < |msgs| && msgs[j].Assistant? ==> AnsweredAt(msgs, j)
  }

  lemma AnsweredBefore(a: seq<Message>, b: seq<Message>, j: nat)
    requires j < |a| && a[j].Assistant? && (b == [] || !b[0].ToolReply?)
    ensures (a + b)[j] == a[j] && (AnsweredAt(a + b, j) <==> AnsweredAt(a, j))
  {
    var n := |a[j].calls|;
    if j + 1 + n <= |a| {
      assert (a + b)[j + 1..j + 1 + n] == a[j + 1..j + 1 + n];
    } else if j + 1 + n <= |a + b| {
      var replies, k := (a + b)[j + 1..j + 1 + n], |a| - j - 1;
      assert replies[k] == b[0] && !replies[k].ToolReply?;
    }
  }

  lemma AnsweredAfter(a: seq<Message>, b: seq<Message>, j: nat)
    requires j < |b| && b[j].Assistant?
    ensures (a + b)[|a| + j] == b[j] && (AnsweredAt(a + b, |a| + j) <==> AnsweredAt(b, j))
  {
    var n := |b[j].calls|;
    if j + 1 + n <= |b| {
      assert (a + b)[|a| + j + 1..|a| + j + 1 + n] == b[j + 1..j + 1 + n];
    }
  }

  lemma AnsweredConcat(a: seq<Message>, b: seq<Message>)
    requires b == [] || !b[0].ToolReply?
    ensures AllAnswered(a + b) <==> AllAnswered(a) && AllAnswered(b)
  {
    forall j | 0 <= j < |a| && a[j].Assistant?
      ensures (a + b)[j] == a[j] && (AnsweredAt(a + b, j) <==> AnsweredAt(a, j))
    {
      AnsweredBefore(a, b, j);
    }
    forall j | 0 <= j < |b| && b[j].Assistant?
      ensures (a + b)[|a| + j] == b[j] && (AnsweredAt(a + b, |a| + j) <==> AnsweredAt(b, j))
    {
      AnsweredAfter(a, b, j);
    }
    if AllAnswered(a) && AllAnswered(b) {
      forall j | 0 <= j < |a + b| && (a + b)[j].Assistant? ensures AnsweredAt(a + b, j) {
        if j >= |a| {
          assert (a + b)[j] == b[j - |a|] && AnsweredAt(b, j - |a|);
        }
      }
    }
    if AllAnswered(a + b) {
      forall j | 0 <= j < |b| && b[j].Assistant? ensures AnsweredAt(b, j) {
        assert (a + b)[|a| + j] == b[j];
      }
    }
  }

  predicate AllFunctions(calls: seq<Call>) {
    forall x :: x in calls ==> x.isFunction
  }

  lemma {:induction false} AllFunctionsIff(calls: seq<Call>)
    ensures |FunctionCalls(calls)| <= |calls|
    ensures AllFunctions(calls) <==> |FunctionCalls(calls)| == |calls|
  {
    if calls != [] {
      AllFunctionsIff(calls[1..]);
      assert forall x :: x in calls <==> x == calls[0] || x in calls[1..];
    }
  }

  lemma {:induction false} AllFunctionsStay(calls: seq<Call>)
    requires AllFunctions(calls)
    ensures FunctionCalls(calls) == calls
  {
    if calls != [] {
      AllFunctionsStay(calls[1..]);
    }
  }

  lemma RoundAnswered(said: Message, replies: seq<Message>)
    requires said.Assistant? && Answers(replies, FunctionCalls(said.calls))
    ensures AllAnswered([said] + replies) <==> AllFunctions(said.calls)
  {
    AllFunctionsIff(said.calls);
    if AllFunctions(said.calls) {
      AllFunctionsStay(said.calls);
      assert replies[..|replies|] == replies;
    }
    FirstAnswered(said, replies);
    var msgs := [said] + replies;
    forall j | 0 < j < |msgs| ensures !msgs[j].Assistant? {
      assert msgs[j] == replies[j - 1];
    }
    assert AllAnswered(msgs) <==> AnsweredAt(msgs, 0);
  }

  lemma FirstAnswered(said: Message, replies: seq<Message>)
    requires said.Assistant?
    ensures AnsweredAt([said] + replies, 0) <==>
      |said.calls| <= |replies| && Answers(replies[..|said.calls|], said.calls)
  {
    var msgs, n := [said] + replies, |said.calls|;
    if n <= |replies| {
      assert msgs[1..1 + n] == replies[..n];
    }
  }

  /** All its calls are dispatched: there are none, or the model stopped for them and all are function calls. */
  predicate Dispatchable(c: Completion) {
    c.calls == [] || (c.finishedForTools && AllFunctions(c.calls))
  }

  ghost predicate AllDispatchable(p: Script, i: nat, n: nat) {
    forall k: nat :: i <= k < n && k < |p.answers| && p.answers[k].Some? ==> Dispatchable(p.answers[k].value)
  }

  lemma OneMoreDispatchable(p: Script, i: nat, n: nat)
    requires i < n && i < |p.answers| && p.answers[i].Some?
    ensures AllDispatchable(p, i, n) <==> Dispatchable(p.answers[i].value) && AllDispatchable(p, i + 1, n)
  {
  }

  lemma LastAnswered(c: Completion)
    ensures AllAnswered([Said(c)]) <==> c.calls == []
  {
    FirstAnswered(Said(c), []);
    assert [Said(c)] + [] == [Said(c)];
    assert AllAnswered([Said(c)]) <==> AnsweredAt([Said(c)], 0);
  }

  lemma RoundTailAnswered(p: Script, i: nat)
    requires p.Valid() && i < MAX_ITERATIONS && Continue(p, i).Ok? && CallsTools(p.answers[i].value)
    requires Continue(p, i + 1).value.segment != [] && Continue(p, i + 1).value.segment[0].Assistant?
    ensures AllAnswered(Continue(p, i).value.segment) <==>
      AllFunctions(p.answers[i].value.calls) && AllAnswered(Continue(p, i + 1).value.segment)
  {
    var c := p.answers[i].value;
    var replies := Replies(p, i, FunctionCalls(c.calls));
    RepliesAnswer(p, i, FunctionCalls(c.calls));
    RoundAnswered(Said(c), replies);
    RoundThenRest(p, i);
    AnsweredConcat([Said(c)] + replies, Continue(p, i + 1).value.segment);
  }

  lemma {:induction false} TailAnswered(p: Script, i: nat)
    requires p.Valid() && i <= MAX_ITERATIONS && Continue(p, i).Ok?
    ensures var t := Continue(p, i).value;
            && t.segment != [] && t.segment[0].Assistant?
            && (AllAnswered(t.segment) <==> AllDispatchable(p, i, i + t.completions))
    decreases MAX_ITERATIONS - i
  {
    if i < MAX_ITERATIONS {
      var c := p.answers[i].value;
      if CallsTools(c) {
        TailAnswered(p, i + 1);
        RoundTailAnswered(p, i);
        OneMoreDispatchable(p, i, i + Continue(p, i).value.completions);
      } else {
        OneMoreDispatchable(p, i, i + 1);
        LastAnswered(c);
      }
    }
  }

  /** The turn is saved, and every completion in it is dispatchable. */
  ghost predicate LeavesNothingOpen(p: Script)
    requires p.Valid()
  {
    Turn(p).Ok? ==> AllDispatchable(p, 0, Turn(p).value.completions)
  }

  lemma TurnAnswered(full: seq<Message>, text: string, p: Script)
    requires p.Valid()
    ensures AllAnswered(AfterTurn(full, text, p)) <==> AllAnswered(full) && LeavesNothingOpen(p)
  {
    if Turn(p).Ok? {
      TailAnswered(p, 0);
      AnsweredConcat(full, [User(text)]);
      AnsweredConcat(full + [User(text)], Turn(p).value.segment);
    }
  }

  lemma {:induction false} TurnsAnswered(full: seq<Message>, inputs: seq<Input>)
    requires forall x :: x in inputs ==> x.script.Valid()
    ensures AllAnswered(AfterTurns(full, inputs)) <==>
      AllAnswered(full) && forall x :: x in inputs ==> LeavesNothingOpen(x.script)
    decreases |inputs|
  {
    if inputs != [] {
      assert forall x :: x in inputs <==> x == inputs[0] || x in inputs[1..];
      TurnAnswered(full, inputs[0].text, inputs[0].script);
      TurnsAnswered(AfterTurn(full, inputs[0].text, inputs[0].script), inputs[1..]);
    }
  }

  /**
   In a stored history every tool call has its reply, right after it and in order, exactly when
   each completion of each saved turn either makes no call, or stopped for its calls and makes
   function calls only.
   */
  lemma EveryCallAnswered(inputs: seq<Input>)
    requires forall x :: x in inputs ==> x.script.Valid()
    ensures AllAnswered(AfterTurns([], inputs)) <==> forall x :: x in inputs ==> LeavesNothingOpen(x.script)
  {
    TurnsAnswered([], inputs);
  }
}
