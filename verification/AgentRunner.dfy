/**
 The agent's tool-calling loop for one user turn, and what it persists.  A turn sees a
 script: what the language model answers at each iteration, and how each tool call ends.
 Guards only change the system prompt, so they show up here as different scripts.
 */
module AgentRunner {
  import opened PythonSlices
  import opened Wrappers

  const MAX_ITERATIONS: nat := 10

  /** `isFunction` is false for tool calls of other kinds, which the loop does not dispatch. */
  datatype Call = Call(id: string, name: string, arguments: string, isFunction: bool)

  /** A tool ends with a text, is not registered, or raises; each becomes the content of a reply. */
  datatype ToolOutcome = Done(content: string) | Unknown | Raised

  /** Absent content is the empty text. */
  datatype Message =
    | User(content: string)
    | Assistant(content: string, calls: seq<Call>)
    | ToolReply(callId: string, name: string, outcome: ToolOutcome)

  datatype Completion = Completion(finishedForTools: bool, content: string, calls: seq<Call>)

  /** None in `answers` is a completion request that raises; `fallback` is the fixed apology. */
  datatype Script = Script(
    fallback: string,
    answers: seq<Option<Completion>>,
    outcome: (nat, Call) -> ToolOutcome)
  {
    predicate Valid() {
      |answers| == MAX_ITERATIONS
    }
  }

  datatype Failure = CompletionFailed

  // ---- the window

  /** The part of the history the model sees. */
  function Window(full: seq<Message>, limit: Option<int>): seq<Message> {
    if limit.Some? && |full| > limit.value then From(full, -limit.value) else full
  }

  function Prefix(full: seq<Message>, limit: Option<int>): seq<Message> {
    if limit.Some? && |full| > limit.value then UpTo(full, -limit.value) else []
  }

  // ---- one turn

  function FunctionCalls(calls: seq<Call>): seq<Call> {
    if calls == [] then []
    else if calls[0].isFunction then [calls[0]] + FunctionCalls(calls[1..])
    else FunctionCalls(calls[1..])
  }

  function Replies(p: Script, i: nat, calls: seq<Call>): seq<Message> {
    if calls == [] then []
    else [ToolReply(calls[0].id, calls[0].name, p.outcome(i, calls[0]))] + Replies(p, i, calls[1..])
  }

  function Said(c: Completion): Message {
    Assistant(c.content, c.calls)
  }

  predicate CallsTools(c: Completion) {
    c.finishedForTools && c.calls != []
  }

  /** What a turn appends after the user message. */
  datatype Tail = Tail(segment: seq<Message>, exhausted: bool, completions: nat)

  /** What it appends from iteration i on. */
  function Continue(p: Script, i: nat): Result<Tail, Failure>
    requires p.Valid() && i <= MAX_ITERATIONS
    decreases MAX_ITERATIONS - i, p.fallback
  {
    if i == MAX_ITERATIONS then Ok(Tail([Assistant(p.fallback, [])], true, 0))
    else if p.answers[i].None? then Err(CompletionFailed)
    else
      var c := p.answers[i].value;
      if !CallsTools(c) then Ok(Tail([Said(c)], false, 1))
      else
        match Continue(p, i + 1)
        case Err(error) => Err(error)
        case Ok(t) => Ok(Tail([Said(c)] + Replies(p, i, FunctionCalls(c.calls)) + t.segment, t.exhausted, t.completions + 1))
  }

  function Turn(p: Script): Result<Tail, Failure>
    requires p.Valid()
  {
    Continue(p, 0)
  }

  /** The last non-empty assistant content. */
  function LastContent(msgs: seq<Message>): Option<string> {
    if msgs == [] then None
    else
      var last := msgs[|msgs| - 1];
      if last.Assistant? && last.content != "" then Some(last.content) else LastContent(msgs[..|msgs| - 1])
  }

  function Reply(fallback: string, msgs: seq<Message>): string {
    match LastContent(msgs)
    case Some(content) => content
    case None => fallback
  }

  class ConversationHistory {
    var threads: map<string, seq<Message>>

    constructor ()
      ensures threads == map[]
    {
      threads := map[];
    }

    ghost function Of(thread: string): seq<Message>
      reads this
    {
      if thread in threads then threads[thread] else []
    }

    /** The thread's messages, or with a limit what the window of that limit holds of them. */
    method Load(thread: string, limit: Option<int> := None) returns (msgs: seq<Message>)
      ensures msgs == Window(Of(thread), limit)
    {
      msgs := if thread in threads then threads[thread] else [];
      if limit.Some? && |msgs| > limit.value {
        msgs := From(msgs, -limit.value);
      }
    }

    method Save(thread: string, msgs: seq<Message>)
      modifies this
      ensures threads == old(threads)[thread := msgs]
    {
      threads := threads[thread := msgs];
    }
  }

  /** asyncio.gather over the function calls: one reply each, in order. */
  method DispatchAll(p: Script, i: nat, calls: seq<Call>) returns (replies: seq<Message>)
    ensures replies == Replies(p, i, calls)
  {
    replies := [];
    var k := 0;
    while k < |calls|
      invariant 0 <= k <= |calls|
      invariant replies + Replies(p, i, calls[k..]) == Replies(p, i, calls)
    {
      assert calls[k..][0] == calls[k] && calls[k..][1..] == calls[k + 1..];
      replies := replies + [ToolReply(calls[k].id, calls[k].name, p.outcome(i, calls[k]))];
      k := k + 1;
    }
  }

  /** The search from the end for something to say. */
  method LastReply(fallback: string, msgs: seq<Message>) returns (reply: string)
    ensures reply == Reply(fallback, msgs)
  {
    var i := |msgs|;
    assert msgs[..i] == msgs;
    while i > 0
      invariant 0 <= i <= |msgs|
      invariant LastContent(msgs[..i]) == LastContent(msgs)
    {
      i := i - 1;
      assert msgs[..i + 1][..i] == msgs[..i];
      if msgs[i].Assistant? && msgs[i].content != "" {
        return msgs[i].content;
      }
    }
    return fallback;
  }

  /** How iteration i of a turn with tool calls relates to the next one. */
  lemma RoundThenRest(p: Script, i: nat)
    requires p.Valid() && i < MAX_ITERATIONS && p.answers[i].Some? && CallsTools(p.answers[i].value)
    ensures Continue(p, i).Ok? <==> Continue(p, i + 1).Ok?
    ensures var c := p.answers[i].value;
            Continue(p, i).Ok? ==>
              Continue(p, i).value.segment ==
                [Said(c)] + Replies(p, i, FunctionCalls(c.calls)) + Continue(p, i + 1).value.segment
  {
  }

  /** The bounded loop of completions and tool calls. */
  method Converse(p: Script, start: seq<Message>) returns (raw: seq<Message>, failed: bool)
    requires p.Valid()
    ensures failed <==> Turn(p).Err?
    ensures !failed ==> raw == start + Turn(p).value.segment
  {
    raw := start;
    var i := 0;
    while i < MAX_ITERATIONS
      invariant 0 <= i <= MAX_ITERATIONS
      invariant Continue(p, i).Ok? <==> Turn(p).Ok?
      invariant Turn(p).Ok? ==> raw + Continue(p, i).value.segment == start + Turn(p).value.segment
    {
      if p.answers[i].None? {
        return raw, true;
      }
      var c := p.answers[i].value;
      ghost var before := raw;
      raw := raw + [Said(c)];
      if !CallsTools(c) {
        return raw, false;
      }
      var replies := DispatchAll(p, i, FunctionCalls(c.calls));
      raw := raw + replies;
      RoundThenRest(p, i);
      assert Turn(p).Ok? ==>
        before + ([Said(c)] + replies + Continue(p, i + 1).value.segment) == raw + Continue(p, i + 1).value.segment;
      i := i + 1;
    }
    raw := raw + [Assistant(p.fallback, [])];
    return raw, false;
  }

  /** The stored history after one turn. */
  function AfterTurn(full: seq<Message>, text: string, p: Script): seq<Message>
    requires p.Valid()
  {
    match Turn(p)
    case Err(_) => full
    case Ok(t) => full + [User(text)] + t.segment
  }

  lemma Regroup(a: seq<Message>, b: seq<Message>, c: seq<Message>, d: seq<Message>)
    ensures a + (b + c + d) == (a + b) + c + d
  {
  }

  /**
   One user turn.  On success the saved list is the whole loaded history, the user message and
   the turn's segment, for every memory limit; when a completion raises, nothing is saved.
   */
  method RunAgent(p: Script, history: ConversationHistory, thread: string, text: string, limit: Option<int>)
    returns (r: Result<string, Failure>)
    requires p.Valid()
    modifies history
    ensures r.Err? <==> Turn(p).Err?
    ensures r.Err? ==> history.threads == old(history.threads)
    ensures r.Ok? ==>
      && history.threads == old(history.threads)[thread := AfterTurn(old(history.Of(thread)), text, p)]
      && history.Of(thread) == old(history.Of(thread)) + [User(text)] + Turn(p).value.segment
    ensures r.Ok? ==>
      r.value == Reply(p.fallback, Window(old(history.Of(thread)), limit) + [User(text)] + Turn(p).value.segment)
  {
    var full := history.Load(thread);
    var window, prefix := full, [];
    if limit.Some? && |full| > limit.value {
      window := From(full, -limit.value);
      prefix := UpTo(full, -limit.value);
    }
    SlicesRejoin(full, limit);
    var raw, failed := Converse(p, window + [User(text)]);
    if failed {
      return Err(CompletionFailed);
    }
    Regroup(prefix, window, [User(text)], Turn(p).value.segment);
    history.Save(thread, prefix + raw);
    var reply := LastReply(p.fallback, raw);
    return Ok(reply);
  }

  // ---- windowing

  /** The two slices are complementary for every limit, zero and negative ones included. */
  lemma SlicesRejoin(full: seq<Message>, limit: Option<int>)
    ensures Prefix(full, limit) + Window(full, limit) == full
  {
  }

  /**
   The documented window, the last `limit` messages, is what the model sees exactly when the
   limit is positive or the history empty: with limit 0 the slice [-0:] is the whole history.
   */
  lemma WindowIsLastMessages(full: seq<Message>, m: nat)
    ensures Window(full, Some(m)) == full[if m < |full| then |full| - m else 0..] <==> m > 0 || full == []
    ensures |Window(full, Some(m))| <= m <==> m > 0 || full == []
  {
  }

  /** A limit below zero leaves out the first messages instead. */
  lemma NegativeLimit(full: seq<Message>, limit: int)
    requires limit < 0
    ensures Window(full, Some(limit)) == full[if -limit < |full| then -limit else |full|..]
  {
  }

  // ---- the grammar of a turn

  /** The replies answer the calls one by one, in order. */
  predicate Answers(replies: seq<Message>, calls: seq<Call>) {
    |replies| == |calls| && forall i :: 0 <= i < |calls| ==> replies[i].ToolReply? && replies[i].callId == calls[i].id
  }

  /** An assistant message with tool calls, and what the tools replied. */
  datatype Round = Round(said: Message, replies: seq<Message>)

  predicate RoundOk(r: Round) {
    r.said.Assistant? && r.said.calls != [] && Answers(r.replies, FunctionCalls(r.said.calls))
  }

  /** The model stopped at iteration i to call tools. */
  predicate StopsForTools(p: Script, i: nat) {
    i < |p.answers| && p.answers[i].Some? && p.answers[i].value.finishedForTools && p.answers[i].value.calls != []
  }

  /** What the model said at iteration i when it stopped for tools, and what came of each function call. */
  predicate RoundAt(p: Script, i: nat, r: Round) {
    && StopsForTools(p, i)
    && var c := p.answers[i].value;
       r.said == Assistant(c.content, c.calls) && OutcomesOf(p, i, FunctionCalls(c.calls), r.replies)
  }

  /** The rounds are those of the iterations from i on. */
  ghost predicate RoundsFrom(p: Script, i: nat, rounds: seq<Round>) {
    forall k :: 0 <= k < |rounds| ==> RoundAt(p, i + k, rounds[k])
  }

  lemma RoundsCons(p: Script, i: nat, r: Round, others: seq<Round>)
    requires RoundAt(p, i, r) && RoundsFrom(p, i + 1, others)
    ensures RoundsFrom(p, i, [r] + others)
  {
    forall k | 0 <= k < |[r] + others| ensures RoundAt(p, i + k, ([r] + others)[k]) {
      assert k > 0 ==> RoundAt(p, (i + 1) + (k - 1), others[k - 1]);
    }
  }

  predicate OutcomesOf(p: Script, i: nat, calls: seq<Call>, replies: seq<Message>) {
    && |replies| == |calls|
    && forall k :: 0 <= k < |calls| ==> replies[k] == ToolReply(calls[k].id, calls[k].name, p.outcome(i, calls[k]))
  }

  function Flatten(rounds: seq<Round>): seq<Message> {
    if rounds == [] then [] else [rounds[0].said] + rounds[0].replies + Flatten(rounds[1..])
  }

  lemma {:induction false} RepliesAnswer(p: Script, i: nat, calls: seq<Call>)
    ensures Answers(Replies(p, i, calls), calls) && OutcomesOf(p, i, calls, Replies(p, i, calls))
  {
    if calls != [] {
      RepliesAnswer(p, i, calls[1..]);
    }
  }

  /**
   From iteration i on: rounds and one last assistant message, one completion for each, except
   that the last message is the fallback when the rounds use the iterations up.
   */
  ghost predicate TailOk(p: Script, t: Tail, i: nat, rounds: seq<Round>, last: Message) {
    && t.segment == Flatten(rounds) + [last] && last.Assistant?
    && (forall r :: r in rounds ==> RoundOk(r))
    && (t.exhausted <==> i + |rounds| == MAX_ITERATIONS)
    && t.completions == (if t.exhausted then |rounds| else |rounds| + 1)
    && i + t.completions <= MAX_ITERATIONS
    && RoundsFrom(p, i, rounds) && LastIs(p, t, i + |rounds|, last)
  }

  /** The last message is the fallback, or what the model said at iteration n without stopping for tools. */
  predicate LastIs(p: Script, t: Tail, n: nat, last: Message) {
    if t.exhausted then last == Assistant(p.fallback, [])
    else
      && n < |p.answers| && p.answers[n].Some? && !StopsForTools(p, n)
      && last == Assistant(p.answers[n].value.content, p.answers[n].value.calls)
  }

  lemma {:induction false} TailGrammar(p: Script, i: nat) returns (rounds: seq<Round>, last: Message)
    requires p.Valid() && i <= MAX_ITERATIONS && Continue(p, i).Ok?
    ensures TailOk(p, Continue(p, i).value, i, rounds, last)
    decreases MAX_ITERATIONS - i
  {
    if i == MAX_ITERATIONS {
      rounds, last := [], Assistant(p.fallback, []);
    } else if !CallsTools(p.answers[i].value) {
      rounds, last := [], Said(p.answers[i].value);
    } else {
      var c := p.answers[i].value;
      var replies := Replies(p, i, FunctionCalls(c.calls));
      RepliesAnswer(p, i, FunctionCalls(c.calls));
      var others: seq<Round>;
      others, last := TailGrammar(p, i + 1);
      rounds := [Round(Said(c), replies)] + others;
      RoundsCons(p, i, rounds[0], others);
      assert rounds[1..] == others;
      assert [Said(c)] + replies + (Flatten(others) + [last]) == ([Said(c)] + replies + Flatten(others)) + [last];
    }
  }

  /**
   A turn: while the model stops for tools, what it said and what came of each function call, in
   order; then what it said last.  At most 10 completions, and the fallback exactly when 10 rounds
   did not suffice.
   */
  lemma TurnGrammar(p: Script) returns (rounds: seq<Round>, last: Message)
    requires p.Valid() && Turn(p).Ok?
    ensures TailOk(p, Turn(p).value, 0, rounds, last)
  {
    rounds, last := TailGrammar(p, 0);
  }

  lemma {:induction false} FailsFrom(p: Script, i: nat)
    requires p.Valid() && i <= MAX_ITERATIONS
    ensures Continue(p, i).Err? <==>
      exists n: nat :: i <= n < |p.answers| && p.answers[n].None? && forall k: nat :: i <= k < n ==> StopsForTools(p, k)
    decreases MAX_ITERATIONS - i
  {
    if i < MAX_ITERATIONS && StopsForTools(p, i) {
      FailsFrom(p, i + 1);
    }
  }

  /** A turn fails exactly when the model stops for tools until a completion raises. */
  lemma TurnFailsIff(p: Script)
    requires p.Valid()
    ensures Turn(p).Err? <==>
      exists n: nat :: n < |p.answers| && p.answers[n].None? && forall k: nat :: k < n ==> StopsForTools(p, k)
  {
    FailsFrom(p, 0);
  }

  /** The calls dispatched are the function calls, each as often as it was made. */
  lemma {:induction false} FunctionCallsExact(calls: seq<Call>, x: Call)
    ensures multiset(FunctionCalls(calls))[x] == if x.isFunction then multiset(calls)[x] else 0
  {
    if calls != [] {
      FunctionCallsExact(calls[1..], x);
      assert calls == [calls[0]] + calls[1..];
    }
  }

  /** They are dispatched in order. */
  lemma {:induction false} FunctionCallsConcat(calls: seq<Call>, others: seq<Call>)
    ensures FunctionCalls(calls + others) == FunctionCalls(calls) + FunctionCalls(others)
  {
    if calls == [] {
      assert calls + others == others;
    } else {
      FunctionCallsConcat(calls[1..], others);
      assert (calls + others)[1..] == calls[1..] + others;
    }
  }

  // ---- what the user is told

  /** The last thing an assistant said, if any said anything: nothing later has content. */
  lemma {:induction false} LastContentIs(msgs: seq<Message>)
    ensures LastContent(msgs).Some? <==> exists i :: 0 <= i < |msgs| && msgs[i].Assistant? && msgs[i].content != ""
    ensures LastContent(msgs).Some? ==>
      exists i :: 0 <= i < |msgs| && msgs[i].Assistant? && msgs[i].content == LastContent(msgs).value != ""
        && forall k :: i < k < |msgs| && msgs[k].Assistant? ==> msgs[k].content == ""
  {
    if msgs != [] {
      LastContentIs(msgs[..|msgs| - 1]);
    }
  }

  lemma {:induction false} LastContentConcat(a: seq<Message>, b: seq<Message>)
    ensures LastContent(a + b) == if LastContent(b).Some? then LastContent(b) else LastContent(a)
    decreases |b|
  {
    if b == [] {
      assert a + b == a;
    } else {
      assert (a + b)[..|a + b| - 1] == a + b[..|b| - 1];
      LastContentConcat(a, b[..|b| - 1]);
    }
  }

  /**
   The reply comes from this turn exactly when some completion of the turn said something.
   Otherwise an assistant message of an earlier turn, if the window has one, is sent again.
   */
  lemma ReplyOrigin(fallback: string, window: seq<Message>, text: string, segment: seq<Message>)
    ensures Reply(fallback, window + [User(text)] + segment) ==
            if LastContent(segment).Some? then LastContent(segment).value else Reply(fallback, window)
  {
    LastContentConcat(window + [User(text)], segment);
    LastContentConcat(window, [User(text)]);
    assert [User(text)][..0] == [];
  }

  lemma LastContentOne(m: Message)
    ensures LastContent([m]) == if m.Assistant? && m.content != "" then Some(m.content) else None
  {
    assert [m][..0] == [];
  }

  /** A turn that runs out of iterations answers with the fallback. */
  lemma ExhaustedReply(p: Script, window: seq<Message>, text: string)
    requires p.Valid() && p.fallback != "" && Turn(p).Ok? && Turn(p).value.exhausted
    ensures Reply(p.fallback, window + [User(text)] + Turn(p).value.segment) == p.fallback
  {
    var rounds, last := TurnGrammar(p);
    LastContentConcat(Flatten(rounds), [last]);
    LastContentOne(last);
    ReplyOrigin(p.fallback, window, text, Turn(p).value.segment);
  }

  /** A turn that ends with something said answers with it. */
  lemma LastWordIsReply(p: Script, window: seq<Message>, text: string)
    requires p.Valid() && Turn(p).Ok? && !Turn(p).value.exhausted
    ensures var n := Turn(p).value.completions;
            && 1 <= n <= |p.answers| && p.answers[n - 1].Some?
            && (p.answers[n - 1].value.content != "" ==>
                  Reply(p.fallback, window + [User(text)] + Turn(p).value.segment) == p.answers[n - 1].value.content)
  {
    var rounds, last := TurnGrammar(p);
    LastContentConcat(Flatten(rounds), [last]);
    LastContentOne(last);
    ReplyOrigin(p.fallback, window, text, Turn(p).value.segment);
  }

  // ---- sequences of turns

  datatype Input = Input(text: string, script: Script)

  function AfterTurns(full: seq<Message>, inputs: seq<Input>): seq<Message>
    requires forall x :: x in inputs ==> x.script.Valid()
    decreases |inputs|
  {
    if inputs == [] then full else AfterTurns(AfterTurn(full, inputs[0].text, inputs[0].script), inputs[1..])
  }

  /** Over sequential turns each stored history is a prefix of every later one. */
  lemma {:induction false} HistoryGrows(full: seq<Message>, inputs: seq<Input>, i: nat)
    requires i <= |inputs| && forall x :: x in inputs ==> x.script.Valid()
    ensures AfterTurns(full, inputs[..i]) <= AfterTurns(full, inputs)
    decreases |inputs|
  {
    if inputs != [] {
      var next := AfterTurn(full, inputs[0].text, inputs[0].script);
      HistoryGrows(next, inputs[1..], if i == 0 then 0 else i - 1);
      if i == 0 {
        assert inputs[1..][..0] == [] && inputs[..0] == [];
      } else {
        assert inputs[..i][1..] == inputs[1..][..i - 1];
      }
    }
  }
}
