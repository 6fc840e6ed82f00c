/** internal/ai/agent/engine.go: the bounded loop of model requests and tool calls,
    the transcripts it sends and the events it streams. */
module AgentLoop {
  import opened Common
  import ToolCalls

  type Call = ToolCalls.Call

  const MAX_ROUNDS := 10

  datatype Message = Message(role: string, content: string, reasoning: string, calls: seq<Call>, callId: string)

  function Plain(role: string, content: string): Message { Message(role, content, "", [], "") }

  /** What the stream of one answer delivers. */
  datatype Event = Answer(event: ToolCalls.Event) | Failed(error: string)

  datatype Reply = Reply(content: string, reasoning: string, calls: seq<Call>) | Broken(error: string)

  /** Text is joined, the last reasoning and the last calls win, an error stops. */
  function Collect(es: seq<Event>, r: Reply): Reply
    requires r.Reply?
    decreases |es|
  {
    if es == [] then r
    else match es[0]
      case Failed(error) => Broken(error)
      case Answer(Delta(text)) => Collect(es[1..], Reply(r.content + text, r.reasoning, r.calls))
      case Answer(Final(_, calls, reasoning)) =>
        Collect(es[1..], Reply(r.content, if reasoning != "" then reasoning else r.reasoning,
                               if calls != [] then calls else r.calls))
  }

  datatype Outcome = Success(text: string) | Failure(text: string)

  /** The world outside the loop: cancellation before a round, the events of its
      answer, and the outcome of the k-th tool call of a round. */
  datatype Env = Env(cancelled: nat -> bool, answer: nat -> seq<Event>, outcome: (nat, nat) -> Outcome)

  datatype Result = Finished(content: string, tools: seq<string>) | Cancelled | StreamFailed(error: string) | OutOfRounds

  function Start(prompt: string, history: seq<Message>, user: string): seq<Message> {
    [Plain("system", prompt)] + history + [Plain("user", user)]
  }

  function ToolMessage(c: Call, o: Outcome): Message { Message("tool", o.text, "", [], c.id) }

  function Answers(env: Env, round: nat, calls: seq<Call>): (r: seq<Message>)
    ensures |r| == |calls|
  {
    seq(|calls|, k requires 0 <= k < |calls| => ToolMessage(calls[k], env.outcome(round, k)))
  }

  function Block(env: Env, round: nat, r: Reply): seq<Message>
    requires r.Reply?
  {
    [Message("assistant", r.content, r.reasoning, r.calls, "")] + Answers(env, round, r.calls)
  }

  /** The names of the tools that succeeded, from the k-th call on. */
  function Succeeded(env: Env, round: nat, calls: seq<Call>, k: nat): seq<string>
    decreases |calls| - k
  {
    if k >= |calls| then []
    else (if env.outcome(round, k).Success? then [calls[k].name] else []) + Succeeded(env, round, calls, k + 1)
  }

  /** The requests sent from a round on, and how the run ends. */
  function Rounds(env: Env, round: nat, messages: seq<Message>, tools: seq<string>): (seq<seq<Message>>, Result)
    decreases MAX_ROUNDS - round
  {
    if round >= MAX_ROUNDS then ([], OutOfRounds)
    else if env.cancelled(round) then ([], Cancelled)
    else match Collect(env.answer(round), NOTHING)
      case Broken(error) => ([messages], StreamFailed(error))
      case Reply(content, reasoning, calls) =>
        if calls == [] then ([messages], Finished(content, tools))
        else
          var r := Reply(content, reasoning, calls);
          var (requests, result) := Rounds(env, round + 1, messages + Block(env, round, r),
                                           tools + Succeeded(env, round, calls, 0));
          ([messages] + requests, result)
  }

  // ------------------------------------------------------------- what is received

  function TextIn(e: Event): string { if e.Answer? && e.event.Delta? then e.event.content else "" }

  /** The texts of the events, joined in order. */
  function TextOf(es: seq<Event>): string {
    if es == [] then "" else TextOf(es[..|es| - 1]) + TextIn(es[|es| - 1])
  }

  /** What comes first is spelled first. */
  lemma {:induction false} TextAdds(es: seq<Event>, fs: seq<Event>)
    ensures TextOf(es + fs) == TextOf(es) + TextOf(fs)
    decreases |fs|
  {
    if fs == [] {
      assert es + fs == es;
    } else {
      assert (es + fs)[..|es + fs| - 1] == es + fs[..|fs| - 1];
      TextAdds(es, fs[..|fs| - 1]);
      Assoc(TextOf(es), TextOf(fs[..|fs| - 1]), TextIn(fs[|fs| - 1]));
    }
  }

  lemma TextHead(es: seq<Event>)
    requires es != []
    ensures TextOf(es) == TextIn(es[0]) + TextOf(es[1..])
  {
    HeadAndTail(es);
    TextAdds([es[0]], es[1..]);
    assert [es[0]][..0] == [];
  }

  ghost predicate HasCalls(e: Event) { e.Answer? && e.event.Final? && e.event.calls != [] }

  ghost predicate HasReasoning(e: Event) { e.Answer? && e.event.Final? && e.event.reasoning != "" }

  ghost predicate Unbroken(es: seq<Event>) { forall k :: 0 <= k < |es| ==> !es[k].Failed? }

  /** The first error among the events. */
  ghost predicate FirstError(es: seq<Event>, k: int) {
    0 <= k < |es| && es[k].Failed? && forall j :: 0 <= j < k ==> !es[j].Failed?
  }

  ghost predicate LastCalls(es: seq<Event>, k: int) {
    0 <= k < |es| && HasCalls(es[k]) && forall j :: k < j < |es| ==> !HasCalls(es[j])
  }

  ghost predicate LastReasoning(es: seq<Event>, k: int) {
    0 <= k < |es| && HasReasoning(es[k]) && forall j :: k < j < |es| ==> !HasReasoning(es[j])
  }

  /** The reply to these events, after what came before them: the first error, if there is
      one; else the texts joined, and the calls and the reasoning of the last event that
      has any. */
  ghost predicate Received(es: seq<Event>, before: Reply, r: Reply)
    requires before.Reply?
  {
    && (forall k :: FirstError(es, k) ==> r == Broken(es[k].error))
    && (Unbroken(es) ==>
          && r.Reply? && r.content == before.content + TextOf(es)
          && (forall k :: LastCalls(es, k) ==> r.calls == es[k].event.calls)
          && ((forall k :: 0 <= k < |es| ==> !HasCalls(es[k])) ==> r.calls == before.calls)
          && (forall k :: LastReasoning(es, k) ==> r.reasoning == es[k].event.reasoning)
          && ((forall k :: 0 <= k < |es| ==> !HasReasoning(es[k])) ==> r.reasoning == before.reasoning))
  }

  function Absorbed(e: Event, r: Reply): Reply
    requires r.Reply? && e.Answer?
  {
    match e.event
    case Delta(text) => Reply(r.content + text, r.reasoning, r.calls)
    case Final(_, calls, reasoning) =>
      Reply(r.content, if reasoning != "" then reasoning else r.reasoning, if calls != [] then calls else r.calls)
  }

  lemma CollectUnfold(es: seq<Event>, r: Reply)
    requires r.Reply? && es != []
    ensures Collect(es, r) == if es[0].Failed? then Broken(es[0].error) else Collect(es[1..], Absorbed(es[0], r))
  {}

  lemma ErrorStep(es: seq<Event>, r: Reply)
    requires es != [] && !es[0].Failed? && forall k :: FirstError(es[1..], k) ==> r == Broken(es[1..][k].error)
    ensures forall k :: FirstError(es, k) ==> r == Broken(es[k].error)
  {
    forall k | FirstError(es, k) ensures r == Broken(es[k].error) {
      assert es[1..][k - 1] == es[k];
      assert forall j :: 0 <= j < k - 1 ==> es[1..][j] == es[j + 1];
      assert FirstError(es[1..], k - 1);
    }
  }

  lemma TextStep(es: seq<Event>, before: Reply, content: string)
    requires es != [] && before.Reply? && es[0].Answer? && content == Absorbed(es[0], before).content + TextOf(es[1..])
    ensures content == before.content + TextOf(es)
  {
    TextHead(es);
    Assoc(before.content, TextIn(es[0]), TextOf(es[1..]));
    assert before.content + "" == before.content;
  }

  lemma CallsStep(es: seq<Event>, before: Reply, calls: seq<Call>)
    requires es != [] && before.Reply? && es[0].Answer?
    requires forall k :: LastCalls(es[1..], k) ==> calls == es[1..][k].event.calls
    requires (forall k :: 0 <= k < |es[1..]| ==> !HasCalls(es[1..][k])) ==> calls == Absorbed(es[0], before).calls
    ensures forall k :: LastCalls(es, k) ==> calls == es[k].event.calls
    ensures (forall k :: 0 <= k < |es| ==> !HasCalls(es[k])) ==> calls == before.calls
  {
    assert forall j :: 0 <= j < |es[1..]| ==> es[1..][j] == es[j + 1];
    forall k | LastCalls(es, k) ensures calls == es[k].event.calls {
      if k > 0 { assert LastCalls(es[1..], k - 1); }
    }
  }

  lemma ReasoningStep(es: seq<Event>, before: Reply, reasoning: string)
    requires es != [] && before.Reply? && es[0].Answer?
    requires forall k :: LastReasoning(es[1..], k) ==> reasoning == es[1..][k].event.reasoning
    requires (forall k :: 0 <= k < |es[1..]| ==> !HasReasoning(es[1..][k])) ==> reasoning == Absorbed(es[0], before).reasoning
    ensures forall k :: LastReasoning(es, k) ==> reasoning == es[k].event.reasoning
    ensures (forall k :: 0 <= k < |es| ==> !HasReasoning(es[k])) ==> reasoning == before.reasoning
  {
    assert forall j :: 0 <= j < |es[1..]| ==> es[1..][j] == es[j + 1];
    forall k | LastReasoning(es, k) ensures reasoning == es[k].event.reasoning {
      if k > 0 { assert LastReasoning(es[1..], k - 1); }
    }
  }

  lemma ReceivedStep(es: seq<Event>, before: Reply, r: Reply)
    requires es != [] && before.Reply? && es[0].Answer? && Received(es[1..], Absorbed(es[0], before), r)
    ensures Received(es, before, r)
  {
    ErrorStep(es, r);
    if Unbroken(es) {
      assert Unbroken(es[1..]);
      TextStep(es, before, r.content);
      CallsStep(es, before, r.calls);
      ReasoningStep(es, before, r.reasoning);
    }
  }

  lemma {:induction false} CollectIs(es: seq<Event>, before: Reply) returns (r: Reply)
    requires before.Reply?
    ensures r == Collect(es, before) && Received(es, before, r)
    decreases |es|
  {
    if es == [] {
      r := before;
      assert before.content + "" == before.content;
    } else {
      CollectUnfold(es, before);
      if es[0].Failed? {
        r := Broken(es[0].error);
      } else {
        r := CollectIs(es[1..], Absorbed(es[0], before));
        ReceivedStep(es, before, r);
      }
    }
  }

  const NOTHING := Reply("", "", [])

  /** A streamed answer, as the events of its chunks. */
  function AnswerOf(evs: seq<ToolCalls.Event>): (es: seq<Event>)
    ensures |es| == |evs| && forall k :: 0 <= k < |es| ==> es[k] == Answer(evs[k])
  {
    seq(|evs|, k requires 0 <= k < |evs| => Answer(evs[k]))
  }

  lemma {:induction false} TextIsDeltas(evs: seq<ToolCalls.Event>)
    ensures TextOf(AnswerOf(evs)) == ToolCalls.Deltas(evs)
    decreases |evs|
  {
    if evs != [] {
      TextHead(AnswerOf(evs));
      assert AnswerOf(evs)[1..] == AnswerOf(evs[1..]);
      TextIsDeltas(evs[1..]);
    }
  }

  /** The content of a streamed answer is the content of its chunks in order. */
  lemma StreamedContent(cs: seq<ToolCalls.Chunk>)
    ensures var r := Collect(AnswerOf(ToolCalls.Events(map[], "", cs)), NOTHING);
            r.Reply? && r.content == ToolCalls.AllContent(cs)
  {
    var evs := ToolCalls.Events(map[], "", cs);
    var r := CollectIs(AnswerOf(evs), NOTHING);
    assert Unbroken(AnswerOf(evs));
    TextIsDeltas(evs);
    ToolCalls.DeltasAreContent(map[], "", cs);
    assert "" + TextOf(AnswerOf(evs)) == TextOf(AnswerOf(evs));
  }

  /** If the last chunk finishes the answer, its calls and its reasoning are put together
      from all the chunks. */
  lemma {:induction false} StreamedCalls(cs: seq<ToolCalls.Chunk>)
    requires cs != [] && cs[|cs| - 1].finish != ""
    ensures var r := Collect(AnswerOf(ToolCalls.Events(map[], "", cs)), NOTHING);
            var calls := ToolCalls.Emitted(ToolCalls.AbsorbAll(map[], ToolCalls.AllFragments(cs)));
            && r.Reply? && (calls != [] ==> r.calls == calls)
            && (ToolCalls.AllReasoning(cs) != "" ==> r.reasoning == ToolCalls.AllReasoning(cs))
  {
    var evs := ToolCalls.Events(map[], "", cs);
    var es := AnswerOf(evs);
    var r := CollectIs(es, NOTHING);
    assert Unbroken(es);
    ToolCalls.FinalEvent(map[], "", cs);
    var calls := ToolCalls.Emitted(ToolCalls.AbsorbAll(map[], ToolCalls.AllFragments(cs)));
    assert "" + ToolCalls.AllReasoning(cs) == ToolCalls.AllReasoning(cs);
    if calls != [] { assert LastCalls(es, |es| - 1); }
    if ToolCalls.AllReasoning(cs) != "" { assert LastReasoning(es, |es| - 1); }
  }

  // ------------------------------------------------------------------- the loops

  method Receive(es: seq<Event>) returns (r: Reply)
    ensures r == Collect(es, NOTHING) && Received(es, NOTHING, r)
  {
    ghost var goal := CollectIs(es, NOTHING);
    var content, reasoning, calls := "", "", [];
    for k := 0 to |es|
      invariant Collect(es[k..], Reply(content, reasoning, calls)) == Collect(es, NOTHING)
    {
      assert es[k..][0] == es[k] && es[k..][1..] == es[k + 1..];
      match es[k]
      case Failed(error) => return Broken(error);
      case Answer(Delta(text)) => content := content + text;
      case Answer(Final(_, cs, rs)) =>
        if rs != "" { reasoning := rs; }
        if cs != [] { calls := cs; }
    }
    return Reply(content, reasoning, calls);
  }

  lemma AnswersNext(env: Env, round: nat, calls: seq<Call>, k: nat)
    requires k < |calls|
    ensures var all := Answers(env, round, calls); all[..k] + [ToolMessage(calls[k], env.outcome(round, k))] == all[..k + 1]
  {}

  lemma SucceededNext(env: Env, round: nat, calls: seq<Call>, k: nat, made: seq<string>)
    requires k < |calls|
    ensures var name, rest := [calls[k].name], Succeeded(env, round, calls, k + 1);
            made + Succeeded(env, round, calls, k) == (if env.outcome(round, k).Success? then made + name else made) + rest
  {
    var rest := Succeeded(env, round, calls, k + 1);
    if env.outcome(round, k).Success? { Assoc(made, [calls[k].name], rest); } else { assert [] + rest == rest; }
  }

  method CallTools(env: Env, round: nat, calls: seq<Call>) returns (answers: seq<Message>, made: seq<string>)
    ensures answers == Answers(env, round, calls) && made == Succeeded(env, round, calls, 0)
  {
    ghost var all := Answers(env, round, calls);
    answers, made := [], [];
    for k := 0 to |calls|
      invariant answers == all[..k]
      invariant made + Succeeded(env, round, calls, k) == Succeeded(env, round, calls, 0)
    {
      var o := env.outcome(round, k);
      AnswersNext(env, round, calls, k);
      answers := answers + [ToolMessage(calls[k], o)];
      SucceededNext(env, round, calls, k, made);
      if o.Success? { made := made + [calls[k].name]; }
    }
  }

  lemma RoundsStep(env: Env, round: nat, messages: seq<Message>, tools: seq<string>, r: Reply)
    requires round < MAX_ROUNDS && !env.cancelled(round) && r == Collect(env.answer(round), NOTHING)
    ensures Rounds(env, round, messages, tools) ==
              if r.Broken? then ([messages], StreamFailed(r.error))
              else if r.calls == [] then ([messages], Finished(r.content, tools))
              else
                var rest := Rounds(env, round + 1, messages + Block(env, round, r), tools + Succeeded(env, round, r.calls, 0));
                ([messages] + rest.0, rest.1)
  {}

  /** The loop over the rounds. */
  method Converse(env: Env, start: seq<Message>) returns (requests: seq<seq<Message>>, result: Result)
    ensures (requests, result) == Rounds(env, 0, start, [])
  {
    var messages, tools := start, [];
    ghost var whole := Rounds(env, 0, messages, tools);
    requests := [];
    assert requests + whole.0 == whole.0;
    for round := 0 to MAX_ROUNDS
      invariant (requests + Rounds(env, round, messages, tools).0, Rounds(env, round, messages, tools).1) == whole
    {
      assert requests + [] == requests;
      if env.cancelled(round) { return requests, Cancelled; }
      var r := Receive(env.answer(round));
      RoundsStep(env, round, messages, tools, r);
      ghost var before := requests;
      requests := requests + [messages];
      match r
      case Broken(error) => return requests, StreamFailed(error);
      case Reply(content, _, calls) =>
        if calls == [] { return requests, Finished(content, tools); }
        var answers, made := CallTools(env, round, calls);
        var sent := messages;
        messages := messages + ([Message("assistant", content, r.reasoning, calls, "")] + answers);
        tools := tools + made;
        Assoc(before, [sent], Rounds(env, round + 1, messages, tools).0);
    }
    assert requests + [] == requests;
    return requests, OutOfRounds;
  }

  method Run(env: Env, prompt: string, history: seq<Message>, user: string)
    returns (requests: seq<seq<Message>>, result: Result)
    ensures (requests, result) == Rounds(env, 0, Start(prompt, history, user), [])
    ensures RunIs(env, 0, Start(prompt, history, user), requests, result, [])
  {
    var start := Start(prompt, history, user);
    ghost var sent, end := RoundsAre(env, 0, start, []);
    requests, result := Converse(env, start);
  }

  // ---------------------------------------------------------------- transcripts

  /** Every message with tool calls is followed by one tool message per call, in
      order and with its ID, and there are no other tool messages. */
  ghost predicate WellFormed(ms: seq<Message>) {
    && (forall p, k :: 0 <= p < |ms| && 0 <= k < |ms[p].calls| ==> HasAnswer(ms, p, k))
    && (forall q :: 0 <= q < |ms| && ms[q].role == "tool" ==> Answered(ms, q))
  }

  ghost predicate HasAnswer(ms: seq<Message>, p: int, k: int)
    requires 0 <= p < |ms| && 0 <= k < |ms[p].calls|
  {
    p + k + 1 < |ms| && ms[p + k + 1].role == "tool" && ms[p + k + 1].callId == ms[p].calls[k].id
  }

  ghost predicate Answered(ms: seq<Message>, q: int)
    requires 0 <= q < |ms|
  {
    exists p :: 0 <= p < q && q - p <= |ms[p].calls|
  }

  /** Stored history: no tool calls and no tool messages. */
  ghost predicate IsHistory(h: seq<Message>) { forall i :: 0 <= i < |h| ==> h[i].calls == [] && h[i].role != "tool" }

  lemma HistoryIsWellFormed(prompt: string, h: seq<Message>, user: string)
    requires IsHistory(h)
    ensures WellFormed(Start(prompt, h, user))
  {}

  lemma AnsweredStays(ms: seq<Message>, more: seq<Message>, q: int)
    requires 0 <= q < |ms| && Answered(ms, q)
    ensures Answered(ms + more, q)
  {
    var p :| 0 <= p < q && q - p <= |ms[p].calls|;
    assert (ms + more)[p] == ms[p];
  }

  /** A message with calls and the tool messages answering them. */
  ghost predicate IsBlock(b: seq<Message>) {
    && |b| > 0 && |b| == 1 + |b[0].calls| && b[0].role != "tool"
    && forall k :: 0 < k < |b| ==> b[k].role == "tool" && b[k].calls == [] && b[k].callId == b[0].calls[k - 1].id
  }

  lemma ReplyIsBlock(env: Env, round: nat, r: Reply)
    requires r.Reply?
    ensures IsBlock(Block(env, round, r))
  {
    var b := Block(env, round, r);
    assert "assistant"[0] != "tool"[0];
    forall k | 0 < k < |b| ensures b[k] == ToolMessage(r.calls[k - 1], env.outcome(round, k - 1)) {}
  }

  lemma CallsAnswered(ms: seq<Message>, b: seq<Message>, p: int, k: int)
    requires WellFormed(ms) && IsBlock(b)
    requires 0 <= p < |ms + b| && 0 <= k < |(ms + b)[p].calls|
    ensures HasAnswer(ms + b, p, k)
  {
    var n, all := |ms|, ms + b;
    if p < n {
      assert all[p] == ms[p];
      assert HasAnswer(ms, p, k);
      assert all[p + k + 1] == ms[p + k + 1];
    } else {
      assert all[p] == b[p - n];
      assert p == n;
      assert all[p + k + 1] == b[k + 1];
    }
  }

  lemma BlockKeeps(ms: seq<Message>, b: seq<Message>)
    requires WellFormed(ms) && IsBlock(b)
    ensures WellFormed(ms + b)
  {
    var n, all := |ms|, ms + b;
    forall p, k | 0 <= p < |all| && 0 <= k < |all[p].calls| ensures HasAnswer(all, p, k) {
      CallsAnswered(ms, b, p, k);
    }
    forall q | 0 <= q < |all| && all[q].role == "tool" ensures Answered(all, q) {
      if q < n {
        AnsweredStays(ms, b, q);
      } else {
        assert all[n] == b[0] && all[q] == b[q - n];
        assert n < q && q - n <= |all[n].calls|;
      }
    }
  }

  ghost predicate AllWellFormed(requests: seq<seq<Message>>) {
    forall i :: 0 <= i < |requests| ==> WellFormed(requests[i])
  }

  ghost predicate Growing(requests: seq<seq<Message>>) {
    forall i :: 0 < i < |requests| ==> requests[i - 1] < requests[i]
  }

  lemma Prepend(ms: seq<Message>, requests: seq<seq<Message>>)
    requires WellFormed(ms) && AllWellFormed(requests) && Growing(requests) && (requests != [] ==> ms < requests[0])
    ensures AllWellFormed([ms] + requests) && Growing([ms] + requests)
  {}

  /** At most as many requests as rounds are left; each is well formed and extends
      the one before. */
  lemma {:induction false} RoundsAreWellFormed(env: Env, round: nat, ms: seq<Message>, tools: seq<string>)
    requires WellFormed(ms) && round <= MAX_ROUNDS
    ensures var requests := Rounds(env, round, ms, tools).0;
            && |requests| <= MAX_ROUNDS - round && (requests != [] ==> requests[0] == ms)
            && AllWellFormed(requests) && Growing(requests)
    decreases MAX_ROUNDS - round
  {
    if round < MAX_ROUNDS && !env.cancelled(round) {
      var r := Collect(env.answer(round), NOTHING);
      if r.Reply? && r.calls != [] {
        var next, made := ms + Block(env, round, r), tools + Succeeded(env, round, r.calls, 0);
        ReplyIsBlock(env, round, r);
        BlockKeeps(ms, Block(env, round, r));
        RoundsAreWellFormed(env, round + 1, next, made);
        Prepend(ms, Rounds(env, round + 1, next, made).0);
      }
    }
  }

  /** The prompt, then the history as it is, then the user's message. */
  ghost predicate Opens(ms: seq<Message>, prompt: string, history: seq<Message>, user: string) {
    && |ms| == |history| + 2 && ms[0] == Message("system", prompt, "", [], "")
    && ms[|ms| - 1] == Message("user", user, "", [], "") && ms[1..|ms| - 1] == history
  }

  /** Every transcript a run sends is well formed and extends the one before; the
      first is the prompt, the history and the user's message; there are at most
      ten; and the run gives up only after ten rounds of tool calls. */
  lemma RunIsWellFormed(env: Env, prompt: string, history: seq<Message>, user: string)
    requires IsHistory(history)
    ensures var (requests, result) := Rounds(env, 0, Start(prompt, history, user), []);
            && |requests| <= 10 && AllWellFormed(requests) && Growing(requests)
            && (requests != [] ==> Opens(requests[0], prompt, history, user))
            && (result == OutOfRounds ==> |requests| == 10)
  {
    var ms := Start(prompt, history, user);
    HistoryIsWellFormed(prompt, history, user);
    RoundsAreWellFormed(env, 0, ms, []);
    OutOfRoundsMeansAll(env, 0, ms, []);
  }

  lemma {:induction false} OutOfRoundsMeansAll(env: Env, round: nat, ms: seq<Message>, tools: seq<string>)
    requires round <= MAX_ROUNDS
    ensures var (requests, result) := Rounds(env, round, ms, tools); result == OutOfRounds ==> |requests| == MAX_ROUNDS - round
    decreases MAX_ROUNDS - round
  {
    if round < MAX_ROUNDS && !env.cancelled(round) {
      var r := Collect(env.answer(round), NOTHING);
      if r.Reply? && r.calls != [] {
        OutOfRoundsMeansAll(env, round + 1, ms + Block(env, round, r), tools + Succeeded(env, round, r.calls, 0));
      }
    }
  }

  // ------------------------------------------------------------------ the whole run

  ghost function ReplyTo(env: Env, round: nat): Reply { Collect(env.answer(round), NOTHING) }

  /** The round was answered with tool calls. */
  ghost predicate Calls(env: Env, round: nat) { ReplyTo(env, round).Reply? && ReplyTo(env, round).calls != [] }

  /** What a round with calls adds: the answer as it came, and for every call in order a
      message with the call's ID and the text of its outcome. */
  ghost predicate Extends(env: Env, round: nat, ms: seq<Message>, ms': seq<Message>)
    requires Calls(env, round)
  {
    var r, n := ReplyTo(env, round), |ms|;
    && ms < ms' && |ms'| == n + 1 + |r.calls|
    && ms'[n] == Message("assistant", r.content, r.reasoning, r.calls, "")
    && forall k :: 0 <= k < |r.calls| ==>
         ms'[n + 1 + k] == Message("tool", env.outcome(round, k).text, "", [], r.calls[k].id)
  }

  lemma BlockExtends(env: Env, round: nat, ms: seq<Message>)
    requires Calls(env, round)
    ensures Extends(env, round, ms, ms + Block(env, round, ReplyTo(env, round)))
  {
    var r := ReplyTo(env, round);
    var b := Block(env, round, r);
    forall k | 0 <= k < |r.calls|
      ensures (ms + b)[|ms| + 1 + k] == Message("tool", env.outcome(round, k).text, "", [], r.calls[k].id)
    {
      assert (ms + b)[|ms| + 1 + k] == b[1 + k] && b[1 + k] == Answers(env, round, r.calls)[k];
    }
  }

  /** A tool call of a run: its round and its place in the round. */
  type Place = (nat, nat)

  ghost predicate Before(a: Place, b: Place) { a.0 < b.0 || (a.0 == b.0 && a.1 < b.1) }

  ghost predicate InOrder(order: seq<Place>) { forall i, j :: 0 <= i < j < |order| ==> Before(order[i], order[j]) }

  ghost predicate Worked(env: Env, p: Place) {
    Calls(env, p.0) && p.1 < |ReplyTo(env, p.0).calls| && env.outcome(p.0, p.1).Success?
  }

  ghost function NameAt(env: Env, p: Place): string
    requires Worked(env, p)
  {
    ReplyTo(env, p.0).calls[p.1].name
  }

  /** The names are those of the calls at these places, which are the successful calls of
      the rounds from lo to hi in order. */
  ghost predicate Lists(env: Env, lo: int, hi: int, order: seq<Place>, names: seq<string>) {
    && InOrder(order) && (forall p: Place :: p in order <==> lo <= p.0 < hi && Worked(env, p))
    && |names| == |order| && forall i :: 0 <= i < |order| ==> Worked(env, order[i]) && names[i] == NameAt(env, order[i])
  }

  /** The successful calls of one round from the k-th on. */
  ghost function Successes(env: Env, round: nat, n: nat, k: nat): seq<Place>
    decreases n - k
  {
    if k >= n then []
    else (if env.outcome(round, k).Success? then [(round, k)] else []) + Successes(env, round, n, k + 1)
  }

  lemma {:induction false} SuccessesAre(env: Env, round: nat, n: nat, k: nat)
    ensures forall p: Place :: p in Successes(env, round, n, k) <==> p.0 == round && k <= p.1 < n && env.outcome(round, p.1).Success?
    ensures InOrder(Successes(env, round, n, k))
    decreases n - k
  {
    if k < n {
      SuccessesAre(env, round, n, k + 1);
      var rest := Successes(env, round, n, k + 1);
      assert forall i :: 0 <= i < |rest| ==> rest[i] in rest;
    }
  }

  lemma {:induction false} SucceededAre(env: Env, round: nat, calls: seq<Call>, k: nat)
    ensures var order, names := Successes(env, round, |calls|, k), Succeeded(env, round, calls, k);
            |names| == |order| && forall i :: 0 <= i < |order| ==> order[i].1 < |calls| && names[i] == calls[order[i].1].name
    decreases |calls| - k
  {
    if k < |calls| { SucceededAre(env, round, calls, k + 1); }
  }

  lemma RoundLists(env: Env, round: nat) returns (order: seq<Place>)
    requires Calls(env, round)
    ensures Lists(env, round, round + 1, order, Succeeded(env, round, ReplyTo(env, round).calls, 0))
  {
    var calls := ReplyTo(env, round).calls;
    order := Successes(env, round, |calls|, 0);
    SuccessesAre(env, round, |calls|, 0);
    SucceededAre(env, round, calls, 0);
    assert forall i :: 0 <= i < |order| ==> order[i] in order;
  }

  lemma ListsJoin(env: Env, lo: int, mid: int, hi: int, a: seq<Place>, b: seq<Place>, x: seq<string>, y: seq<string>)
    requires lo <= mid <= hi && Lists(env, lo, mid, a, x) && Lists(env, mid, hi, b, y)
    ensures Lists(env, lo, hi, a + b, x + y)
  {
    forall i, j | 0 <= i < j < |a + b| ensures Before((a + b)[i], (a + b)[j]) {
      if i < |a| { assert (a + b)[i] == a[i] && a[i] in a; }
      if j >= |a| { assert (a + b)[j] == b[j - |a|] && b[j - |a|] in b; }
    }
  }

  /** The tools reported are those reported before and the successful calls from lo to hi. */
  ghost predicate Reports(env: Env, lo: int, hi: int, made: seq<string>, tools: seq<string>) {
    exists order, names :: Lists(env, lo, hi, order, names) && tools == made + names
  }

  /** The rounds from lo to hi were answered with calls, and each request extends the one
      before accordingly. */
  ghost predicate Extended(env: Env, lo: nat, hi: int, requests: seq<seq<Message>>) {
    && hi - lo < |requests|
    && forall j :: lo <= j < hi ==> Calls(env, j) && Extends(env, j, requests[j - lo], requests[j - lo + 1])
  }

  ghost predicate NoneCancelled(env: Env, lo: nat, hi: int) { forall j :: lo <= j < hi ==> !env.cancelled(j) }

  /** A run from `round` on that sends these requests: no round was cancelled, every
      request but the last was answered with calls and extended accordingly, and the last
      answer, or the lack of one, decides how the run ends. */
  ghost predicate RunIs(env: Env, round: nat, ms: seq<Message>, requests: seq<seq<Message>>, result: Result, made: seq<string>) {
    var end := round + |requests|;
    && end <= MAX_ROUNDS && NoneCancelled(env, round, end)
    && (requests != [] ==> requests[0] == ms && Extended(env, round, end - 1, requests))
    && match result
       case Cancelled => (requests != [] ==> Calls(env, end - 1)) && end < MAX_ROUNDS && env.cancelled(end)
       case OutOfRounds => (requests != [] ==> Calls(env, end - 1)) && end == MAX_ROUNDS
       case StreamFailed(error) => requests != [] && ReplyTo(env, end - 1) == Broken(error)
       case Finished(content, tools) =>
         && requests != [] && ReplyTo(env, end - 1).Reply? && ReplyTo(env, end - 1).calls == []
         && content == ReplyTo(env, end - 1).content && Reports(env, round, end - 1, made, tools)
  }

  lemma ExtendedStep(env: Env, round: nat, hi: int, ms: seq<Message>, requests: seq<seq<Message>>)
    requires requests != [] && Calls(env, round) && Extends(env, round, ms, requests[0])
    requires Extended(env, round + 1, hi, requests)
    ensures Extended(env, round, hi, [ms] + requests)
  {
    var all := [ms] + requests;
    forall j | round <= j < hi ensures Calls(env, j) && Extends(env, j, all[j - round], all[j - round + 1]) {
      if j > round {
        assert all[j - round] == requests[j - (round + 1)] && all[j - round + 1] == requests[j - (round + 1) + 1];
      }
    }
  }

  lemma ReportsStep(env: Env, round: nat, hi: int, order: seq<Place>, made: seq<string>, more: seq<string>, tools: seq<string>)
    requires round < hi && Lists(env, round, round + 1, order, more) && Reports(env, round + 1, hi, made + more, tools)
    ensures Reports(env, round, hi, made, tools)
  {
    var later, names :| Lists(env, round + 1, hi, later, names) && tools == (made + more) + names;
    ListsJoin(env, round, round + 1, hi, order, later, more, names);
    Assoc(made, more, names);
  }

  lemma RunStep(env: Env, round: nat, ms: seq<Message>, next: seq<Message>, requests: seq<seq<Message>>, result: Result,
                made: seq<string>, more: seq<string>, order: seq<Place>)
    requires round < MAX_ROUNDS && !env.cancelled(round) && Calls(env, round) && Extends(env, round, ms, next)
    requires Lists(env, round, round + 1, order, more) && RunIs(env, round + 1, next, requests, result, made + more)
    ensures RunIs(env, round, ms, [ms] + requests, result, made)
  {
    var end := round + 1 + |requests|;
    if requests != [] {
      ExtendedStep(env, round, end - 1, ms, requests);
    } else {
      assert Extended(env, round, end - 1, [ms]) && [ms] + requests == [ms];
    }
    if result.Finished? { ReportsStep(env, round, end - 1, order, made, more, result.tools); }
  }

  lemma NoLists(env: Env, at: int)
    ensures Lists(env, at, at, [], [])
  {}

  lemma LastRound(env: Env, round: nat, ms: seq<Message>, made: seq<string>)
    requires round < MAX_ROUNDS && !env.cancelled(round) && !Calls(env, round)
    ensures var (requests, result) := Rounds(env, round, ms, made); RunIs(env, round, ms, requests, result, made)
  {
    NoLists(env, round);
    assert made + [] == made;
    assert Reports(env, round, round, made, made);
  }

  lemma {:induction false} RoundsAre(env: Env, round: nat, ms: seq<Message>, made: seq<string>)
    returns (requests: seq<seq<Message>>, result: Result)
    requires round <= MAX_ROUNDS
    ensures (requests, result) == Rounds(env, round, ms, made) && RunIs(env, round, ms, requests, result, made)
    decreases MAX_ROUNDS - round
  {
    if round == MAX_ROUNDS || env.cancelled(round) {
      requests, result := [], if round == MAX_ROUNDS then OutOfRounds else Cancelled;
    } else if !Calls(env, round) {
      LastRound(env, round, ms, made);
      requests, result := Rounds(env, round, ms, made).0, Rounds(env, round, ms, made).1;
    } else {
      var r := ReplyTo(env, round);
      var next, more := ms + Block(env, round, r), Succeeded(env, round, r.calls, 0);
      var later, end := RoundsAre(env, round + 1, next, made + more);
      var order := RoundLists(env, round);
      BlockExtends(env, round, ms);
      RunStep(env, round, ms, next, later, end, made, more, order);
      requests, result := [ms] + later, end;
    }
  }
}
