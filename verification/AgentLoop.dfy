/** The bounded step loop of one run (src/loro/runtime.py:283-298, 316-333, 369-532). */
module AgentLoop {
  import opened Common
  import opened Messages
  import opened Context
  import opened Budgets

  /** What the text of a response holds: directives that cannot be read, or a number of well-formed ones. */
  datatype Directives = Malformed(error: string) | Textual(count: nat)

  /** `content` is `raw` after the output policy; `native` are the provider's own tool calls. */
  datatype Response =
    | ProviderError
    | Answer(raw: string, usage: Usage, content: string, native: seq<ToolCall>, directives: Directives)

  datatype Stop = Completed | MaxSteps | Exceeded(budget: Budget) | ProviderFailed

  /** One model call: what was sent, the totals before it, and what came back. */
  datatype Turn = Turn(sent: seq<Message>, before: Totals, response: Response)

  // ---- Conversations providers accept ----

  function ResultFor(call: ToolCall): ToolResult {
    ToolResult(call.name, call.callId)
  }

  function ResultsFor(calls: seq<ToolCall>): seq<ToolResult> {
    seq(|calls|, i requires 0 <= i < |calls| => ResultFor(calls[i]))
  }

  /** Roles differ, and tool results answer the calls of the assistant message just before, in number, order and id. */
  predicate Follows(m: Message, next: Message) {
    m.role != next.role && next.results == (if m.role == Assistant then ResultsFor(m.calls) else [])
  }

  predicate Sendable(messages: seq<Message>) {
    && messages != [] && messages[0].role == User && messages[|messages| - 1].role != Assistant
    && (forall i :: 0 < i < |messages| ==> Follows(messages[i - 1], messages[i]))
  }

  /** Assistant and user side take turns, and a message is on the tool side exactly when it answers calls. */
  predicate Sided(m: Message, next: Message) {
    && (m.role == Assistant <==> next.role != Assistant)
    && (m.role == Assistant ==> (next.role == Tool <==> m.calls != []))
  }

  predicate AllSided(messages: seq<Message>) {
    forall i :: 0 < i < |messages| ==> Sided(messages[i - 1], messages[i])
  }

  predicate Bare(m: Message) {
    m.calls == [] && m.results == []
  }

  predicate AllBare(messages: seq<Message>) {
    forall i :: 0 <= i < |messages| ==> Bare(messages[i])
  }

  predicate NoToolTurns(messages: seq<Message>) {
    forall i :: 0 <= i < |messages| ==> messages[i].role != Tool
  }

  /** What the runtime keeps of an earlier message: role and text. */
  function Stripped(messages: seq<Message>): (bare: seq<Message>)
    ensures |bare| == |messages|
    ensures forall i :: 0 <= i < |messages| ==> bare[i] == Text(messages[i].role, messages[i].content)
  {
    seq(|messages|, i requires 0 <= i < |messages| => Text(messages[i].role, messages[i].content))
  }

  lemma {:induction false} MergedIsBare(messages: seq<Message>)
    requires AllBare(messages)
    ensures AllBare(MergeRuns(messages)) && AllBare(FromFirstUser(messages))
    ensures NoToolTurns(messages) ==> NoToolTurns(MergeRuns(messages)) && NoToolTurns(FromFirstUser(messages))
  {
    if messages != [] {
      MergedIsBare(messages[1..]);
    }
  }

  lemma BareIsSendable(messages: seq<Message>)
    requires AllBare(messages) && Alternates(messages)
    requires messages != [] && messages[0].role == User && messages[|messages| - 1].role == User
    ensures Sendable(messages) && (NoToolTurns(messages) ==> AllSided(messages))
  {
    forall i | 0 < i < |messages| ensures Follows(messages[i - 1], messages[i]) {
      assert Bare(messages[i - 1]) && Bare(messages[i]);
    }
  }

  /** The rendered context, or the current message alone (runtime.py:316-333), for any earlier messages at all. */
  method InitialMessages(messagesMode: bool, history: seq<Message>, summary: string, current: string)
    returns (messages: seq<Message>)
    ensures messages == if messagesMode
                        then MergeRuns(FromFirstUser(Ordered(Stripped(history), summary, Text(User, current))))
                        else [Text(User, current)]
    ensures Sendable(messages) && (NoToolTurns(history) ==> AllSided(messages))
  {
    if !messagesMode { return [Text(User, current)]; }
    messages := RenderHistory(Stripped(history), summary, Text(User, current));
    RenderedIsBare(history, summary, Text(User, current), messages);
    BareIsSendable(messages);
  }

  lemma RenderedIsBare(history: seq<Message>, summary: string, current: Message, rendered: seq<Message>)
    requires current == Text(User, current.content)
    requires rendered == MergeRuns(FromFirstUser(Ordered(Stripped(history), summary, current)))
    ensures AllBare(rendered) && (NoToolTurns(history) ==> NoToolTurns(rendered))
  {
    var ordered := Ordered(Stripped(history), summary, current);
    OrderedIsBare(Stripped(history), summary, current);
    MergedIsBare(ordered);
    MergedIsBare(FromFirstUser(ordered));
  }

  lemma OrderedIsBare(history: seq<Message>, summary: string, current: Message)
    requires AllBare(history) && Bare(current) && current.role == User
    ensures AllBare(Ordered(history, summary, current))
    ensures NoToolTurns(history) ==> NoToolTurns(Ordered(history, summary, current))
  {
  }

  // ---- One model call and what follows from it ----

  predicate NoCalls(r: Response) {
    r.Answer? && r.native == [] && r.directives == Textual(0)
  }

  /** How many tool calls a response asks for; none can be told from malformed directives. */
  function CallCount(r: Response): nat {
    if r.Answer? && r.directives.Textual? then |r.native| + r.directives.count else 0
  }

  function AfterResponse(l: Limits, t: Turn): Totals {
    if t.response.ProviderError? then t.before
    else Charged(l, t.before, EstimatedInput(t.sent), t.response.raw, t.response.usage)
  }

  /** The response came, fits, and left every total within its limit. */
  predicate Accepted(l: Limits, t: Turn) {
    t.response.Answer? && OutputRefusal(l, AfterResponse(l, t), t.response.raw) == None
  }

  function After(l: Limits, t: Turn): Totals {
    var totals := AfterResponse(l, t);
    totals.(toolCalls := totals.toolCalls + if Accepted(l, t) then CallCount(t.response) else 0)
  }

  predicate GoesOn(l: Limits, t: Turn) {
    Accepted(l, t) && !NoCalls(t.response)
    && (t.response.directives.Malformed? || After(l, t).toolCalls <= l.toolCalls)
  }

  /** How many tool calls are executed: all that were asked for, or none. */
  function Ran(l: Limits, t: Turn): nat {
    if GoesOn(l, t) then CallCount(t.response) else 0
  }

  /** Why a run ends after a call it does not go on from. */
  function EndOf(l: Limits, t: Turn): Stop {
    if t.response.ProviderError? then ProviderFailed
    else
      var refused := OutputRefusal(l, AfterResponse(l, t), t.response.raw);
      if refused.Some? then Exceeded(refused.value)
      else if NoCalls(t.response) then Completed
      else Exceeded(ToolCalls)
  }

  const REISSUE := "Re-issue the tool directive as a single line of the form "
                   + "`@tool {\"name\": \"<tool>\", \"args\": {...}}` with strictly valid "
                   + "JSON, or respond without tool directives if you are done."
  const CONTINUE := "Continue the task. If you are done, respond without tool directives."

  function Reply(r: Response): Message
    requires r.Answer?
  {
    Message(Assistant, r.content, if r.directives.Malformed? then [] else r.native, [])
  }

  /** The message after it; `outputs` is the text of the results of the textual calls. */
  function AnswerTo(r: Response, outputs: string): Message
    requires r.Answer?
  {
    match r.directives
    case Malformed(error) => Text(User, "Tool directive parse error:\n" + error + "\n\n" + REISSUE)
    case Textual(count) =>
      Message(if r.native != [] then Tool else User,
              (if count > 0 then "Tool results:\n" + outputs + "\n\n" else "") + CONTINUE,
              [], ResultsFor(r.native))
  }

  function Continued(t: Turn, outputs: string): seq<Message>
    requires t.response.Answer?
  {
    t.sent + [Reply(t.response), AnswerTo(t.response, outputs)]
  }

  lemma ContinuedIsSendable(t: Turn, outputs: string)
    requires t.response.Answer? && Sendable(t.sent)
    ensures Sendable(Continued(t, outputs)) && (AllSided(t.sent) ==> AllSided(Continued(t, outputs)))
  {
    var all, n := Continued(t, outputs), |t.sent|;
    forall i | 0 < i < |all| ensures Follows(all[i - 1], all[i]) && (AllSided(t.sent) ==> Sided(all[i - 1], all[i])) {
      if i < n {
        assert all[i - 1] == t.sent[i - 1] && all[i] == t.sent[i];
      } else if i == n {
        assert all[i - 1] == t.sent[n - 1] && all[i] == Reply(t.response);
      } else {
        assert all[i - 1] == Reply(t.response) && all[i] == AnswerTo(t.response, outputs);
      }
    }
  }

  // ---- The model calls of a run ----

  /** What a run works on: `respond(k)` is what the provider does at the k-th call, `outputs(k)` the outputs after it. */
  datatype Input = Input(limits: Limits, maxSteps: int, initialCalls: nat, start: seq<Message>,
                         respond: nat -> Response, outputs: nat -> string)

  /** A limit below zero allows no step. */
  function StepBound(x: Input): nat {
    if x.maxSteps < 0 then 0 else x.maxSteps
  }

  function NextSent(x: Input, turns: seq<Turn>): seq<Message>
    requires turns != [] ==> turns[|turns| - 1].response.Answer?
  {
    if turns == [] then x.start else Continued(turns[|turns| - 1], x.outputs(|turns|))
  }

  function NextTotals(x: Input, turns: seq<Turn>): Totals {
    if turns == [] then Totals(0, 0, 0, x.initialCalls) else After(x.limits, turns[|turns| - 1])
  }

  /** The call that comes after these, if the budgets let it through. */
  function NextCall(x: Input, turns: seq<Turn>): Turn
    requires turns != [] ==> turns[|turns| - 1].response.Answer?
  {
    Turn(NextSent(x, turns), NextTotals(x, turns), x.respond(|turns| + 1))
  }

  predicate LastGoesOn(x: Input, turns: seq<Turn>) {
    turns != [] ==> GoesOn(x.limits, turns[|turns| - 1])
  }

  /**
   * Each call continues the conversation and the totals of the one before it, was let through by the budgets, and
   * got the provider's next response.
   */
  predicate Calls(x: Input, turns: seq<Turn>) {
    turns == [] || (
      var front, last := turns[..|turns| - 1], turns[|turns| - 1];
      && Calls(x, front) && LastGoesOn(x, front)
      && last == NextCall(x, front)
      && InputRefusal(x.limits, last.before, last.sent) == None)
  }

  function TotalRan(l: Limits, turns: seq<Turn>): nat {
    if turns == [] then 0 else TotalRan(l, turns[..|turns| - 1]) + Ran(l, turns[|turns| - 1])
  }

  datatype Outcome = Outcome(stop: Stop, steps: nat, executed: nat, turns: seq<Turn>)

  /** The run itself, up to the point where it ends. */
  predicate IsRun(x: Input, o: Outcome) {
    if x.initialCalls > x.limits.toolCalls then o == Outcome(Exceeded(ToolCalls), 0, 0, [])
    else
      && Calls(x, o.turns) && |o.turns| <= StepBound(x)
      && o.executed == x.initialCalls + TotalRan(x.limits, o.turns)
      && (if !LastGoesOn(x, o.turns) then
            o.stop == EndOf(x.limits, o.turns[|o.turns| - 1]) && o.steps == |o.turns|
          else if |o.turns| == StepBound(x) then
            o.stop == MaxSteps && o.steps == StepBound(x)
          else
            var refused := InputRefusal(x.limits, NextTotals(x, o.turns), NextSent(x, o.turns));
            refused.Some? && o.stop == Exceeded(refused.value) && o.steps == |o.turns| + 1)
  }

  lemma {:induction false} CallsOfPrefix(x: Input, turns: seq<Turn>, n: nat)
    requires Calls(x, turns) && n <= |turns|
    ensures Calls(x, turns[..n])
    ensures n < |turns| ==> LastGoesOn(x, turns[..n])
    ensures n < |turns| ==> turns[n] == NextCall(x, turns[..n])
                            && InputRefusal(x.limits, turns[n].before, turns[n].sent) == None
  {
    if n == |turns| {
      assert turns[..n] == turns;
    } else if n < |turns| - 1 {
      var front := turns[..|turns| - 1];
      CallsOfPrefix(x, front, n);
      assert front[..n] == turns[..n] && front[n] == turns[n];
    }
  }

  lemma {:induction false} SameCalls(x: Input, a: seq<Turn>, b: seq<Turn>)
    requires Calls(x, a) && Calls(x, b) && |a| <= |b|
    ensures a == b[..|a|]
  {
    if a != [] {
      var n := |a| - 1;
      var front := a[..n];
      SameCalls(x, front, b);
      CallsOfPrefix(x, b, n);
      assert a[n] == NextCall(x, front) == b[n];
      OneLonger(a, b, n);
    }
  }

  lemma OneLonger<T>(a: seq<T>, b: seq<T>, n: nat)
    requires |a| == n + 1 <= |b| && a[..n] == b[..n] && a[n] == b[n]
    ensures a == b[..n + 1]
  {
  }

  lemma CallAdded(x: Input, turns: seq<Turn>, t: Turn)
    requires Calls(x, turns) && LastGoesOn(x, turns) && t == NextCall(x, turns)
    requires InputRefusal(x.limits, t.before, t.sent) == None
    ensures Calls(x, turns + [t])
    ensures TotalRan(x.limits, turns + [t]) == TotalRan(x.limits, turns) + Ran(x.limits, t)
  {
    assert (turns + [t])[..|turns|] == turns;
  }

  /** The conditions leave no choice: limits, start, responses and outputs determine the whole run. */
  lemma RunIsUnique(x: Input, a: Outcome, b: Outcome)
    ensures IsRun(x, a) && IsRun(x, b) ==> a == b
  {
    if x.initialCalls <= x.limits.toolCalls {
      if |a.turns| <= |b.turns| {
        ShorterRunIsSame(x, a, b);
      } else {
        ShorterRunIsSame(x, b, a);
      }
    }
  }

  lemma ShorterRunIsSame(x: Input, a: Outcome, b: Outcome)
    requires x.initialCalls <= x.limits.toolCalls && |a.turns| <= |b.turns|
    ensures IsRun(x, a) && IsRun(x, b) ==> a == b
  {
    if IsRun(x, a) && IsRun(x, b) {
      var n := |a.turns|;
      SameCalls(x, a.turns, b.turns);
      if n < |b.turns| {
        CallsOfPrefix(x, b.turns, n);
      } else {
        assert b.turns[..n] == b.turns;
        SameEnd(x, a, b);
      }
    }
  }

  lemma SameEnd(x: Input, a: Outcome, b: Outcome)
    requires IsRun(x, a) && IsRun(x, b) && a.turns == b.turns
    ensures a == b
  {
  }

  // ---- What holds of every run ----

  /** The call was made with an acceptable conversation, all totals within limits, and room for its input. */
  predicate ProperCall(l: Limits, t: Turn) {
    && Sendable(t.sent) && Within(l, t.before) && Priced(l, t.before)
    && InputBytes(t.sent) <= l.inputBytes
    && !Over(t.before.inputTokens + EstimatedInput(t.sent), l.inputTokens)
    && !Over(t.before.cost + EstimatedInput(t.sent) * l.inputPrice, l.cost)
  }

  /** Before the next call every total is within its limit and the cost is the price of the tokens. */
  lemma {:induction false} TotalsBeforeNext(x: Input, turns: seq<Turn>)
    requires x.initialCalls <= x.limits.toolCalls && Calls(x, turns) && LastGoesOn(x, turns)
    ensures Within(x.limits, NextTotals(x, turns)) && Priced(x.limits, NextTotals(x, turns))
    ensures NextTotals(x, turns).toolCalls == x.initialCalls + TotalRan(x.limits, turns)
  {
    if turns != [] {
      TotalsBeforeNext(x, turns[..|turns| - 1]);
      TurnKeepsTotals(x.limits, turns[|turns| - 1]);
    }
  }

  /** And the conversation is acceptable. */
  lemma {:induction false} ConversationBeforeNext(x: Input, turns: seq<Turn>)
    requires Sendable(x.start) && Calls(x, turns) && LastGoesOn(x, turns)
    ensures Sendable(NextSent(x, turns)) && (AllSided(x.start) ==> AllSided(NextSent(x, turns)))
  {
    hide Sendable, AllSided, Continued;
    if turns != [] {
      ConversationBeforeNext(x, turns[..|turns| - 1]);
      ContinuedIsSendable(turns[|turns| - 1], x.outputs(|turns|));
    }
  }

  lemma TurnKeepsTotals(l: Limits, t: Turn)
    requires Within(l, t.before) && Priced(l, t.before) && GoesOn(l, t)
    ensures Within(l, After(l, t)) && Priced(l, After(l, t))
    ensures After(l, t).toolCalls == t.before.toolCalls + Ran(l, t)
  {
    LetThroughExactlyWhen(l, t.before, EstimatedInput(t.sent), t.response.raw, t.response.usage);
    ChargesArePriced(l, t.before, EstimatedInput(t.sent), t.response.raw, t.response.usage);
  }

  /**
   * Every model call of every run is made with an acceptable conversation and every total within its limit; every
   * response but the last was accepted and left the totals within limits, so only the last one can overshoot.
   */
  lemma EveryCallIsProper(x: Input, o: Outcome, k: nat)
    requires Sendable(x.start) && IsRun(x, o) && k < |o.turns|
    ensures ProperCall(x.limits, o.turns[k]) && o.turns[k].response == x.respond(k + 1)
    ensures AllSided(x.start) ==> AllSided(o.turns[k].sent)
    ensures k < |o.turns| - 1 ==> GoesOn(x.limits, o.turns[k]) && Within(x.limits, After(x.limits, o.turns[k]))
  {
    hide NextSent, NextTotals, Within, Charged, OutputRefusal, InputRefusal, Sendable, AllSided, Priced;
    CallsOfPrefix(x, o.turns, k);
    NextCallIsProper(x, o.turns[..k], o.turns[k]);
    if k < |o.turns| - 1 {
      CallsOfPrefix(x, o.turns, k + 1);
      assert o.turns[..k + 1][k] == o.turns[k];
      TurnKeepsTotals(x.limits, o.turns[k]);
    }
  }

  lemma NextCallIsProper(x: Input, turns: seq<Turn>, t: Turn)
    requires Sendable(x.start) && x.initialCalls <= x.limits.toolCalls
    requires Calls(x, turns) && LastGoesOn(x, turns)
    requires t == NextCall(x, turns) && InputRefusal(x.limits, t.before, t.sent) == None
    ensures ProperCall(x.limits, t) && (AllSided(x.start) ==> AllSided(t.sent))
  {
    TotalsBeforeNext(x, turns);
    ConversationBeforeNext(x, turns);
  }

  /** The first call is made with the run's start, before anything is charged but the initial tool calls. */
  lemma FirstCallIsStart(x: Input, o: Outcome)
    requires IsRun(x, o) && o.turns != []
    ensures o.turns[0].sent == x.start && o.turns[0].before == Totals(0, 0, 0, x.initialCalls)
  {
    CallsOfPrefix(x, o.turns, 0);
  }

  /** The assistant's message tells the response, and the one after it answers that. */
  predicate TellsAndAnswers(r: Response, outputs: string, reply: Message, answer: Message)
    requires r.Answer?
  {
    && reply.role == Assistant && reply.content == r.content && reply.results == [] && answer.calls == []
    && match r.directives
       case Malformed(error) =>
         && reply.calls == [] && answer.role == User && answer.results == []
         && answer.content == "Tool directive parse error:\n" + error + "\n\n" + REISSUE
       case Textual(count) =>
         && reply.calls == r.native && answer.role == (if r.native == [] then User else Tool)
         && answer.content == (if count == 0 then "" else "Tool results:\n" + outputs + "\n\n")
                              + "Continue the task. If you are done, respond without tool directives."
         && |answer.results| == |r.native|
         && forall i :: 0 <= i < |answer.results| ==>
              answer.results[i].name == r.native[i].name && answer.results[i].callId == r.native[i].callId
  }

  /**
   * What every later call is sent: all that was sent before; the response's text and native calls, as they came
   * through the output policy; then the outputs of its textual calls and one result for each native call. After
   * directives that could not be read, no calls, and the error.
   */
  lemma TextOfNextCall(x: Input, o: Outcome, k: nat)
    requires IsRun(x, o) && k + 1 < |o.turns|
    ensures var t, next := o.turns[k], o.turns[k + 1].sent;
            && t.response.Answer? && |next| == |t.sent| + 2 && t.sent <= next
            && TellsAndAnswers(t.response, x.outputs(k + 1), next[|t.sent|], next[|t.sent| + 1])
  {
    hide Calls, GoesOn, Reply, AnswerTo, TellsAndAnswers;
    NextCallContinues(x, o, k);
    ReplyText(o.turns[k].response, x.outputs(k + 1));
  }

  lemma NextCallContinues(x: Input, o: Outcome, k: nat)
    requires IsRun(x, o) && k + 1 < |o.turns|
    ensures o.turns[k].response.Answer? && o.turns[k + 1].sent == Continued(o.turns[k], x.outputs(k + 1))
  {
    hide After, InputRefusal, Reply, AnswerTo, OutputRefusal, Charged;
    CallsOfPrefix(x, o.turns, k + 1);
    var front := o.turns[..k + 1];
    assert front[k] == o.turns[k];
  }

  lemma ReplyText(r: Response, outputs: string)
    requires r.Answer?
    ensures TellsAndAnswers(r, outputs, Reply(r), AnswerTo(r, outputs))
  {
  }

  /** What every later call finds charged: the tokens of the response before it, each to its own total, and its calls. */
  lemma TotalsOfNextCall(x: Input, o: Outcome, k: nat)
    requires IsRun(x, o) && k + 1 < |o.turns|
    ensures var t, next := o.turns[k], o.turns[k + 1].before;
            && t.response.Answer?
            && next.inputTokens == t.before.inputTokens
                                   + (if t.response.usage.Reported? && t.response.usage.input > 0 then t.response.usage.input
                                      else (|Join(Contents(t.sent), "\n")| + 3) / 4)
            && next.outputTokens == t.before.outputTokens
                                    + (if t.response.usage.Reported? then t.response.usage.output
                                       else (|t.response.raw| + 3) / 4)
            && next.toolCalls == t.before.toolCalls
                                 + (if t.response.directives.Textual? then |t.response.native| + t.response.directives.count
                                    else 0)
  {
    hide Continued, InputRefusal;
    CallsOfPrefix(x, o.turns, k + 1);
    var front := o.turns[..k + 1];
    assert front[k] == o.turns[k];
  }

  /** Executed tool calls and model calls stay within their limits in every run. */
  lemma RunStaysWithinLimits(x: Input, o: Outcome)
    requires IsRun(x, o)
    ensures o.executed <= x.limits.toolCalls && |o.turns| <= o.steps && (o.steps == 0 || o.steps <= x.maxSteps)
  {
    if x.initialCalls <= x.limits.toolCalls {
      if LastGoesOn(x, o.turns) {
        TotalsBeforeNext(x, o.turns);
      } else {
        CallsOfPrefix(x, o.turns, |o.turns| - 1);
        TotalsBeforeNext(x, o.turns[..|o.turns| - 1]);
      }
    }
  }

  /** A response that is refused, or never came, has none of its tool calls counted. */
  lemma OnlyAcceptedCallsCount(l: Limits, t: Turn)
    requires !Accepted(l, t)
    ensures After(l, t).toolCalls == t.before.toolCalls && Ran(l, t) == 0
    ensures t.response.ProviderError? ==> After(l, t) == t.before
  {
  }

  /**
   * Why a run stopped: it completed exactly when the last response was accepted and asked for no tool call, and so
   * on; a budget stop means the budgets refused the next call, the last response, or its tool calls.
   */
  lemma StopTellsWhy(x: Input, o: Outcome)
    requires IsRun(x, o)
    ensures x.initialCalls > x.limits.toolCalls ==> o == Outcome(Exceeded(ToolCalls), 0, 0, [])
    ensures o.stop == Completed <==>
              o.turns != [] && Accepted(x.limits, o.turns[|o.turns| - 1]) && NoCalls(o.turns[|o.turns| - 1].response)
    ensures o.stop == ProviderFailed <==> o.turns != [] && o.turns[|o.turns| - 1].response.ProviderError?
    ensures x.initialCalls <= x.limits.toolCalls ==>
              (o.stop == MaxSteps <==>
                 |o.turns| == (if x.maxSteps < 0 then 0 else x.maxSteps) && LastGoesOn(x, o.turns))
    ensures x.initialCalls <= x.limits.toolCalls ==>
              (o.stop == Exceeded(ToolCalls) <==> o.turns != [] && CallsOverLimit(x.limits, o.turns[|o.turns| - 1]))
    ensures x.initialCalls <= x.limits.toolCalls ==>
              o.steps == |o.turns| + if LastGoesOn(x, o.turns) && o.stop != MaxSteps then 1 else 0
  {
    if o.turns != [] {
      EndTellsWhy(x.limits, o.turns[|o.turns| - 1]);
    }
  }

  /** The response was accepted, but the calls it asks for exceed the limit. */
  predicate CallsOverLimit(l: Limits, t: Turn) {
    && Accepted(l, t) && t.response.directives.Textual? && CallCount(t.response) > 0
    && t.before.toolCalls + CallCount(t.response) > l.toolCalls
  }

  lemma EndTellsWhy(l: Limits, t: Turn)
    ensures EndOf(l, t) != MaxSteps
    ensures EndOf(l, t) == ProviderFailed <==> t.response.ProviderError?
    ensures EndOf(l, t) == Completed <==> Accepted(l, t) && NoCalls(t.response)
    ensures !GoesOn(l, t) ==> (EndOf(l, t) == Exceeded(ToolCalls) <==> CallsOverLimit(l, t))
    ensures GoesOn(l, t) ==> !t.response.ProviderError? && !CallsOverLimit(l, t) && !NoCalls(t.response)
  {
  }

  // ---- The loop ----

  /** One pass of the loop with the given response. */
  method OneStep(usage: UsageBudget, messages: seq<Message>, r: Response, outputs: string)
    returns (stop: Option<Stop>, called: bool, more: seq<Message>)
    modifies usage
    ensures var l, t := usage.limits, Turn(messages, old(usage.Current()), r);
            var refused := InputRefusal(l, t.before, messages);
            && (called <==> refused.None?)
            && (refused.Some? ==> stop == Some(Exceeded(refused.value)) && usage.Current() == t.before)
            && (called ==> usage.Current() == After(l, t))
            && (called && GoesOn(l, t) ==> stop == None && more == Continued(t, outputs))
            && (called && !GoesOn(l, t) ==> stop == Some(EndOf(l, t)))
  {
    more := messages;
    var exceeded := usage.BeforeModel(messages);
    if exceeded.Some? { return Some(Exceeded(exceeded.value)), false, more; }
    called := true;
    if r.ProviderError? { return Some(ProviderFailed), called, more; }
    exceeded := usage.AfterModel(r.raw, r.usage);
    if exceeded.Some? { return Some(Exceeded(exceeded.value)), called, more; }
    if r.directives.Malformed? {
      more := messages + [Text(Assistant, r.content),
                          Text(User, "Tool directive parse error:\n" + r.directives.error + "\n\n" + REISSUE)];
      return None, called, more;
    }
    var count := |r.native| + r.directives.count;
    if count == 0 { return Some(Completed), called, more; }
    exceeded := usage.AddToolCalls(count);
    if exceeded.Some? { return Some(Exceeded(exceeded.value)), called, more; }
    var results := if r.directives.count > 0 then "Tool results:\n" + outputs + "\n\n" else "";
    more := messages + [Message(Assistant, r.content, r.native, []),
                        Message(if r.native != [] then Tool else User, results + CONTINUE, [], ResultsFor(r.native))];
    stop := None;
  }

  /** What the loop holds between passes: the calls so far, and what they add up to. */
  predicate Between(x: Input, turns: seq<Turn>, messages: seq<Message>, totals: Totals, executed: nat) {
    && Calls(x, turns) && LastGoesOn(x, turns)
    && messages == NextSent(x, turns) && totals == NextTotals(x, turns)
    && executed == x.initialCalls + TotalRan(x.limits, turns)
  }

  /** A call let through either extends the run or ends it. */
  lemma Extends(x: Input, turns: seq<Turn>, t: Turn, executed: nat)
    requires x.initialCalls <= x.limits.toolCalls && |turns| < StepBound(x)
    requires Between(x, turns, t.sent, t.before, executed) && t == NextCall(x, turns)
    requires InputRefusal(x.limits, t.before, t.sent) == None
    ensures if GoesOn(x.limits, t)
            then Between(x, turns + [t], Continued(t, x.outputs(|turns| + 1)), After(x.limits, t),
                         executed + CallCount(t.response))
            else IsRun(x, Outcome(EndOf(x.limits, t), |turns| + 1, executed, turns + [t]))
  {
    hide Charged, OutputRefusal, InputRefusal, Continued;
    CallAdded(x, turns, t);
    assert (turns + [t])[|turns|] == t;
  }

  /** One pass, with the call recorded; `o` is the outcome if the run ends here. */
  method Pass(usage: UsageBudget, x: Input, turns: seq<Turn>, messages: seq<Message>, executed: nat)
    returns (o: Option<Outcome>, calls: seq<Turn>, more: seq<Message>, ran: nat)
    requires usage.limits == x.limits && Between(x, turns, messages, usage.Current(), executed)
    requires |turns| < StepBound(x) && x.initialCalls <= x.limits.toolCalls
    modifies usage
    ensures o.Some? ==> IsRun(x, o.value)
    ensures o.None? ==> |calls| == |turns| + 1 && Between(x, calls, more, usage.Current(), ran)
  {
    var t, step := Turn(messages, usage.Current(), x.respond(|turns| + 1)), |turns| + 1;
    var stop, called;
    stop, called, more := OneStep(usage, messages, t.response, x.outputs(step));
    if !called { return Some(Outcome(stop.value, step, executed, turns)), turns, more, executed; }
    Extends(x, turns, t, executed);
    calls, ran := turns + [t], executed + if stop.None? then CallCount(t.response) else 0;
    o := if stop.Some? then Some(Outcome(stop.value, step, ran, calls)) else None;
  }

  /** The whole run; `turns` records its model calls. */
  method Run(x: Input) returns (o: Outcome)
    ensures IsRun(x, o)
  {
    var usage := new UsageBudget(x.limits);
    var exceeded := usage.AddToolCalls(x.initialCalls);
    if exceeded.Some? { return Outcome(Exceeded(exceeded.value), 0, 0, []); }
    var messages, executed := x.start, x.initialCalls;
    var turns: seq<Turn> := [];
    for step := 1 to StepBound(x) + 1
      invariant fresh(usage) && usage.limits == x.limits
      invariant |turns| == step - 1 && Between(x, turns, messages, usage.Current(), executed)
    {
      var ended;
      ended, turns, messages, executed := Pass(usage, x, turns, messages, executed);
      if ended.Some? { return ended.value; }
    }
    o := Outcome(MaxSteps, StepBound(x), executed, turns);
  }
}
