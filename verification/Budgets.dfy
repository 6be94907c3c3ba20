/** Usage budgets of one run (src/loro/budgets.py). Costs are exact integers: price units per million tokens. */
module Budgets {
  import opened Common
  import opened Messages
  import opened Strings

  datatype Limits = Limits(
    inputBytes: nat, outputBytes: nat, inputTokens: Option<nat>, outputTokens: Option<nat>, cost: Option<nat>,
    toolCalls: nat, inputPrice: nat, outputPrice: nat)

  datatype Totals = Totals(inputTokens: nat, outputTokens: nat, cost: nat, toolCalls: nat)

  datatype Budget = ModelInputBytes | ModelOutputBytes | InputTokens | OutputTokens | Cost | ToolCalls

  /** The token usage a provider reported, if it reported any. */
  datatype Usage = Unreported | Reported(input: nat, output: nat)

  predicate Over(total: nat, limit: Option<nat>) {
    limit.Some? && total > limit.value
  }

  /** Every running total is within its limit. */
  predicate Within(l: Limits, t: Totals) {
    && !Over(t.inputTokens, l.inputTokens) && !Over(t.outputTokens, l.outputTokens) && !Over(t.cost, l.cost)
    && t.toolCalls <= l.toolCalls
  }

  /** The cost is the price of the tokens counted so far: no charge is lost or made twice. */
  predicate Priced(l: Limits, t: Totals) {
    t.cost == t.inputTokens * l.inputPrice + t.outputTokens * l.outputPrice
  }

  function InputBytes(messages: seq<Message>): nat {
    if messages == [] then 0 else Utf8Length(messages[0].content) + InputBytes(messages[1..])
  }

  function Contents(messages: seq<Message>): seq<string> {
    seq(|messages|, i requires 0 <= i < |messages| => messages[i].content)
  }

  function EstimatedInput(messages: seq<Message>): nat {
    EstimateTokens(Join(Contents(messages), "\n"))
  }

  /** Why a model call with these messages is refused, if it is: its input alone would overshoot. */
  function InputRefusal(l: Limits, t: Totals, messages: seq<Message>): Option<Budget> {
    if InputBytes(messages) > l.inputBytes then Some(ModelInputBytes)
    else if Over(t.inputTokens + EstimatedInput(messages), l.inputTokens) then Some(InputTokens)
    else if Over(t.cost + EstimatedInput(messages) * l.inputPrice, l.cost) then Some(Cost)
    else None
  }

  /** The totals after a response; `pending` stands in for an unreported (or zero) input count. */
  function Charged(l: Limits, t: Totals, pending: nat, content: string, usage: Usage): Totals {
    if Utf8Length(content) > l.outputBytes then t
    else
      var input := if usage.Reported? && usage.input > 0 then usage.input else pending;
      var output := if usage.Reported? then usage.output else EstimateTokens(content);
      t.(inputTokens := t.inputTokens + input, outputTokens := t.outputTokens + output,
         cost := t.cost + (input * l.inputPrice + output * l.outputPrice))
  }

  /** Why a response is refused, if it is; t are the totals with it charged. */
  function OutputRefusal(l: Limits, t: Totals, content: string): Option<Budget> {
    if Utf8Length(content) > l.outputBytes then Some(ModelOutputBytes)
    else if Over(t.inputTokens, l.inputTokens) then Some(InputTokens)
    else if Over(t.outputTokens, l.outputTokens) then Some(OutputTokens)
    else if Over(t.cost, l.cost) then Some(Cost)
    else None
  }

  /** The bytes of a conversation are those of its messages, however it is divided. */
  lemma {:induction false} BytesAddUp(a: seq<Message>, m: Message, b: seq<Message>)
    ensures InputBytes(a + [m] + b) == InputBytes(a) + Utf8Length(m.content) + InputBytes(b)
    ensures InputBytes([]) == 0
  {
    if a == [] {
      assert (a + [m] + b)[1..] == b;
    } else {
      BytesAddUp(a[1..], m, b);
      assert (a + [m] + b)[1..] == a[1..] + [m] + b;
    }
  }

  /** A call is let through exactly when its bytes fit and its estimated input could be charged. */
  lemma CallLetThroughExactlyWhen(l: Limits, t: Totals, messages: seq<Message>)
    requires Within(l, t)
    ensures InputRefusal(l, t, messages) == None <==>
              && InputBytes(messages) <= l.inputBytes
              && Within(l, t.(inputTokens := t.inputTokens + EstimatedInput(messages),
                              cost := t.cost + EstimatedInput(messages) * l.inputPrice))
  {
  }

  /** A refusal names what would be exceeded: the bytes before the tokens, the tokens before the cost. */
  lemma RefusalsTellWhy(l: Limits, t: Totals, messages: seq<Message>, after: Totals, content: string)
    ensures var tokens := EstimatedInput(messages);
            InputRefusal(l, t, messages).Some? ==>
              match InputRefusal(l, t, messages).value
              case ModelInputBytes => InputBytes(messages) > l.inputBytes
              case InputTokens => InputBytes(messages) <= l.inputBytes && Exceeds(t.inputTokens + tokens, l.inputTokens)
              case Cost => && InputBytes(messages) <= l.inputBytes && !Exceeds(t.inputTokens + tokens, l.inputTokens)
                           && Exceeds(t.cost + tokens * l.inputPrice, l.cost)
              case _ => false
    ensures OutputRefusal(l, after, content).Some? ==>
              match OutputRefusal(l, after, content).value
              case ModelOutputBytes => Utf8Length(content) > l.outputBytes
              case InputTokens => Utf8Length(content) <= l.outputBytes && Exceeds(after.inputTokens, l.inputTokens)
              case OutputTokens => Utf8Length(content) <= l.outputBytes && Exceeds(after.outputTokens, l.outputTokens)
              case Cost => Utf8Length(content) <= l.outputBytes && Exceeds(after.cost, l.cost)
              case _ => false
  {
  }

  /** The limit is set, and the total is beyond it. */
  ghost predicate Exceeds(total: nat, limit: Option<nat>) {
    exists n :: limit == Some(n) && n < total
  }

  /** A response whose text is too long is refused without being charged. */
  lemma TooLongIsNotCharged(l: Limits, t: Totals, pending: nat, content: string, usage: Usage)
    requires Utf8Length(content) > l.outputBytes
    ensures Charged(l, t, pending, content, usage) == t && OutputRefusal(l, t, content) == Some(ModelOutputBytes)
  {
  }

  /** A response is let through exactly when it fits and leaves all totals within their limits. */
  lemma LetThroughExactlyWhen(l: Limits, t: Totals, pending: nat, content: string, usage: Usage)
    requires t.toolCalls <= l.toolCalls
    ensures var after := Charged(l, t, pending, content, usage);
            OutputRefusal(l, after, content) == None <==> Utf8Length(content) <= l.outputBytes && Within(l, after)
  {
  }

  /** Which count goes to which total: an unreported or zero input count is estimated, an unreported output too. */
  lemma ChargeGoesToItsTotal(l: Limits, t: Totals, pending: nat, content: string, usage: Usage)
    requires Utf8Length(content) <= l.outputBytes
    ensures var after := Charged(l, t, pending, content, usage);
            && after.toolCalls == t.toolCalls
            && after.inputTokens - t.inputTokens
               == (match usage case Unreported => pending case Reported(input, _) => if input == 0 then pending else input)
            && after.outputTokens - t.outputTokens
               == (match usage case Unreported => (|content| + 3) / 4 case Reported(_, output) => output)
            && after.cost - t.cost == (after.inputTokens - t.inputTokens) * l.inputPrice
                                      + (after.outputTokens - t.outputTokens) * l.outputPrice
  {
  }

  /** Every charge is the price of the tokens it adds. */
  lemma ChargesArePriced(l: Limits, t: Totals, pending: nat, content: string, usage: Usage)
    requires Priced(l, t)
    ensures Priced(l, Charged(l, t, pending, content, usage))
  {
    var after := Charged(l, t, pending, content, usage);
    if after != t {
      Distribute(t.inputTokens, after.inputTokens - t.inputTokens, l.inputPrice);
      Distribute(t.outputTokens, after.outputTokens - t.outputTokens, l.outputPrice);
    }
  }

  lemma Distribute(a: nat, b: nat, price: nat)
    ensures (a + b) * price == a * price + b * price
  {
  }

  class UsageBudget {
    const limits: Limits
    var inputTokens: nat
    var outputTokens: nat
    var cost: nat
    var toolCalls: nat
    var pending: nat

    constructor (limits: Limits)
      ensures this.limits == limits && Current() == Totals(0, 0, 0, 0) && pending == 0
    {
      this.limits := limits;
      inputTokens, outputTokens, cost, toolCalls, pending := 0, 0, 0, 0, 0;
    }

    function Current(): Totals
      reads this
    {
      Totals(inputTokens, outputTokens, cost, toolCalls)
    }

    /** `before_model`: no total changes, whether the call is refused or not. */
    method BeforeModel(messages: seq<Message>) returns (exceeded: Option<Budget>)
      modifies this`pending
      ensures exceeded == InputRefusal(limits, Current(), messages)
      ensures pending == if exceeded == Some(ModelInputBytes) then old(pending) else EstimatedInput(messages)
    {
      if InputBytes(messages) > limits.inputBytes { return Some(ModelInputBytes); }
      pending := EstimatedInput(messages);
      if Over(inputTokens + pending, limits.inputTokens) { return Some(InputTokens); }
      if Over(cost + pending * limits.inputPrice, limits.cost) { return Some(Cost); }
      exceeded := None;
    }

    /** `after_model`. */
    method AfterModel(content: string, usage: Usage) returns (exceeded: Option<Budget>)
      modifies this
      ensures Current() == Charged(limits, old(Current()), old(pending), content, usage)
      ensures exceeded == OutputRefusal(limits, Current(), content)
      ensures pending == if exceeded == Some(ModelOutputBytes) then old(pending) else 0
    {
      hide Utf8Length, EstimateTokens, Over;
      if Utf8Length(content) > limits.outputBytes { return Some(ModelOutputBytes); }
      var input := if usage.Reported? then usage.input else 0;
      var output := if usage.Reported? then usage.output else EstimateTokens(content);
      if input == 0 {
        input := pending;
      }
      inputTokens := inputTokens + input;
      outputTokens := outputTokens + output;
      pending := 0;
      cost := cost + (input * limits.inputPrice + output * limits.outputPrice);
      if Over(inputTokens, limits.inputTokens) { return Some(InputTokens); }
      if Over(outputTokens, limits.outputTokens) { return Some(OutputTokens); }
      if Over(cost, limits.cost) { return Some(Cost); }
      exceeded := None;
    }

    /** `add_tool_calls`: counts first, then complains. */
    method AddToolCalls(count: nat) returns (exceeded: Option<Budget>)
      modifies this`toolCalls
      ensures toolCalls == old(toolCalls) + count
      ensures exceeded == if toolCalls > limits.toolCalls then Some(ToolCalls) else None
    {
      toolCalls := toolCalls + count;
      exceeded := if toolCalls > limits.toolCalls then Some(ToolCalls) else None;
    }
  }
}
