/** The provider-neutral conversation messages that the context and runtime modules share (src/loro/models.py). */
module Messages {
  import opened Common

  datatype Role = User | Assistant | Tool

  datatype ToolCall = ToolCall(name: string, callId: Option<string>)
  datatype ToolResult = ToolResult(name: string, callId: Option<string>)

  datatype Message = Message(role: Role, content: string, calls: seq<ToolCall>, results: seq<ToolResult>)

  function Text(role: Role, content: string): Message {
    Message(role, content, [], [])
  }

  function Join(parts: seq<string>, separator: string): string {
    if parts == [] then ""
    else if |parts| == 1 then parts[0]
    else parts[0] + separator + Join(parts[1..], separator)
  }

  /** About four characters to a token (src/loro/budgets.py:124-127). */
  function EstimateTokens(s: string): nat {
    (|s| + 3) / 4
  }
}
