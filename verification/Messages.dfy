/** Chat messages as the dissectors extract them. */
module Messages {

  datatype Block =
    | TextBlock(text: string)
    | ThinkingBlock(thinking: string)
    | ToolUse(id: string, name: string, input: string, toolSummary: string)
    | ToolResult(toolUseID: string, content: string, isError: bool)
    | OtherBlock(kind: string)

  datatype Message = Message(role: string, rawContent: string, content: seq<Block>)

  /** `IsRealUserMessage` of the client's scaffolding. */
  type RealUser = Message -> bool

  predicate RealPrompt(isReal: RealUser, m: Message) { m.role == "user" && isReal(m) }
}
