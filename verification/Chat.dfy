/** Messages of the chat pipeline (common/chat.h), as far as streaming looks at them. */
module Chat {

  datatype ToolCall = ToolCall(name: string, arguments: string, id: string)

  datatype Msg = Msg(content: string, reasoning: string, calls: seq<ToolCall>)

  const EMPTY_MSG := Msg("", "", [])
}
