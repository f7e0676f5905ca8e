/** Conversation messages, as the session store keeps them and the agent sends them. */
module Messages {

  datatype Role = System | User | Assistant | Tool | Other(name: string)

  /** `calls` are the identifiers of the tool calls of an assistant, `answers` that of the call a tool message answers. */
  datatype Message = Message(role: Role, content: string, calls: seq<string>, answers: string) {
    predicate CallsTools() { role == Assistant && calls != [] }
  }
}
