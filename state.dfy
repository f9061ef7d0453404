/** The shared state record every tool reads and updates (github_agent/src/state.py). */
module State {
  import opened Wrappers

  /** A tool invocation requested by the model. */
  datatype ToolCall = ToolCall(name: string, args: map<string, string>)

  /** A conversation turn, by its LangChain message class. */
  datatype Message =
    | Human(content: string)
    | AI(content: string, toolCalls: seq<ToolCall>)
    | ToolResult(content: string)
    | System(content: string)

  /** `GitHubAgentState`: one field per key. Tools receive the record by reference and
      update its fields in place, so it is a class. */
  class AgentState {
    var messages: seq<Message>
    var files: map<string, string>
    var todos: seq<string>
    var currentRepo: Option<string>
    var issueUrl: Option<string>
    var analysisResults: map<string, string>

    /** `get_initial_state()`: empty collections, no repository and no issue. */
    constructor Initial()
      ensures messages == [] && files == map[] && todos == []
      ensures currentRepo == None && issueUrl == None && analysisResults == map[]
    {
      messages := [];
      files := map[];
      todos := [];
      currentRepo := None;
      issueUrl := None;
      analysisResults := map[];
    }
  }
}
