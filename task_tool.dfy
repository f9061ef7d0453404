/** The `task` tool that delegates a research question to a sub-agent
    (github_agent/src/task_tool.py), with the registry of github_agent/src/main.py as an
    instance. Building and running the sub-agent are oracles. */
module TaskTool {
  import opened Wrappers
  import opened Text
  import opened State

  /** A tool object; `id` tells apart two tool objects that carry the same name. */
  datatype Tool = Tool(name: string, id: nat)

  /** A sub-agent configuration: its name, description and tool allow-list. The prompt of
      a configuration is not read by the `task` tool. */
  datatype SubAgentConfig = SubAgentConfig(name: string, description: string, tools: seq<string>)

  /** What `_create_task_tool` builds once: the configuration map, its keys in dict order,
      and the tool map. */
  datatype TaskTool = TaskTool(agents: map<string, SubAgentConfig>, agentNames: seq<string>,
                               toolMap: map<string, Tool>)

  // ---------------------------------------------------------------------------
  // Registry and tool map

  /** `{key(x): x for x in items}`: a later item replaces an earlier one with the same key. */
  function ByKey<T>(items: seq<T>, key: T -> string): map<string, T>
    decreases |items|
  {
    if items == [] then map[]
    else
      var last := items[|items| - 1];
      ByKey(items[..|items| - 1], key)[key(last) := last]
  }

  /** Every key comes from an item, every item's key is present, and each key maps to the
      last item that has it. */
  lemma {:induction false} ByKeySpec<T>(items: seq<T>, key: T -> string)
    ensures forall n :: n in ByKey(items, key) <==> exists i :: 0 <= i < |items| && key(items[i]) == n
    ensures forall n :: n in ByKey(items, key) ==>
      exists i :: 0 <= i < |items| && items[i] == ByKey(items, key)[n] && key(items[i]) == n
        && forall j :: i < j < |items| ==> key(items[j]) != n
    decreases |items|
  {
    if items != [] {
      var init := items[..|items| - 1];
      var last := items[|items| - 1];
      ByKeySpec(init, key);
      var m := ByKey(items, key);
      forall n ensures n in m <==> exists i :: 0 <= i < |items| && key(items[i]) == n {
        if n in ByKey(init, key) {
          var i :| 0 <= i < |init| && key(init[i]) == n;
          assert items[i] == init[i];
        }
        if exists i :: 0 <= i < |items| && key(items[i]) == n {
          var i :| 0 <= i < |items| && key(items[i]) == n;
          if i < |init| {
            assert init[i] == items[i];
          }
        }
      }
      forall n | n in m ensures exists i :: 0 <= i < |items| && items[i] == m[n] && key(items[i]) == n
                                          && forall j :: i < j < |items| ==> key(items[j]) != n
      {
        if n == key(last) {
          assert items[|items| - 1] == m[n];
        } else {
          var i :| 0 <= i < |init| && init[i] == ByKey(init, key)[n] && key(init[i]) == n
            && forall j :: i < j < |init| ==> key(init[j]) != n;
          assert items[i] == init[i];
          forall j | i < j < |items| ensures key(items[j]) != n {
            if j < |init| {
              assert items[j] == init[j];
            }
          }
        }
      }
    }
  }

  function AgentName(c: SubAgentConfig): string { c.name }

  function ToolName(t: Tool): string { t.name }

  /** `_create_task_tool(all_tools, sub_agents, ...)`: the two dict comprehensions. The
      dict's keys iterate in the order their names first occur. */
  function CreateTaskTool(allTools: seq<Tool>, subAgents: seq<SubAgentConfig>): (t: TaskTool)
    ensures forall n :: n in t.agents ==> t.agents[n].name == n
    ensures forall n :: n in t.toolMap ==> t.toolMap[n].name == n
  {
    ByKeySpec(subAgents, AgentName);
    ByKeySpec(allTools, ToolName);
    TaskTool(ByKey(subAgents, AgentName),
             Dedup(seq(|subAgents|, k requires 0 <= k < |subAgents| => subAgents[k].name)),
             ByKey(allTools, ToolName))
  }

  /** The listed names are exactly the registered ones, each once; a name selects the last
      configuration that carries it, and the tool map holds exactly the tools' names. */
  lemma CreateTaskToolSpec(allTools: seq<Tool>, subAgents: seq<SubAgentConfig>)
    ensures var t := CreateTaskTool(allTools, subAgents);
      && (forall n :: n in t.agents <==> n in t.agentNames)
      && (forall n :: n in t.agents <==> exists i :: 0 <= i < |subAgents| && subAgents[i].name == n)
      && (forall i, j :: 0 <= i < j < |t.agentNames| ==> t.agentNames[i] != t.agentNames[j])
      && (forall n :: n in t.agents ==> t.agents[n].name == n)
      && (forall n :: n in t.toolMap <==> exists i :: 0 <= i < |allTools| && allTools[i].name == n)
      && (forall n :: n in t.toolMap ==> t.toolMap[n].name == n)
  {
    var t := CreateTaskTool(allTools, subAgents);
    var names := seq(|subAgents|, k requires 0 <= k < |subAgents| => subAgents[k].name);
    ByKeySpec(subAgents, AgentName);
    ByKeySpec(allTools, ToolName);
    DedupSpec(names);
    forall n ensures n in t.agents <==> n in t.agentNames {
      if n in t.agents {
        var i :| 0 <= i < |subAgents| && AgentName(subAgents[i]) == n;
        assert names[i] == n;
      }
      if n in names {
        var i :| 0 <= i < |names| && names[i] == n;
        assert AgentName(subAgents[i]) == n;
      }
    }
  }

  // ---------------------------------------------------------------------------
  // Resolving an allow-list

  /** The allow-list names present in the tool map, in allow-list order. */
  function ResolvedNames(allow: seq<string>, toolMap: map<string, Tool>): (r: seq<string>)
    ensures forall k :: 0 <= k < |r| ==> r[k] in toolMap
    decreases |allow|
  {
    if allow == [] then []
    else
      var init := ResolvedNames(allow[..|allow| - 1], toolMap);
      if allow[|allow| - 1] in toolMap then init + [allow[|allow| - 1]] else init
  }

  /** `[tool_map[name] for name in agent_tool_names if name in tool_map]`. */
  function ResolveTools(allow: seq<string>, toolMap: map<string, Tool>): (tools: seq<Tool>)
    ensures forall k :: 0 <= k < |tools| ==> tools[k] in toolMap.Values
  {
    var r := ResolvedNames(allow, toolMap);
    seq(|r|, k requires 0 <= k < |r| => toolMap[r[k]])
  }

  /** `r` can be obtained from `a` by deleting elements. */
  predicate IsSubsequence(r: seq<string>, a: seq<string>)
    decreases |a|
  {
    if r == [] then true
    else if a == [] then false
    else if r[|r| - 1] == a[|a| - 1] then IsSubsequence(r[..|r| - 1], a[..|a| - 1])
    else IsSubsequence(r, a[..|a| - 1])
  }

  /** The resolved names are a subsequence of the allow-list holding every occurrence of
      each name the tool map knows and no other name. */
  lemma {:induction false} ResolvedNamesSpec(allow: seq<string>, toolMap: map<string, Tool>)
    ensures IsSubsequence(ResolvedNames(allow, toolMap), allow)
    ensures forall n :: multiset(ResolvedNames(allow, toolMap))[n] == if n in toolMap then multiset(allow)[n] else 0
    decreases |allow|
  {
    if allow != [] {
      var init := allow[..|allow| - 1];
      var last := allow[|allow| - 1];
      ResolvedNamesSpec(init, toolMap);
      var r0 := ResolvedNames(init, toolMap);
      assert allow == init + [last];
      assert multiset(allow) == multiset(init) + multiset{last};
      if last in toolMap {
        var r := r0 + [last];
        assert r[..|r| - 1] == r0;
        assert multiset(r) == multiset(r0) + multiset{last};
      } else if r0 != [] {
        assert r0[|r0| - 1] in toolMap;
      }
    }
  }

  /** Every allow-listed name that the tool map knows is resolved and nothing else is; so
      nothing resolves exactly when no allow-listed name is known. */
  lemma ResolvedMembers(allow: seq<string>, toolMap: map<string, Tool>)
    ensures forall n :: n in ResolvedNames(allow, toolMap) <==> n in allow && n in toolMap
    ensures ResolveTools(allow, toolMap) == [] <==> forall k :: 0 <= k < |allow| ==> allow[k] !in toolMap
  {
    ResolvedNamesSpec(allow, toolMap);
    var r := ResolvedNames(allow, toolMap);
    forall n ensures n in r <==> n in allow && n in toolMap {
      assert n in r <==> multiset(r)[n] > 0;
      assert n in allow <==> multiset(allow)[n] > 0;
    }
    if r != [] {
      assert r[0] in allow;
    }
  }

  // ---------------------------------------------------------------------------
  // The isolated sub-agent state and the run

  /** The state dict handed to the sub-agent. */
  datatype SubAgentState = SubAgentState(messages: seq<Message>, files: map<string, string>,
                                         todos: seq<string>, currentRepo: Option<string>,
                                         issueUrl: Option<string>, analysisResults: map<string, string>,
                                         remainingSteps: nat)

  /** What the sub-agent's run gives back; an absent key reads as empty. */
  datatype SubResult = SubResult(files: map<string, string>, messages: seq<Message>)

  /** A sub-agent as `create_react_agent` builds it from the tools. */
  datatype SubAgent = SubAgent(tools: seq<Tool>)

  /** `create_react_agent(model, tools, ...)` and `sub_agent.invoke(state)`; `Err` is an
      exception with its text. The model and the state schema are part of these oracles. */
  datatype Runtime = Runtime(create: seq<Tool> -> Result<SubAgent, string>,
                             invoke: (SubAgent, SubAgentState) -> Result<SubResult, string>)

  const SubAgentSteps: nat := 10

  /** The sub-agent's initial state: the description as its only (human) message, a copy of the
      parent's files, its own empty todos and analysis results, the parent's repository and
      issue, and a budget of ten steps. */
  function IsolatedState(description: string, files: map<string, string>, repo: Option<string>,
                         url: Option<string>): (s: SubAgentState)
    ensures s.messages == [Human(description)] && s.files == files && s.todos == []
    ensures s.currentRepo == repo && s.issueUrl == url && s.analysisResults == map[]
    ensures s.remainingSteps == 10
  {
    SubAgentState([Human(description)], files, [], repo, url, map[], SubAgentSteps)
  }

  // ---------------------------------------------------------------------------
  // The findings: the last AI message

  const NoResponse := "Sub-agent completed but provided no response."

  /** The index of the last AI message, if any. */
  function LastAI(messages: seq<Message>): (r: Option<nat>)
    ensures r.Some? ==> r.value < |messages| && messages[r.value].AI?
    decreases |messages|
  {
    if messages == [] then None
    else if messages[|messages| - 1].AI? then Some(|messages| - 1)
    else LastAI(messages[..|messages| - 1])
  }

  /** No AI message follows the one found, and none is found exactly when there is none. */
  lemma {:induction false} LastAISpec(messages: seq<Message>)
    ensures LastAI(messages).Some? ==> forall j :: LastAI(messages).value < j < |messages| ==> !messages[j].AI?
    ensures LastAI(messages).None? <==> forall j :: 0 <= j < |messages| ==> !messages[j].AI?
    decreases |messages|
  {
    if messages != [] && !messages[|messages| - 1].AI? {
      var init := messages[..|messages| - 1];
      LastAISpec(init);
      assert forall j :: 0 <= j < |init| ==> init[j] == messages[j];
    }
  }

  /** An AI message with no AI message after it is the one found. */
  lemma LastAIAt(messages: seq<Message>, k: nat)
    requires k < |messages| && messages[k].AI?
    requires forall j :: k < j < |messages| ==> !messages[j].AI?
    ensures LastAI(messages) == Some(k)
  {
    LastAISpec(messages);
  }

  /** The findings text: the last AI message's content, or the fixed fallback. */
  function Findings(messages: seq<Message>): string {
    match LastAI(messages)
    case Some(k) => messages[k].content
    case None => NoResponse
  }

  /** The `for msg in reversed(result["messages"]) ... else` loop. */
  method LastAIFindings(messages: seq<Message>) returns (findings: string)
    ensures findings == Findings(messages)
  {
    var k := |messages|;
    while k > 0
      invariant 0 <= k <= |messages|
      invariant forall j :: k <= j < |messages| ==> !messages[j].AI?
      decreases k
    {
      k := k - 1;
      if messages[k].AI? {
        LastAIAt(messages, k);
        return messages[k].content;
      }
    }
    LastAISpec(messages);
    findings := NoResponse;
  }

  // ---------------------------------------------------------------------------
  // Messages

  const UnknownPrefix := "❌ Unknown sub-agent type: "
  const NoToolsPrefix := "❌ No tools available for "
  const CreateFailedPrefix := "❌ Failed to create sub-agent: "
  const RunFailedPrefix := "❌ Sub-agent execution failed: "

  function UnknownTypeText(subagentType: string, names: seq<string>): string {
    UnknownPrefix + subagentType + ". Available: " + Join(names, ", ")
  }

  function CountLine(count: nat): string {
    "\n💾 Files updated: " + NatToString(count) + " files in system"
  }

  /** The four-line report of a successful delegation. */
  function ReportText(subagentType: string, description: string, findings: string, count: nat): string {
    JoinLines(["📋 Sub-Agent Report: " + subagentType, "Task: " + description, "\n" + findings, CountLine(count)])
  }

  // ---------------------------------------------------------------------------
  // task(description, subagent_type, state)

  /** The tool's reply and the parent's files afterwards. */
  datatype Delegation = Delegation(report: string, files: map<string, string>)

  /** One delegation, from the parent's files, repository and issue. No parent file is
      ever lost, and an unknown type changes nothing. */
  function Delegate(tool: TaskTool, rt: Runtime, description: string, subagentType: string,
                    files: map<string, string>, repo: Option<string>, url: Option<string>): (d: Delegation)
    ensures files.Keys <= d.files.Keys
    ensures subagentType !in tool.agents ==> d.files == files
  {
    if subagentType !in tool.agents then Delegation(UnknownTypeText(subagentType, tool.agentNames), files)
    else
      var tools := ResolveTools(tool.agents[subagentType].tools, tool.toolMap);
      if tools == [] then Delegation(NoToolsPrefix + subagentType, files)
      else
        match rt.create(tools)
        case Err(e) => Delegation(CreateFailedPrefix + e, files)
        case Ok(agent) =>
          match rt.invoke(agent, IsolatedState(description, files, repo, url))
          case Err(e) => Delegation(RunFailedPrefix + e, files)
          case Ok(result) =>
            Delegation(ReportText(subagentType, description, Findings(result.messages), |result.files|),
                       files + result.files)
  }

  /** The `task` tool: only the parent's files can change, and they change only by the
      merge after a successful run. */
  method Task(tool: TaskTool, rt: Runtime, description: string, subagentType: string, state: AgentState)
    returns (report: string)
    modifies state`files
    ensures var d := Delegate(tool, rt, description, subagentType, old(state.files), state.currentRepo, state.issueUrl);
      report == d.report && state.files == d.files
  {
    if subagentType !in tool.agents {
      return UnknownTypeText(subagentType, tool.agentNames);
    }
    var config := tool.agents[subagentType];
    var agentTools := ResolveTools(config.tools, tool.toolMap);
    if agentTools == [] {
      return NoToolsPrefix + subagentType;
    }
    var created := rt.create(agentTools);
    if created.Err? {
      return CreateFailedPrefix + created.error;
    }
    var subState := IsolatedState(description, state.files, state.currentRepo, state.issueUrl);
    var run := rt.invoke(created.value, subState);
    if run.Err? {
      return RunFailedPrefix + run.error;
    }
    var result := run.value;
    state.files := state.files + result.files;
    var findings := LastAIFindings(result.messages);
    report := ReportText(subagentType, description, findings, |result.files|);
  }

  /** An unknown type leaves the files alone and names every registered sub-agent. */
  lemma UnknownTypeListsRegistered(tool: TaskTool, rt: Runtime, description: string, subagentType: string,
                                   files: map<string, string>, repo: Option<string>, url: Option<string>)
    requires subagentType !in tool.agents
    ensures var d := Delegate(tool, rt, description, subagentType, files, repo, url);
      && d.files == files
      && |d.report| >= |UnknownPrefix| + |subagentType|
      && d.report[..|UnknownPrefix| + |subagentType|] == UnknownPrefix + subagentType
      && forall i :: 0 <= i < |tool.agentNames| ==> Contains(d.report, tool.agentNames[i])
  {
    var d := Delegate(tool, rt, description, subagentType, files, repo, url);
    var head := UnknownPrefix + subagentType + ". Available: ";
    assert d.report == head + Join(tool.agentNames, ", ");
    assert d.report[..|UnknownPrefix| + |subagentType|] == UnknownPrefix + subagentType;
    forall i | 0 <= i < |tool.agentNames| ensures Contains(d.report, tool.agentNames[i]) {
      JoinContainsPart(tool.agentNames, ", ", i);
      ContainsConcat(head, Join(tool.agentNames, ", "), tool.agentNames[i]);
    }
  }

  /** With nothing resolved, the reply is "no tools" whatever the runtime would do: the
      sub-agent is neither built nor run, and the files stay. */
  lemma NoToolsRunsNothing(tool: TaskTool, rt: Runtime, rt2: Runtime, description: string, subagentType: string,
                           files: map<string, string>, repo: Option<string>, url: Option<string>)
    requires subagentType in tool.agents
    requires forall k :: 0 <= k < |tool.agents[subagentType].tools| ==> tool.agents[subagentType].tools[k] !in tool.toolMap
    ensures Delegate(tool, rt, description, subagentType, files, repo, url) == Delegation(NoToolsPrefix + subagentType, files)
    ensures Delegate(tool, rt, description, subagentType, files, repo, url)
         == Delegate(tool, rt2, description, subagentType, files, repo, url)
  {
    ResolvedMembers(tool.agents[subagentType].tools, tool.toolMap);
  }

  /** The parent's files change only after a successful run, and then every result file is
      taken over, every other parent file is kept, and no other key appears; a successful
      creation and run always give the parent's files updated with the sub-agent's. */
  lemma MergeOnlyOnSuccess(tool: TaskTool, rt: Runtime, description: string, subagentType: string,
                           files: map<string, string>, repo: Option<string>, url: Option<string>)
    ensures subagentType in tool.agents ==>
      var tools := ResolveTools(tool.agents[subagentType].tools, tool.toolMap);
      var created := rt.create(tools);
      tools != [] && created.Ok? && rt.invoke(created.value, IsolatedState(description, files, repo, url)).Ok? ==>
        Delegate(tool, rt, description, subagentType, files, repo, url).files
          == files + rt.invoke(created.value, IsolatedState(description, files, repo, url)).value.files
    ensures var d := Delegate(tool, rt, description, subagentType, files, repo, url);
      d.files != files ==> exists agent, result ::
        && subagentType in tool.agents
        && rt.create(ResolveTools(tool.agents[subagentType].tools, tool.toolMap)) == Ok(agent)
        && rt.invoke(agent, IsolatedState(description, files, repo, url)) == Ok(result)
        && d.files.Keys == files.Keys + result.files.Keys
        && (forall k :: k in result.files ==> d.files[k] == result.files[k])
        && (forall k :: k in files && k !in result.files ==> d.files[k] == files[k])
  {
    var d := Delegate(tool, rt, description, subagentType, files, repo, url);
    if d.files != files {
      var tools := ResolveTools(tool.agents[subagentType].tools, tool.toolMap);
      var agent := rt.create(tools).value;
      var result := rt.invoke(agent, IsolatedState(description, files, repo, url)).value;
      assert d.files == files + result.files;
    }
  }

  /** A successful report carries the last AI message (or the fallback) and ends with the
      number of files in the sub-agent's final map. */
  lemma SuccessReport(subagentType: string, description: string, result: SubResult)
    ensures var r := ReportText(subagentType, description, Findings(result.messages), |result.files|);
      && Contains(r, "\n" + Findings(result.messages))
      && |r| >= |CountLine(|result.files|)|
      && r[|r| - |CountLine(|result.files|)|..] == CountLine(|result.files|)
  {
    var lines := ["📋 Sub-Agent Report: " + subagentType, "Task: " + description,
                  "\n" + Findings(result.messages), CountLine(|result.files|)];
    JoinContainsPart(lines, "\n", 2);
    JoinEndsWithLast(lines, "\n");
  }

  // ---------------------------------------------------------------------------
  // The instance of github_agent/src/main.py

  const SubAgentToolNames := ["search_code_in_repo", "read_file_from_repo", "list_repository_structure",
                              "search_error_solution", "search_documentation", "think_tool", "read_file"]

  /** `sub_agent_tools`, the tools `_create_task_tool` receives as `all_tools`. */
  const SubAgentTools := seq(7, k requires 0 <= k < 7 => Tool(SubAgentToolNames[k], k))

  const RepoInvestigator := SubAgentConfig("repo-investigator", "Investigates repository structure and locates code",
    ["search_code_in_repo", "read_file_from_repo", "list_repository_structure", "think_tool", "read_file"])

  const ErrorResearcher := SubAgentConfig("error-researcher", "Researches errors and finds solutions online",
    ["search_error_solution", "search_documentation", "think_tool", "read_file"])

  const MainTaskTool := CreateTaskTool(SubAgentTools, [RepoInvestigator, ErrorResearcher])

  /** The tool map knows every name of `sub_agent_tools`. */
  lemma MainToolMapKnowsAll()
    ensures forall k :: 0 <= k < 7 ==> SubAgentToolNames[k] in MainTaskTool.toolMap
  {
    ByKeySpec(SubAgentTools, ToolName);
    forall k | 0 <= k < 7 ensures SubAgentToolNames[k] in MainTaskTool.toolMap {
      assert ToolName(SubAgentTools[k]) == SubAgentToolNames[k];
    }
  }

  /** The registry lists the two sub-agents in their order. */
  lemma MainAgentNames()
    ensures MainTaskTool.agentNames == ["repo-investigator", "error-researcher"]
  {
    var agents := [RepoInvestigator, ErrorResearcher];
    var names := seq(|agents|, k requires 0 <= k < |agents| => agents[k].name);
    assert names == ["repo-investigator", "error-researcher"];
    assert names[..1] == ["repo-investigator"];
    assert names[..1][..0] == [];
    assert Dedup(names[..1]) == ["repo-investigator"];
    assert MainTaskTool.agentNames == Dedup(names);
  }

  /** Both registered sub-agents get their whole allow-list. */
  lemma MainAllowListsResolve()
    ensures ResolvedNames(RepoInvestigator.tools, MainTaskTool.toolMap) == RepoInvestigator.tools
    ensures ResolvedNames(ErrorResearcher.tools, MainTaskTool.toolMap) == ErrorResearcher.tools
  {
    MainToolMapKnowsAll();
    var n := SubAgentToolNames;
    assert RepoInvestigator.tools == [n[0], n[1], n[2], n[5], n[6]];
    assert ErrorResearcher.tools == [n[3], n[4], n[5], n[6]];
    AllKnownResolve(RepoInvestigator.tools, MainTaskTool.toolMap);
    AllKnownResolve(ErrorResearcher.tools, MainTaskTool.toolMap);
  }

  /** An allow-list whose names are all known resolves completely. */
  lemma {:induction false} AllKnownResolve(allow: seq<string>, toolMap: map<string, Tool>)
    requires forall k :: 0 <= k < |allow| ==> allow[k] in toolMap
    ensures ResolvedNames(allow, toolMap) == allow
    decreases |allow|
  {
    if allow != [] {
      AllKnownResolve(allow[..|allow| - 1], toolMap);
    }
  }
}
