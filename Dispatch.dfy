/** The request handler `process_prompt`: it trims the `Body` field and routes on it.
    `list_agents` lists the registry, `system_prompt` returns the prompt cached at
    startup, and any other text is an article handed to every agent that has a
    processing hook. The status is 200 on every path.

    The agents' `process_article` hooks and `json.dumps` are foreign code and enter as
    parameters: a hook either returns a value or raises with a message, and the
    serialiser either produces text or raises with a message. */
module Dispatch {
  import opened Wrappers
  import opened Text
  import opened Registry
  import opened Prompt

  const ListCommand := "list_agents"
  const PromptCommand := "system_prompt"
  const ListTitle := "Available agents:"
  const RagHeader := "Combined RAG Data:\n"
  const AnalysisSection := "\n\nAnalysis:\nTrustworthiness analysis will be implemented here."
  const ErrorPrefix := "Error processing your prompt: "
  const StatusOk := 200

  /** What one call of an agent's `process_article` does. */
  datatype HookOutcome<V> = Returned(value: V) | Raised(message: string)

  type Hook<V> = (PluginClass, string) -> HookOutcome<V>

  /** `json.dumps` over the collected data, in insertion order; `Err` carries the
      message of the exception it raises. */
  type Serializer<!V> = seq<(string, V)> -> Result<string, string>

  /** The `list_agents` reply: the title line, then the agent lines joined by line
      breaks. */
  function ListAgentsResponse(agents: seq<AgentInfo>): string {
    Titled(ListTitle, AgentLines(agents))
  }

  /** A title line followed by the given lines. */
  function Titled(title: string, lines: seq<string>): string {
    title + "\n" + Join(lines, "\n")
  }

  /** A title line followed by joined lines splits back into the title and the lines
      (one empty line for an empty list). */
  lemma {:induction false} TitledLines(title: string, lines: seq<string>)
    requires NoLineBreak(title)
    requires forall i :: 0 <= i < |lines| ==> NoLineBreak(lines[i])
    ensures Split(Titled(title, lines), '\n') == [title] + (if lines == [] then [""] else lines)
  {
    SplitConcat(title, Join(lines, "\n"), '\n');
    SplitNoSeparator(title, '\n');
    if lines != [] {
      SplitJoin(lines, '\n');
    }
  }

  /** Read line by line, the `list_agents` reply is the title line and then one
      `name - description` line per agent in registry order; with no agents, the title
      is followed by one empty line. */
  lemma ListAgentsLines(agents: seq<AgentInfo>)
    requires forall i :: 0 <= i < |agents| ==> NoLineBreak(AgentLine(agents[i]))
    ensures Split(ListAgentsResponse(agents), '\n')
         == [ListTitle] + (if agents == [] then [""] else AgentLines(agents))
  {
    ListTitleFacts();
    AgentLinesSingleLine(agents);
    TitledLines(ListTitle, AgentLines(agents));
  }

  lemma ListTitleFacts()
    ensures NoLineBreak(ListTitle) && ListTitle != [] && ListTitle[0] == 'A'
  {
  }

  /** Two agents `a` (described `D1`) and `b` (described `D2`) are listed under the
      title, one per line. */
  lemma ListAgentsExample()
    ensures ListAgentsResponse([AgentInfo("a", "D1"), AgentInfo("b", "D2")]) == "Available agents:\na - D1\nb - D2"
  {
  }

  /** The `rag_data` dict of the default branch, built agent by agent in registry
      order; the first hook that raises ends it. */
  function RagData<V>(order: seq<string>, agents: map<string, Entry>, article: string, hook: Hook<V>)
    : Result<seq<(string, V)>, string>
    requires forall k :: k in order ==> k in agents
    decreases |order|
  {
    if order == [] then Ok([])
    else match RagData(order[..|order| - 1], agents, article, hook)
      case Err(m) => Err(m)
      case Ok(data) =>
        var name := order[|order| - 1];
        var agent := agents[name].instance;
        if !agent.hasProcessHook then Ok(data)
        else match hook(agent, article)
          case Raised(m) => Err(m)
          case Returned(v) => Ok(data + [(name, v)])
  }

  /** Whether agent `name` takes part in the default branch. */
  predicate Hooked(agents: map<string, Entry>, name: string)
    requires name in agents
  {
    agents[name].instance.hasProcessHook
  }

  /** The agents that have a processing hook, in registry order: the keys `rag_data`
      is meant to have. */
  function HookedAgents(order: seq<string>, agents: map<string, Entry>): seq<string>
    requires forall k :: k in order ==> k in agents
    decreases |order|
  {
    if order == [] then []
    else
      var name := order[|order| - 1];
      HookedAgents(order[..|order| - 1], agents) + if Hooked(agents, name) then [name] else []
  }

  lemma {:induction false} HookedAgentsMembers(order: seq<string>, agents: map<string, Entry>, name: string)
    requires forall k :: k in order ==> k in agents
    ensures name in HookedAgents(order, agents) <==> name in order && Hooked(agents, name)
  {
    if order != [] {
      var p := order[..|order| - 1];
      HookedAgentsMembers(p, agents, name);
      assert order == p + [order[|order| - 1]];
    }
  }

  /** When every hook returns, `rag_data` has exactly the hooked agents as keys, in
      registry order, each with the value its hook returned for the article. */
  lemma {:induction false} RagDataContents<V>(order: seq<string>, agents: map<string, Entry>, article: string, hook: Hook<V>)
    requires forall k :: k in order ==> k in agents
    requires RagData(order, agents, article, hook).Ok?
    ensures var data := RagData(order, agents, article, hook).value;
      && |data| == |HookedAgents(order, agents)|
      && forall i :: 0 <= i < |data| ==>
           && data[i].0 == HookedAgents(order, agents)[i]
           && data[i].0 in agents
           && hook(agents[data[i].0].instance, article) == Returned(data[i].1)
  {
    if order != [] {
      var p := order[..|order| - 1];
      assert forall k :: k in p ==> k in order;
      RagDataContents(p, agents, article, hook);
    }
  }

  /** Whether agent `order[i]` is hooked and its hook raises on the article. */
  predicate RaisesAt<V>(order: seq<string>, agents: map<string, Entry>, article: string, hook: Hook<V>, i: nat)
    requires forall k :: k in order ==> k in agents
    requires i < |order|
  {
    Hooked(agents, order[i]) && hook(agents[order[i]].instance, article).Raised?
  }

  /** The default branch fails exactly when some hooked agent's hook raises, and the
      message is that of the first such agent in registry order. */
  lemma {:induction false} RagDataFailure<V>(order: seq<string>, agents: map<string, Entry>, article: string, hook: Hook<V>)
    requires forall k :: k in order ==> k in agents
    ensures RagData(order, agents, article, hook).Err?
        <==> exists i :: 0 <= i < |order| && RaisesAt(order, agents, article, hook, i)
    ensures RagData(order, agents, article, hook).Err? ==>
      exists i :: 0 <= i < |order| && RaisesAt(order, agents, article, hook, i)
        && hook(agents[order[i]].instance, article) == Raised(RagData(order, agents, article, hook).error)
        && forall j :: 0 <= j < i ==> !RaisesAt(order, agents, article, hook, j)
  {
    if order != [] {
      var n := |order| - 1;
      var p := order[..n];
      assert forall k :: k in p ==> k in order;
      RagDataFailure(p, agents, article, hook);
      assert forall i :: 0 <= i < n ==> p[i] == order[i];
      assert forall i :: 0 <= i < n ==> RaisesAt(p, agents, article, hook, i) == RaisesAt(order, agents, article, hook, i);
      if RagData(p, agents, article, hook).Ok? {
        // no agent before the last one raises, so the last one decides
        assert forall i :: 0 <= i < n ==> !RaisesAt(order, agents, article, hook, i);
        if RaisesAt(order, agents, article, hook, n) {
          assert RagData(order, agents, article, hook).Err?;
        } else {
          assert RagData(order, agents, article, hook).Ok?;
          assert forall i :: 0 <= i < |order| ==> !RaisesAt(order, agents, article, hook, i);
        }
      } else {
        assert RagData(order, agents, article, hook) == RagData(p, agents, article, hook);
      }
    }
  }

  /** The default branch's reply: the serialised data and the analysis placeholder, or
      the error text when a hook or the serialiser raises. */
  function AnalysisResponse<V>(rag: Result<seq<(string, V)>, string>, dumps: Serializer<V>): string {
    match rag
    case Err(m) => ErrorPrefix + m
    case Ok(data) =>
      match dumps(data)
      case Err(m) => ErrorPrefix + m
      case Ok(json) => RagHeader + json + AnalysisSection
  }

  /** Whether the default branch raised somewhere. */
  predicate AnalysisFailed<V>(rag: Result<seq<(string, V)>, string>, dumps: Serializer<V>) {
    rag.Err? || dumps(rag.value).Err?
  }

  /** The loop of the default branch: it visits the agents in registry order, calls the
      hook of each agent that has one, and stops at the first hook that raises. */
  method CollectRagData<V>(m: Manager, article: string, hook: Hook<V>) returns (r: Result<seq<(string, V)>, string>)
    requires m.Valid()
    ensures r == RagData(m.order, m.agents, article, hook)
  {
    var data: seq<(string, V)> := [];
    var i := 0;
    while i < |m.order|
      invariant 0 <= i <= |m.order|
      invariant forall k :: k in m.order[..i] ==> k in m.agents
      invariant RagData(m.order[..i], m.agents, article, hook) == Ok(data)
    {
      var name := m.order[i];
      var agent := m.agents[name].instance;
      assert m.order[..i + 1][..i] == m.order[..i];
      if agent.hasProcessHook {
        var outcome := hook(agent, article);
        if outcome.Raised? {
          assert RagData(m.order[..i + 1], m.agents, article, hook) == Err(outcome.message);
          RagDataErrSticks(m.order, m.agents, article, hook, i + 1);
          return Err(outcome.message);
        }
        data := data + [(name, outcome.value)];
      }
      i := i + 1;
    }
    assert m.order[..i] == m.order;
    r := Ok(data);
  }

  /** Once a hook has raised, later agents change nothing. */
  lemma {:induction false} RagDataErrSticks<V>(order: seq<string>, agents: map<string, Entry>, article: string, hook: Hook<V>, k: nat)
    requires forall key :: key in order ==> key in agents
    requires k <= |order|
    requires forall key :: key in order[..k] ==> key in agents
    requires RagData(order[..k], agents, article, hook).Err?
    ensures RagData(order, agents, article, hook) == RagData(order[..k], agents, article, hook)
  {
    if k < |order| {
      var p := order[..|order| - 1];
      assert p[..k] == order[..k];
      assert forall key :: key in p ==> key in order;
      RagDataErrSticks(p, agents, article, hook, k);
    } else {
      assert order[..k] == order;
    }
  }

  /** `process_prompt`. `body` is the `Body` form field, absent or not. The system
      prompt is that of the registry `m`, which does not change after startup. */
  method ProcessPrompt<V>(m: Manager, body: Option<string>, hook: Hook<V>, dumps: Serializer<V>)
    returns (text: string, status: int)
    requires m.Valid()
    ensures status == StatusOk
    ensures var msg := Strip(body.GetOr(""));
      && (msg == ListCommand ==> text == ListAgentsResponse(m.AgentsList()))
      && (msg == PromptCommand ==> text == GenerateSystemPrompt(m.AgentsList()))
      && (msg != ListCommand && msg != PromptCommand ==>
            text == AnalysisResponse(RagData(m.order, m.agents, msg, hook), dumps))
    ensures var msg := Strip(body.GetOr(""));
      StartsWith(text, ErrorPrefix) <==>
        (msg != ListCommand && msg != PromptCommand && AnalysisFailed(RagData(m.order, m.agents, msg, hook), dumps))
  {
    var incoming := Strip(body.GetOr(""));
    if incoming == ListCommand {
      text := ListAgentsResponse(m.AgentsList());
      assert !StartsWith(text, ErrorPrefix) by {
        ListTitleFacts();
        assert text[0] == ListTitle[0];
        DiffersAtStart(text, ErrorPrefix);
      }
      return text, StatusOk;
    } else if incoming == PromptCommand {
      text := GenerateSystemPrompt(m.AgentsList());
      assert !StartsWith(text, ErrorPrefix) by {
        FixedTextFacts();
        assert text[0] == IntroLine[0];
        DiffersAtStart(text, ErrorPrefix);
      }
      return text, StatusOk;
    } else {
      var rag := CollectRagData(m, incoming, hook);
      text := AnalysisResponse(rag, dumps);
      AnalysisErrorPrefix(rag, dumps);
      return text, StatusOk;
    }
  }

  /** A text whose first character differs from the prefix's does not start with it. */
  lemma DiffersAtStart(text: string, prefix: string)
    requires text != [] && prefix != [] && text[0] != prefix[0]
    ensures !StartsWith(text, prefix)
  {
  }

  /** The default branch's reply starts with the error prefix exactly when a hook or
      the serialiser raised. */
  lemma AnalysisErrorPrefix<V>(rag: Result<seq<(string, V)>, string>, dumps: Serializer<V>)
    ensures StartsWith(AnalysisResponse(rag, dumps), ErrorPrefix) <==> AnalysisFailed(rag, dumps)
  {
    var text := AnalysisResponse(rag, dumps);
    if !AnalysisFailed(rag, dumps) {
      assert text[0] == RagHeader[0] == 'C';
      assert ErrorPrefix[0] == 'E';
    }
  }
}
