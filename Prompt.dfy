/** Rendering of the agent list: the `name - description` lines of the `list_agents`
    reply and the numbered lines of the system prompt, and the system prompt itself. */
module Prompt {
  import opened Text
  import opened Registry

  /** `f"{name} - {description}"`. */
  function AgentLine(a: AgentInfo): string {
    a.name + " - " + a.description
  }

  /** One line per agent, in the given order. */
  function AgentLines(agents: seq<AgentInfo>): (r: seq<string>)
    ensures |r| == |agents|
    ensures forall i :: 0 <= i < |r| ==> r[i] == AgentLine(agents[i])
  {
    if agents == [] then [] else [AgentLine(agents[0])] + AgentLines(agents[1..])
  }

  /** The enumerated lines `f"{i+1}. {name} - {description}"`, numbering the first
      agent `first`: consecutive numbers in agent order. */
  function NumberedLines(agents: seq<AgentInfo>, first: nat): (r: seq<string>)
    ensures |r| == |agents|
    ensures forall i :: 0 <= i < |r| ==> r[i] == DecimalString(first + i) + ". " + AgentLine(agents[i])
  {
    if agents == [] then []
    else [DecimalString(first) + ". " + AgentLine(agents[0])] + NumberedLines(agents[1..], first + 1)
  }

  // The first two lines are written as concatenations of short literals: the verifier
  // reads the characters of a literal this long only near its end, and the proofs
  // below need the first character and the absence of line breaks.
  const IntroLine :=
      "You are an assistant capable of "
    + "analyzing news articles for "
    + "trustworthiness. "
  const AgentsIntro :=
      "You will use the following agents "
    + "to evaluate the article based on "
    + "different criteria:"
  /** Everything after the line break that follows the agent lines. */
  const Closing :=
      "\n"
    + "Your task is to:\n"
    + "1. Provide the article to all agents.\n"
    + "2. Collect RAG (Retrieval-Augmented Generation) data from each agent.\n"
    + "3. Combine the RAG data and analyze it to generate a trustworthiness score and detailed explanation.\n"
    + "\n"
    + "Always ensure the analysis is comprehensive and includes metadata evaluation, factual consistency, bias detection, and linguistic analysis."

  /** The prompt text around the agent list: introduction line, line introducing the
      agents, the list, then the closing text after a line break. */
  function Fill(intro: string, agentsIntro: string, agentsList: string, closing: string): string {
    intro + "\n" + agentsIntro + "\n" + agentsList + "\n" + closing
  }

  /** The triple-quoted template with the agent list filled in, before `strip()`: it
      opens and closes with a line break. */
  function PromptTemplate(agentsList: string): string {
    "\n" + Fill(IntroLine, AgentsIntro, agentsList, Closing) + "\n"
  }

  /** The facts about the fixed text that the proofs below use. */
  lemma FixedTextFacts()
    ensures IntroLine != [] && IntroLine[0] == 'Y' && !IsSpace(IntroLine[0])
    ensures Closing != [] && !IsSpace(Closing[|Closing| - 1])
    ensures '\n' !in IntroLine && '\n' !in AgentsIntro
  {
    assert IntroLine[0] == 'Y';
    assert Closing[|Closing| - 1] == '.';
  }

  /** Stripping the template removes exactly its outer line breaks when the text
      starts and ends with a non-space character. */
  lemma {:induction false} StripFilled(intro: string, agentsIntro: string, agentsList: string, closing: string)
    requires intro != [] && !IsSpace(intro[0])
    requires closing != [] && !IsSpace(closing[|closing| - 1])
    ensures Strip("\n" + Fill(intro, agentsIntro, agentsList, closing) + "\n") == Fill(intro, agentsIntro, agentsList, closing)
  {
    var body := Fill(intro, agentsIntro, agentsList, closing);
    assert body[0] == intro[0];
    assert body[|body| - 1] == closing[|closing| - 1];
    StripPadded("\n", body, "\n");
  }

  /** `generate_system_prompt`: `strip()` takes off exactly the template's outer line
      breaks, so the prompt is the introduction, the numbered agent lines and the
      closing text, whatever the agents' names and descriptions. */
  function GenerateSystemPrompt(agents: seq<AgentInfo>): (r: string)
    ensures r == Fill(IntroLine, AgentsIntro, Join(NumberedLines(agents, 1), "\n"), Closing)
  {
    FixedTextFacts();
    StripFilled(IntroLine, AgentsIntro, Join(NumberedLines(agents, 1), "\n"), Closing);
    Strip(PromptTemplate(Join(NumberedLines(agents, 1), "\n")))
  }

  predicate NoLineBreak(s: string) {
    '\n' !in s
  }

  lemma AgentLinesSingleLine(agents: seq<AgentInfo>)
    requires forall i :: 0 <= i < |agents| ==> NoLineBreak(AgentLine(agents[i]))
    ensures forall i :: 0 <= i < |agents| ==> NoLineBreak(AgentLines(agents)[i])
  {
  }

  /** The numbered lines hold no line break when the names and descriptions hold none. */
  lemma NumberedLinesSingleLine(agents: seq<AgentInfo>, first: nat)
    requires forall i :: 0 <= i < |agents| ==> NoLineBreak(AgentLine(agents[i]))
    ensures forall i :: 0 <= i < |agents| ==> NoLineBreak(NumberedLines(agents, first)[i])
  {
    forall i | 0 <= i < |agents| ensures NoLineBreak(NumberedLines(agents, first)[i]) {
      var d := DecimalString(first + i);
      assert NoLineBreak(d) by {
        assert forall k :: 0 <= k < |d| ==> d[k] != '\n';
      }
      assert NumberedLines(agents, first)[i] == d + ". " + AgentLine(agents[i]);
    }
  }

  /** Line by line, a filled template is its two introduction lines, the listed lines
      (one empty line for an empty list) and the lines of the closing text. */
  lemma {:induction false} FilledLines(intro: string, agentsIntro: string, lines: seq<string>, closing: string)
    requires NoLineBreak(intro) && NoLineBreak(agentsIntro)
    requires forall i :: 0 <= i < |lines| ==> NoLineBreak(lines[i])
    ensures Split(Fill(intro, agentsIntro, Join(lines, "\n"), closing), '\n')
         == [intro, agentsIntro] + (if lines == [] then [""] else lines) + Split(closing, '\n')
  {
    var list := Join(lines, "\n");
    var heading := intro + "\n" + agentsIntro;
    // the text is parsed left to right: ((heading + "\n" + list) + "\n" + closing)
    SplitConcat(heading + "\n" + list, closing, '\n');
    SplitConcat(heading, list, '\n');
    SplitConcat(intro, agentsIntro, '\n');
    SplitNoSeparator(intro, '\n');
    SplitNoSeparator(agentsIntro, '\n');
    if lines != [] {
      SplitJoin(lines, '\n');
    }
  }

  /** `FilledLines` for the numbered agent lines. */
  lemma NumberedFilledLines(intro: string, agentsIntro: string, agents: seq<AgentInfo>, closing: string)
    requires NoLineBreak(intro) && NoLineBreak(agentsIntro)
    requires forall i :: 0 <= i < |agents| ==> NoLineBreak(AgentLine(agents[i]))
    ensures Split(Fill(intro, agentsIntro, Join(NumberedLines(agents, 1), "\n"), closing), '\n')
         == [intro, agentsIntro] + (if agents == [] then [""] else NumberedLines(agents, 1)) + Split(closing, '\n')
  {
    NumberedLinesSingleLine(agents, 1);
    FilledLines(intro, agentsIntro, NumberedLines(agents, 1), closing);
  }

  /** Read line by line, the system prompt is the two introduction lines, then agent
      `i` (counting from 0) on the line numbered `i + 1`, then the closing lines. With no
      agents, an empty line stands where the list would be. */
  lemma SystemPromptLines(agents: seq<AgentInfo>)
    requires forall i :: 0 <= i < |agents| ==> NoLineBreak(AgentLine(agents[i]))
    ensures Split(GenerateSystemPrompt(agents), '\n')
         == [IntroLine, AgentsIntro]
          + (if agents == [] then [""] else NumberedLines(agents, 1))
          + Split(Closing, '\n')
  {
    FixedTextFacts();
    NumberedFilledLines(IntroLine, AgentsIntro, agents, Closing);
  }
}
