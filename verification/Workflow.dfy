/** The supervised workflow of workflow/graph.py and agents/supervisor.py, for any routing model and any agents. */
module Workflow {
  import opened Prelude

  /** The keys of the workflow state that the control logic reads or writes; every other field is a `Field`. */
  datatype Key =
    | MESSAGES | CYCLE_COUNT | RETRY_COUNTS | HITL_REQUIRED | HITL_REASON | NEXT_AGENT
    | THREAD_ID | REQUEST_SAVED | COMPENSATED | Field(name: string)

  datatype Agent = Validation | Policy | Communication

  datatype Target = End | Hitl | Run(agent: Agent)

  datatype Value =
    | Null
    | Truth(b: bool)
    | Number(n: nat)
    | Text(s: string)
    | Counts(counts: map<Agent, nat>)
    | Route(target: Target)
    | Transcript(messages: seq<string>)

  type Dict = map<Key, Value>

  const MAX_CYCLES: nat := 15
  const MAX_AGENT_RETRIES: nat := 3
  const MAX_RECURSION: nat := 50

  // ---------------------------------------------------------------- dictionaries

  function Get(d: Dict, k: Key): Value {
    if k in d then d[k] else Null
  }

  predicate Truthy(v: Value) {
    match v
    case Null => false
    case Truth(b) => b
    case Number(n) => n != 0
    case Text(s) => s != ""
    case Counts(c) => c != map[]
    case Route(_) => true
    case Transcript(ms) => ms != []
  }

  /** `state.get("cycle_count") or 0`. */
  function CycleCount(d: Dict): nat {
    match Get(d, CYCLE_COUNT)
    case Number(n) => n
    case _ => 0
  }

  /** `state.get("agent_retry_counts") or {}`. */
  function RetryCounts(d: Dict): map<Agent, nat> {
    match Get(d, RETRY_COUNTS)
    case Counts(c) => c
    case _ => map[]
  }

  function CountOf(c: map<Agent, nat>, a: Agent): nat {
    if a in c then c[a] else 0
  }

  function Total(c: map<Agent, nat>): nat {
    CountOf(c, Validation) + CountOf(c, Policy) + CountOf(c, Communication)
  }

  function Tries(d: Dict, a: Agent): nat {
    CountOf(RetryCounts(d), a)
  }

  function TotalTries(d: Dict): nat {
    Total(RetryCounts(d))
  }

  /** `_serialize_state`: everything but the message history. */
  function Serialize(d: Dict): Dict {
    d - {MESSAGES}
  }

  /** `{**state, **result}`. */
  function DictMerge(state: Dict, result: Dict): Dict {
    state + result
  }

  function MessagesOf(d: Dict): seq<string> {
    match Get(d, MESSAGES)
    case Transcript(ms) => ms
    case _ => []
  }

  /** The graph's own merge: the message channel appends, every other channel keeps the last value. */
  function GraphMerge(state: Dict, update: Dict): Dict {
    var all := state + update;
    if MESSAGES in all then all[MESSAGES := Transcript(MessagesOf(state) + MessagesOf(update))] else all
  }

  /** What a checkpoint stores is the graph's own state without its messages. */
  lemma CheckpointIsGraphState(state: Dict, result: Dict)
    ensures Serialize(DictMerge(state, result)) == Serialize(GraphMerge(state, result))
    ensures Serialize(GraphMerge(state, result)) == Serialize(state) + Serialize(result)
  {}

  // ---------------------------------------------------------------- the supervisor

  datatype Routing = Tool(name: string) | NoToolCall | LlmError(error: string)

  /** The routing model and the agents, as functions of the state without messages. */
  datatype Oracles = Oracles(route: Dict -> Routing, agent: (Agent, Dict) -> Dict) {
    /** Agents do not write the supervisor's own fields. */
    ghost predicate Valid() {
      forall a, d {:trigger agent(a, d)} ::
        var u := agent(a, d);
        CYCLE_COUNT !in u && RETRY_COUNTS !in u && NEXT_AGENT !in u && THREAD_ID !in u
    }
  }

  /** `TOOL_TO_AGENT.get(tool, "end")`. */
  function ToolTarget(tool: string): Target {
    if tool == "call_validation_agent" then Run(Validation)
    else if tool == "call_policy_agent" then Run(Policy)
    else if tool == "call_communication_agent" then Run(Communication)
    else End
  }

  function AgentName(a: Agent): string {
    match a
    case Validation => "validation"
    case Policy => "policy"
    case Communication => "communication"
  }

  function Said(text: string): Value {
    Transcript([text])
  }

  /** `supervisor_node`: the partial state it returns for the state `d`. */
  function Supervise(o: Oracles, d: Dict): Dict {
    var cycle := CycleCount(d) + 1;
    if Truthy(Get(d, HITL_REQUIRED)) then
      map[NEXT_AGENT := Route(Hitl), CYCLE_COUNT := Number(cycle), MESSAGES := Said("hitl")]
    else if cycle > MAX_CYCLES then
      map[NEXT_AGENT := Route(Hitl), HITL_REQUIRED := Truth(true), HITL_REASON := Text("Cycle limit (15) exceeded"),
          CYCLE_COUNT := Number(cycle), MESSAGES := Said("cycle limit exceeded")]
    else
      match o.route(Serialize(d))
      case LlmError(e) =>
        map[NEXT_AGENT := Route(Hitl), HITL_REQUIRED := Truth(true), HITL_REASON := Text("supervisor_llm_error:" + e),
            CYCLE_COUNT := Number(cycle), RETRY_COUNTS := Counts(RetryCounts(d)), MESSAGES := Said("LLM error")]
      case NoToolCall => Routed(d, cycle, End)
      case Tool(name) => Routed(d, cycle, ToolTarget(name))
  }

  /** The retry accounting after the model has chosen. */
  function Routed(d: Dict, cycle: nat, target: Target): Dict {
    if target.Run? then
      var counts := RetryCounts(d)[target.agent := Tries(d, target.agent) + 1];
      if counts[target.agent] > MAX_AGENT_RETRIES then
        map[NEXT_AGENT := Route(Hitl), HITL_REQUIRED := Truth(true),
            HITL_REASON := Text("retry_exhausted:" + AgentName(target.agent)),
            CYCLE_COUNT := Number(cycle), RETRY_COUNTS := Counts(counts), MESSAGES := Said("retries exhausted")]
      else
        map[NEXT_AGENT := Route(target), CYCLE_COUNT := Number(cycle),
            RETRY_COUNTS := Counts(counts), MESSAGES := Said("route")]
    else
      map[NEXT_AGENT := Route(target), CYCLE_COUNT := Number(cycle),
          RETRY_COUNTS := Counts(RetryCounts(d)), MESSAGES := Said("route")]
  }

  /** `route_supervisor`. */
  function NextAgent(d: Dict): Target {
    match Get(d, NEXT_AGENT)
    case Route(t) => t
    case _ => End
  }

  /** `hitl_node`. */
  const HITL_UPDATE: Dict := map[
    HITL_REQUIRED := Truth(true), REQUEST_SAVED := Truth(true),
    NEXT_AGENT := Route(End), MESSAGES := Said("HITL required")]

  // ---------------------------------------------------------------- one pass, without messages

  /** The fields after the supervisor has run on fields `f`. */
  function Supervised(o: Oracles, f: Dict): Dict {
    f + Serialize(Supervise(o, f))
  }

  /** The fields after agent `a` has run on fields `f`. */
  function Acted(o: Oracles, a: Agent, f: Dict): Dict {
    f + Serialize(o.agent(a, f))
  }

  function Left(count: nat): nat {
    if count < MAX_AGENT_RETRIES then MAX_AGENT_RETRIES - count else 0
  }

  function TotalLeft(c: map<Agent, nat>): nat {
    Left(CountOf(c, Validation)) + Left(CountOf(c, Policy)) + Left(CountOf(c, Communication))
  }

  /** The sum over the agents of max(0, 3 - count). */
  function RunsLeft(f: Dict): nat {
    TotalLeft(RetryCounts(f))
  }

  lemma OneMoreTry(c: map<Agent, nat>, a: Agent)
    requires CountOf(c, a) < MAX_AGENT_RETRIES
    ensures
      var d := c[a := CountOf(c, a) + 1];
      && Total(d) == Total(c) + 1
      && TotalLeft(d) == TotalLeft(c) - 1
      && (WithinCap(c) ==> WithinCap(d))
  {}

  ghost predicate WithinCap(c: map<Agent, nat>) {
    && CountOf(c, Validation) <= MAX_AGENT_RETRIES
    && CountOf(c, Policy) <= MAX_AGENT_RETRIES
    && CountOf(c, Communication) <= MAX_AGENT_RETRIES
  }

  lemma MergedGet(f: Dict, u: Dict, k: Key)
    requires k != MESSAGES
    ensures Get(f + Serialize(u), k) == if k in u then u[k] else Get(f, k)
  {}

  lemma ActedKeepsControl(o: Oracles, a: Agent, f: Dict)
    requires o.Valid()
    ensures
      var g := Acted(o, a, f);
      && RetryCounts(g) == RetryCounts(f)
      && CycleCount(g) == CycleCount(f)
      && Get(g, THREAD_ID) == Get(f, THREAD_ID)
  {
    var u := o.agent(a, f);
    MergedGet(f, u, RETRY_COUNTS);
    MergedGet(f, u, CYCLE_COUNT);
    MergedGet(f, u, THREAD_ID);
  }

  lemma RoutedEntries(d: Dict, cycle: nat, target: Target)
    ensures
      var u := Routed(d, cycle, target);
      && {NEXT_AGENT, CYCLE_COUNT, RETRY_COUNTS} <= u.Keys
      && u[CYCLE_COUNT] == Number(cycle)
      && THREAD_ID !in u
      && u[NEXT_AGENT].Route?
      && (u[NEXT_AGENT].target.Run? ==>
            (var a := u[NEXT_AGENT].target.agent;
             && Tries(d, a) < MAX_AGENT_RETRIES
             && u[RETRY_COUNTS] == Counts(RetryCounts(d)[a := Tries(d, a) + 1])))
  {}

  lemma SuperviseEntries(o: Oracles, d: Dict)
    ensures
      var u := Supervise(o, d);
      && {NEXT_AGENT, CYCLE_COUNT} <= u.Keys
      && u[CYCLE_COUNT] == Number(CycleCount(d) + 1)
      && THREAD_ID !in u
      && u[NEXT_AGENT].Route?
      && (u[NEXT_AGENT].target.Run? ==>
            (var a := u[NEXT_AGENT].target.agent;
             && Tries(d, a) < MAX_AGENT_RETRIES
             && RETRY_COUNTS in u && u[RETRY_COUNTS] == Counts(RetryCounts(d)[a := Tries(d, a) + 1])))
  {
    var cycle := CycleCount(d) + 1;
    match o.route(Serialize(d))
    case LlmError(_) =>
    case NoToolCall => RoutedEntries(d, cycle, End);
    case Tool(name) => RoutedEntries(d, cycle, ToolTarget(name));
  }

  /** What the supervisor does to the counters: one more cycle, and one more try of the agent it runs, never beyond
    * the limit. */
  lemma SupervisedCounters(o: Oracles, f: Dict)
    ensures
      var g := Supervised(o, f);
      && CycleCount(g) == CycleCount(f) + 1
      && Get(g, THREAD_ID) == Get(f, THREAD_ID)
      && (NextAgent(g).Run? ==>
            (var a := NextAgent(g).agent;
             && Tries(f, a) < MAX_AGENT_RETRIES
             && RetryCounts(g) == RetryCounts(f)[a := Tries(f, a) + 1]))
  {
    var u := Supervise(o, f);
    SuperviseEntries(o, f);
    MergedGet(f, u, CYCLE_COUNT);
    MergedGet(f, u, THREAD_ID);
    MergedGet(f, u, NEXT_AGENT);
    MergedGet(f, u, RETRY_COUNTS);
  }

  /** The fields of the next pass, when the supervisor runs an agent. */
  function NextPass(o: Oracles, f: Dict): Option<Dict> {
    var g := Supervised(o, f);
    match NextAgent(g)
    case Run(a) => Some(Acted(o, a, g))
    case _ => None
  }

  lemma PassCounters(f: Dict, n: Dict, a: Agent)
    requires Tries(f, a) < MAX_AGENT_RETRIES && RetryCounts(n) == RetryCounts(f)[a := Tries(f, a) + 1]
    ensures RunsLeft(n) == RunsLeft(f) - 1 && TotalTries(n) == TotalTries(f) + 1
    ensures WithinCap(RetryCounts(f)) ==> WithinCap(RetryCounts(n))
  {
    OneMoreTry(RetryCounts(f), a);
  }

  lemma NextPassCounters(o: Oracles, f: Dict)
    requires o.Valid() && NextPass(o, f).Some?
    ensures
      var n := NextPass(o, f).value;
      && RunsLeft(n) == RunsLeft(f) - 1
      && TotalTries(n) == TotalTries(f) + 1
      && CycleCount(n) == CycleCount(f) + 1
      && Get(n, THREAD_ID) == Get(f, THREAD_ID)
      && (WithinCap(RetryCounts(f)) ==> WithinCap(RetryCounts(n)))
  {
    SupervisedCounters(o, f);
    var g := Supervised(o, f);
    var a := NextAgent(g).agent;
    ActedKeepsControl(o, a, g);
    PassCounters(f, Acted(o, a, g), a);
  }

  // ---------------------------------------------------------------- uninterrupted runs

  /** The fields with which the run that enters the supervisor with fields `f` ends. */
  function Final(o: Oracles, f: Dict): Dict
    requires o.Valid()
    decreases RunsLeft(f)
  {
    match NextPass(o, f)
    case Some(n) =>
      NextPassCounters(o, f);
      Final(o, n)
    case None =>
      var g := Supervised(o, f);
      if NextAgent(g).Hitl? then g + Serialize(HITL_UPDATE) else g
  }

  /** The fields with which the run enters the supervisor, pass by pass. */
  function Passes(o: Oracles, f: Dict): (r: seq<Dict>)
    requires o.Valid()
    ensures r != [] && r[0] == f
    decreases RunsLeft(f)
  {
    match NextPass(o, f)
    case Some(n) =>
      NextPassCounters(o, f);
      [f] + Passes(o, n)
    case None => [f]
  }

  /** The node executions that the graph's recursion limit counts: passes, agent runs, and the HITL node. */
  function NodeRuns(o: Oracles, f: Dict): nat
    requires o.Valid()
    decreases RunsLeft(f)
  {
    match NextPass(o, f)
    case Some(n) =>
      NextPassCounters(o, f);
      2 + NodeRuns(o, n)
    case None => if NextAgent(Supervised(o, f)).Hitl? then 2 else 1
  }

  /** From any start, the agent runs still to come are at most the tries the retry cap has left. */
  lemma {:induction false} AgentRunsWithinCap(o: Oracles, f: Dict)
    requires o.Valid()
    ensures |Passes(o, f)| - 1 <= RunsLeft(f)
    ensures NodeRuns(o, f) <= 2 * |Passes(o, f)|
    decreases RunsLeft(f)
  {
    if NextPass(o, f).Some? {
      NextPassCounters(o, f);
      AgentRunsWithinCap(o, NextPass(o, f).value);
    }
  }

  /** As many cycles as agent runs, and no agent beyond its cap. */
  ghost predicate Balanced(f: Dict) {
    CycleCount(f) == TotalTries(f) && WithinCap(RetryCounts(f))
  }

  lemma {:induction false} EveryPassIsBalanced(o: Oracles, f: Dict)
    requires o.Valid() && Balanced(f)
    ensures forall k :: 0 <= k < |Passes(o, f)| ==> Balanced(Passes(o, f)[k])
    decreases RunsLeft(f)
  {
    if NextPass(o, f).Some? {
      NextPassCounters(o, f);
      EveryPassIsBalanced(o, NextPass(o, f).value);
    }
  }

  /** When the supervisor sends fields `f` to an agent, the cycle count equals the sum of the retry counts. */
  ghost predicate BalancedEntry(o: Oracles, f: Dict) {
    var g := Supervised(o, f);
    NextAgent(g).Run? ==> CycleCount(g) == TotalTries(g)
  }

  lemma BalancedAtAgent(o: Oracles, f: Dict)
    requires Balanced(f)
    ensures BalancedEntry(o, f) && CycleCount(f) <= 9
  {
    SupervisedCounters(o, f);
    var g := Supervised(o, f);
    if NextAgent(g).Run? {
      OneMoreTry(RetryCounts(f), NextAgent(g).agent);
    }
  }

  /** From reset counters, under any routing: at most 10 passes and 9 agent runs, and neither safety limit is ever
    * reached. */
  lemma BoundedFromReset(o: Oracles, f: Dict)
    requires o.Valid() && CycleCount(f) == 0 && RetryCounts(f) == map[]
    ensures |Passes(o, f)| <= 10
    ensures NodeRuns(o, f) <= 20 < MAX_RECURSION
    ensures forall k :: 0 <= k < |Passes(o, f)| ==>
      CycleCount(Passes(o, f)[k]) + 1 <= 10 < MAX_CYCLES && BalancedEntry(o, Passes(o, f)[k])
  {
    AgentRunsWithinCap(o, f);
    EveryPassIsBalanced(o, f);
    forall k | 0 <= k < |Passes(o, f)|
      ensures CycleCount(Passes(o, f)[k]) + 1 <= 10 && BalancedEntry(o, Passes(o, f)[k])
    {
      BalancedAtAgent(o, Passes(o, f)[k]);
    }
  }
}
