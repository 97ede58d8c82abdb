/** When a run of the workflow goes to a human, and what it leaves behind: agents/supervisor.py with
  * workflow/graph.py. */
module HumanReview {
  import opened Prelude
  import opened Workflow
  import opened Recovery

  /** An agent or the supervisor has asked for a human. */
  predicate Flagged(f: Dict) {
    Truthy(Get(f, HITL_REQUIRED))
  }

  /** The routing tool that names the agent. */
  function ToolName(a: Agent): string {
    "call_" + AgentName(a) + "_agent"
  }

  lemma {:induction false} ToolNamesAgent(name: string, a: Agent)
    ensures ToolTarget(name) == Run(a) <==> name == ToolName(a)
  {
    assert ToolName(Validation) == "call_validation_agent";
    assert ToolName(Policy) == "call_policy_agent";
    assert ToolName(Communication) == "call_communication_agent";
  }

  /** The model names agent `a`. */
  predicate Names(r: Routing, a: Agent) {
    r == Tool(ToolName(a))
  }

  /** The model names an agent that has run three times. */
  ghost predicate NamesExhausted(r: Routing, f: Dict) {
    exists a :: Names(r, a) && Tries(f, a) >= 3
  }

  lemma {:induction false} SupervisedRoute(o: Oracles, f: Dict)
    ensures
      var u, g := Supervise(o, f), Supervised(o, f);
      NEXT_AGENT in u && u[NEXT_AGENT].Route? && NextAgent(g) == u[NEXT_AGENT].target
  {
    SuperviseEntries(o, f);
    MergedGet(f, Supervise(o, f), NEXT_AGENT);
  }

  lemma {:induction false} RoutedTarget(d: Dict, cycle: nat, target: Target)
    requires !target.Hitl?
    ensures
      var u := Routed(d, cycle, target);
      u[NEXT_AGENT] == Route(if target.Run? && Tries(d, target.agent) >= 3 then Hitl else target)
  {}

  /** A pass runs agent `a` if and only if nobody is asked for, fewer than 15 passes were made, the model names the
    * agent, and the agent has run fewer than three times. */
  lemma {:induction false} RunsAgentIff(o: Oracles, f: Dict, a: Agent)
    ensures NextAgent(Supervised(o, f)) == Run(a) <==>
      !Flagged(f) && CycleCount(f) < 15 && Names(o.route(Serialize(f)), a) && Tries(f, a) < 3
  {
    SupervisedRoute(o, f);
    var r := o.route(Serialize(f));
    if r.Tool? {
      ToolNamesAgent(r.name, a);
      RoutedTarget(f, CycleCount(f) + 1, ToolTarget(r.name));
    }
  }

  /** A pass goes to the human if and only if a human was asked for, 15 passes were made, the model failed, or it
    * names an agent that has no tries left. */
  lemma {:induction false} GoesToHumanIff(o: Oracles, f: Dict)
    ensures NextAgent(Supervised(o, f)).Hitl? <==>
      Flagged(f) || CycleCount(f) >= 15 || o.route(Serialize(f)).LlmError? || NamesExhausted(o.route(Serialize(f)), f)
  {
    SupervisedRoute(o, f);
    var r := o.route(Serialize(f));
    if r.Tool? {
      var target := ToolTarget(r.name);
      RoutedTarget(f, CycleCount(f) + 1, target);
      if target.Run? {
        ToolNamesAgent(r.name, target.agent);
      }
      forall a | Names(r, a)
        ensures target == Run(a)
      {
        ToolNamesAgent(r.name, a);
      }
    }
  }

  lemma {:induction false} RoutedFlags(d: Dict, cycle: nat, target: Target)
    requires !target.Hitl?
    ensures
      var u := Routed(d, cycle, target);
      if HITL_REQUIRED in u then u[NEXT_AGENT] == Route(Hitl) && Truthy(u[HITL_REQUIRED])
      else !u[NEXT_AGENT].target.Hitl?
  {}

  /** The update of a pass goes to the human exactly when it, or the state before, asks for one. */
  lemma {:induction false} SuperviseFlags(o: Oracles, d: Dict)
    ensures
      var u := Supervise(o, d);
      && NEXT_AGENT in u && u[NEXT_AGENT].Route?
      && (if HITL_REQUIRED in u then u[NEXT_AGENT].target.Hitl? && Truthy(u[HITL_REQUIRED])
          else u[NEXT_AGENT].target.Hitl? <==> Flagged(d))
  {
    var r := o.route(Serialize(d));
    match r
    case LlmError(_) =>
    case NoToolCall => RoutedFlags(d, CycleCount(d) + 1, End);
    case Tool(name) => RoutedFlags(d, CycleCount(d) + 1, ToolTarget(name));
  }

  /** After a pass a human is asked for exactly when the run goes to the human. */
  lemma {:induction false} FlaggedIffGoesToHuman(o: Oracles, f: Dict)
    ensures Flagged(Supervised(o, f)) <==> NextAgent(Supervised(o, f)).Hitl?
  {
    SupervisedRoute(o, f);
    MergedGet(f, Supervise(o, f), HITL_REQUIRED);
    SuperviseFlags(o, f);
  }

  // ---------------------------------------------------------------- whole runs

  function LastPass(o: Oracles, f: Dict): Dict
    requires o.Valid()
  {
    Passes(o, f)[|Passes(o, f)| - 1]
  }

  lemma {:induction false} LastOfNext(o: Oracles, f: Dict)
    requires o.Valid() && NextPass(o, f).Some?
    ensures
      var n := NextPass(o, f).value;
      Passes(o, f) == [f] + Passes(o, n) && LastPass(o, f) == LastPass(o, n) && Final(o, f) == Final(o, n)
  {}

  /** The last node of the run is the human-review node. */
  ghost predicate EndsAtHuman(o: Oracles, f: Dict)
    requires o.Valid()
  {
    NextAgent(Supervised(o, LastPass(o, f))).Hitl?
  }

  lemma {:induction false} HumanUpdate(g: Dict)
    ensures
      var r := g + Serialize(HITL_UPDATE);
      Flagged(r) && Truthy(Get(r, REQUEST_SAVED)) && NextAgent(r).End?
  {
    MergedGet(g, HITL_UPDATE, HITL_REQUIRED);
    MergedGet(g, HITL_UPDATE, REQUEST_SAVED);
    MergedGet(g, HITL_UPDATE, NEXT_AGENT);
  }

  /** A run ends asking for a human if and only if its last node was the human-review node; then it also counts as
    * saved. */
  lemma {:induction false} FlaggedIffEndsAtHuman(o: Oracles, f: Dict)
    requires o.Valid()
    ensures Flagged(Final(o, f)) <==> EndsAtHuman(o, f)
    ensures EndsAtHuman(o, f) ==> Truthy(Get(Final(o, f), REQUEST_SAVED))
    ensures NextAgent(Final(o, f)).End?
    decreases RunsLeft(f)
  {
    if NextPass(o, f).Some? {
      NextPassCounters(o, f);
      LastOfNext(o, f);
      FlaggedIffEndsAtHuman(o, NextPass(o, f).value);
    } else {
      var g := Supervised(o, f);
      FlaggedIffGoesToHuman(o, f);
      HumanUpdate(g);
    }
  }

  /** Every pass but the last runs an agent. */
  lemma {:induction false} EarlierPassesRunAgents(o: Oracles, f: Dict)
    requires o.Valid()
    ensures forall k :: 0 <= k < |Passes(o, f)| - 1 ==> NextAgent(Supervised(o, Passes(o, f)[k])).Run?
    ensures !NextAgent(Supervised(o, LastPass(o, f))).Run?
    decreases RunsLeft(f)
  {
    if NextPass(o, f).Some? {
      NextPassCounters(o, f);
      LastOfNext(o, f);
      EarlierPassesRunAgents(o, NextPass(o, f).value);
    }
  }

  /** Whatever crashed on the way, the returned state asks for a human exactly when the uninterrupted run ends at
    * one. */
  lemma {:induction false} ReturnedFlag(o: Oracles, request: Dict, actions: seq<Action>)
    requires o.Valid() && IsRequest(request) && Play(o, request, actions).proc.Returned?
    ensures Flagged(Play(o, request, actions).proc.state) <==> EndsAtHuman(o, request)
  {
    CrashTransparency(o, request, actions);
    FlaggedIffEndsAtHuman(o, request);
    var d := Play(o, request, actions).proc.state;
    assert Get(Serialize(d), HITL_REQUIRED) == Get(d, HITL_REQUIRED);
  }

  /** A finished run that is left alone keeps both checkpoints if it asks for a human or has saved nothing, so that
    * it can be resumed; otherwise both are gone. */
  lemma {:induction false} CheckpointKeptIff(o: Oracles, s: System)
    requires o.Valid() && s.proc.Finished?
    ensures
      var d, r := s.proc.state, Settle(o, s);
      var open := Flagged(d) || !(Truthy(Get(d, REQUEST_SAVED)) || Truthy(Get(d, COMPENSATED)));
      && r.proc == Returned(d)
      && (if open then r.redis == s.redis && r.postgres == s.postgres else r.redis.None? && r.postgres.None?)
  {
    var t := Take(o, s);
    assert Settle(o, s) == Settle(o, t);
    if t.proc.DeletingPostgres? {
      var u := Take(o, t);
      assert Settle(o, t) == Settle(o, u) == u;
    } else {
      assert Settle(o, t) == t;
    }
  }
}
