/** How many agent runs are checkpointed before the checkpoint is deleted, across crashes, expiries and failing
  * stores. */
module SaveBudget {
  import opened Prelude
  import opened Workflow
  import opened Recovery

  /** The agent runs that the process can still save: those the retry caps leave, and the one whose result is being
    * saved. */
  ghost function Ahead(o: Oracles, p: Proc): nat {
    match p
    case AtSupervisor(d) => RunsLeft(d)
    case AtAgent(a, d) => RunsLeft(Acted(o, a, Serialize(d))) + 1
    case SavingRedis(_, d) => RunsLeft(d) + 1
    case SavingPostgres(_, d, saved) => RunsLeft(d) + if saved then 0 else 1
    case _ => 0
  }

  /** The saves made and the saves still possible. */
  ghost function Budget(o: Oracles, s: System): nat {
    s.saves + Ahead(o, s.proc)
  }

  lemma SerializeKeepsCounts(d: Dict)
    ensures RetryCounts(Serialize(d)) == RetryCounts(d)
  {}

  lemma StoreFailureKeepsBudget(o: Oracles, s: System)
    ensures Budget(o, TakeWithoutStore(s)) <= Budget(o, s)
  {}

  lemma AgentKeepsBudget(o: Oracles, a: Agent, d: Dict)
    ensures RunsLeft(GraphMerge(d, o.agent(a, Serialize(d)))) == RunsLeft(Acted(o, a, Serialize(d)))
  {
    AgentKeepsRunsLeft(o, a, d);
    SerializeKeepsCounts(GraphMerge(d, o.agent(a, Serialize(d))));
  }

  /** No step adds to the budget. */
  lemma TakeKeepsBudget(o: Oracles, s: System)
    requires o.Valid()
    ensures Budget(o, Take(o, s)) <= Budget(o, s)
  {
    match s.proc
    case AtSupervisor(d) => SupervisorKeepsBudget(o, d);
    case AtAgent(a, d) => AgentKeepsBudget(o, a, d);
    case _ => OtherStepsKeepBudget(o, s);
  }

  lemma OtherStepsKeepBudget(o: Oracles, s: System)
    requires !s.proc.AtSupervisor? && !s.proc.AtAgent?
    ensures Budget(o, Take(o, s)) <= Budget(o, s)
  {}

  lemma SupervisorKeepsBudget(o: Oracles, d: Dict)
    requires o.Valid()
    ensures
      var d1 := GraphMerge(d, Supervise(o, d));
      NextAgent(d1).Run? ==> RunsLeft(Acted(o, NextAgent(d1).agent, Serialize(d1))) + 1 == RunsLeft(d)
  {
    SupervisorComesCloser(o, d);
    SerializeKeepsCounts(d);
    if NextAgent(GraphMerge(d, Supervise(o, d))).Run? {
      GraphPass(o, d);
      NextPassCounters(o, Serialize(d));
    }
  }

  /** The state that the action starts from. */
  function StartState(s: System, request: Dict, a: Action): Dict
    requires a.Start?
  {
    InitialState(LoadCheckpoint(s, a.redisReads, a.postgresReads), request, a.message)
  }

  /** The tries recorded in the state that a start loads cover the saves made so far. */
  predicate StartFits(s: System, request: Dict, a: Action) {
    a.Start? && (s.proc.Idle? || s.proc.Returned?) ==> s.saves + RunsLeft(StartState(s, request, a)) <= 9
  }

  ghost predicate StartsFit(o: Oracles, request: Dict, actions: seq<Action>) {
    actions == [] ||
    (StartsFit(o, request, actions[..|actions| - 1])
     && StartFits(Play(o, request, actions[..|actions| - 1]), request, actions[|actions| - 1]))
  }

  /** A step keeps the budget within nine if and only if it is not a start from a checkpoint that misses too many
    * saves. */
  lemma WithinNineIffStartFits(o: Oracles, request: Dict, s: System, a: Action)
    requires o.Valid() && Budget(o, s) <= 9
    ensures Budget(o, Act(o, request, s, a)) <= 9 <==> StartFits(s, request, a)
  {
    if a.Step? {
      TakeKeepsBudget(o, s);
    } else if a.StepStoreFails? {
      StoreFailureKeepsBudget(o, s);
    }
  }

  /** The budget is within nine at every point of the run. */
  ghost predicate AlwaysWithinNine(o: Oracles, request: Dict, actions: seq<Action>) {
    && Budget(o, Play(o, request, actions)) <= 9
    && (actions == [] || AlwaysWithinNine(o, request, actions[..|actions| - 1]))
  }

  lemma {:induction false} AlwaysWithinNineIffStartsFit(o: Oracles, request: Dict, actions: seq<Action>)
    requires o.Valid()
    ensures AlwaysWithinNine(o, request, actions) <==> StartsFit(o, request, actions)
  {
    if actions != [] {
      var front := actions[..|actions| - 1];
      AlwaysWithinNineIffStartsFit(o, request, front);
      if AlwaysWithinNine(o, request, front) {
        assert Budget(o, Play(o, request, front)) <= 9;
        WithinNineIffStartFits(o, request, Play(o, request, front), actions[|actions| - 1]);
      }
    }
  }

  /** Whatever crashes, expires or fails: at most nine agent runs are saved as long as every start loads the tries
    * of the saves made. */
  lemma AtMostNineSavesIfStartsFit(o: Oracles, request: Dict, actions: seq<Action>)
    requires o.Valid() && StartsFit(o, request, actions)
    ensures Play(o, request, actions).saves <= 9
  {
    AlwaysWithinNineIffStartsFit(o, request, actions);
  }

  // ---------------------------------------------------------------- Redis alone is enough

  /** Redis answers reads and takes writes; its deletions and everything in PostgreSQL may fail. */
  predicate RedisServes(s: System, a: Action) {
    !a.ExpireRedis? && (a.Start? ==> a.redisReads) && !(a.StepStoreFails? && s.proc.SavingRedis?)
  }

  ghost predicate RedisReliable(o: Oracles, request: Dict, actions: seq<Action>) {
    actions == [] ||
    (RedisReliable(o, request, actions[..|actions| - 1])
     && RedisServes(Play(o, request, actions[..|actions| - 1]), actions[|actions| - 1]))
  }

  /** The Redis checkpoint covers the saves, and what is about to be saved records the tries of the graph's state. */
  ghost predicate RedisCovers(s: System) {
    && (if s.redis.Some? then s.saves + RunsLeft(s.redis.value) <= 9 else s.saves == 0)
    && (s.proc.SavingRedis? ==> RunsLeft(s.proc.merged) == RunsLeft(s.proc.state))
    && (s.proc.SavingPostgres? ==> s.proc.saved)
  }

  lemma StartFromRedisFits(s: System, request: Dict, a: Action)
    requires RedisCovers(s) && a.Start? && a.redisReads
    ensures StartFits(s, request, a)
  {
    if s.redis.Some? {
      assert RetryCounts(StartState(s, request, a)) == RetryCounts(s.redis.value);
    }
  }

  lemma AgentResultCovers(o: Oracles, a: Agent, d: Dict)
    ensures
      var result := o.agent(a, Serialize(d));
      RunsLeft(DictMerge(d, result)) == RunsLeft(GraphMerge(d, result))
  {}

  lemma TakeKeepsRedisCovers(o: Oracles, s: System)
    requires o.Valid() && RedisCovers(s) && Budget(o, s) <= 9
    ensures RedisCovers(Take(o, s))
  {
    match s.proc
    case AtAgent(a, d) => AgentResultCovers(o, a, d);
    case SavingRedis(m, d) => SerializeKeepsCounts(m);
    case _ =>
  }

  lemma ActKeepsRedisCovers(o: Oracles, request: Dict, s: System, a: Action)
    requires o.Valid() && RedisCovers(s) && Budget(o, s) <= 9 && RedisServes(s, a)
    ensures RedisCovers(Act(o, request, s, a)) && Budget(o, Act(o, request, s, a)) <= 9
  {
    if a.Start? {
      StartFromRedisFits(s, request, a);
    }
    WithinNineIffStartFits(o, request, s, a);
    if a.Step? {
      TakeKeepsRedisCovers(o, s);
    }
  }

  /** Across any crashes and PostgreSQL failures, at most nine agent runs are saved before the checkpoint is
    * deleted, if Redis serves. */
  lemma {:induction false} AtMostNineSaves(o: Oracles, request: Dict, actions: seq<Action>)
    requires o.Valid() && RedisReliable(o, request, actions)
    ensures RedisCovers(Play(o, request, actions)) && Budget(o, Play(o, request, actions)) <= 9
    ensures StartsFit(o, request, actions) && Play(o, request, actions).saves <= 9
  {
    if actions != [] {
      var front, a := actions[..|actions| - 1], actions[|actions| - 1];
      AtMostNineSaves(o, request, front);
      ActKeepsRedisCovers(o, request, Play(o, request, front), a);
      WithinNineIffStartFits(o, request, Play(o, request, front), a);
    }
  }

  // ---------------------------------------------------------------- a lost checkpoint breaks the bound

  /** The routing model names an agent with tries left as long as there is one, and no agent asks for a human. */
  ghost predicate NeverGivesUp(o: Oracles) {
    && o.Valid()
    && (forall d {:trigger o.route(d)} :: RunsLeft(d) > 0 ==> ChoosesAgent(o.route(d), d))
    && (forall a, d {:trigger o.agent(a, d)} :: HITL_REQUIRED !in o.agent(a, d))
  }

  predicate ChoosesAgent(r: Routing, d: Dict) {
    r.Tool? && ToolTarget(r.name).Run? && Tries(d, ToolTarget(r.name).agent) < MAX_AGENT_RETRIES
  }

  /** The supervisor asks its routing model in this state and in as many passes after it as there are tries left. */
  predicate Routable(d: Dict) {
    !Truthy(Get(d, HITL_REQUIRED)) && CycleCount(d) + RunsLeft(d) <= MAX_CYCLES
  }

  lemma SupervisorRoutes(o: Oracles, d: Dict)
    requires NeverGivesUp(o) && Routable(d) && RunsLeft(d) > 0
    ensures
      var u := Supervise(o, d);
      NEXT_AGENT in u && u[NEXT_AGENT].Route? && u[NEXT_AGENT].target.Run? && HITL_REQUIRED !in u
  {
    SerializeKeepsCounts(d);
    var r := o.route(Serialize(d));
    assert ChoosesAgent(r, Serialize(d));
    assert Supervise(o, d) == Routed(d, CycleCount(d) + 1, ToolTarget(r.name));
  }

  lemma MergedControl(d: Dict, u: Dict)
    ensures
      var e := GraphMerge(d, u);
      && Get(e, HITL_REQUIRED) == (if HITL_REQUIRED in u then u[HITL_REQUIRED] else Get(d, HITL_REQUIRED))
      && NextAgent(e) == NextAgent(if NEXT_AGENT in u then u else d)
      && CycleCount(e) == CycleCount(if CYCLE_COUNT in u then u else d)
      && RetryCounts(e) == RetryCounts(if RETRY_COUNTS in u then u else d)
  {}

  lemma SupervisorRunsAgent(o: Oracles, d: Dict)
    requires NeverGivesUp(o) && Routable(d) && RunsLeft(d) > 0
    ensures
      var d1 := GraphMerge(d, Supervise(o, d));
      NextAgent(d1).Run? && Routable(d1) && RunsLeft(d1) == RunsLeft(d) - 1
  {
    var u := Supervise(o, d);
    SupervisorRoutes(o, d);
    SuperviseEntries(o, d);
    MergedControl(d, u);
    OneMoreTry(RetryCounts(d), u[NEXT_AGENT].target.agent);
  }

  lemma AgentKeepsRoutable(o: Oracles, a: Agent, d: Dict)
    requires NeverGivesUp(o) && Routable(d)
    ensures
      var e := GraphMerge(d, o.agent(a, Serialize(d)));
      Routable(e) && RunsLeft(e) == RunsLeft(d)
  {
    var u := o.agent(a, Serialize(d));
    MergedControl(d, u);
  }

  /** A known run goes on with action `a`. */
  lemma Extend(o: Oracles, request: Dict, run: seq<Action>, s: System, a: Action, t: System)
    returns (longer: seq<Action>)
    requires Play(o, request, run) == s && Act(o, request, s, a) == t
    ensures longer == run + [a] && Play(o, request, longer) == t
  {
    longer := run + [a];
    assert longer[..|run|] == run;
  }

  const ONE_PASS: seq<Action> := [Step, Step] + [Step, Step]

  function PassSteps(n: nat): seq<Action> {
    if n == 0 then [] else ONE_PASS + PassSteps(n - 1)
  }

  lemma SupervisorStep(o: Oracles, request: Dict, actions: seq<Action>, s: System) returns (run: seq<Action>, t: System)
    requires Play(o, request, actions) == s && NeverGivesUp(o)
    requires s.proc.AtSupervisor? && Routable(s.proc.state) && RunsLeft(s.proc.state) > 0
    ensures run == actions + [Step] && Play(o, request, run) == t
    ensures t == s.(proc := t.proc) && t.proc.AtAgent?
    ensures Routable(t.proc.state) && RunsLeft(t.proc.state) == RunsLeft(s.proc.state) - 1
  {
    var d := s.proc.state;
    var d1 := GraphMerge(d, Supervise(o, d));
    SupervisorRunsAgent(o, d);
    t := s.(proc := AtAgent(NextAgent(d1).agent, d1));
    run := Extend(o, request, actions, s, Step, t);
  }

  lemma AgentStep(o: Oracles, request: Dict, actions: seq<Action>, s: System) returns (run: seq<Action>, t: System)
    requires Play(o, request, actions) == s && NeverGivesUp(o)
    requires s.proc.AtAgent? && Routable(s.proc.state)
    ensures run == actions + [Step] && Play(o, request, run) == t
    ensures t == s.(proc := t.proc) && t.proc.SavingRedis?
    ensures Routable(t.proc.state) && RunsLeft(t.proc.state) == RunsLeft(s.proc.state)
  {
    var a, d := s.proc.agent, s.proc.state;
    AgentKeepsRoutable(o, a, d);
    var u := o.agent(a, Serialize(d));
    t := s.(proc := SavingRedis(DictMerge(d, u), GraphMerge(d, u)));
    run := Extend(o, request, actions, s, Step, t);
  }

  /** The two writes of a save: two steps. */
  lemma BothSaves(o: Oracles, request: Dict, actions: seq<Action>, s: System) returns (run: seq<Action>, t: System)
    requires Play(o, request, actions) == s && s.proc.SavingRedis?
    ensures run == actions + [Step, Step] && Play(o, request, run) == t
    ensures t.proc == AtSupervisor(s.proc.state) && t.saves == s.saves + 1
  {
    var m, d := s.proc.merged, s.proc.state;
    var s1 := s.(redis := Some(Serialize(m)), saves := s.saves + 1, proc := SavingPostgres(m, d, true));
    run := Extend(o, request, actions, s, Step, s1);
    t := s1.(postgres := Some(Serialize(m)), proc := AtSupervisor(d));
    run := Extend(o, request, run, s1, Step, t);
  }

  lemma FourSteps(actions: seq<Action>)
    ensures actions + [Step] + [Step] + [Step, Step] == actions + ONE_PASS
  {
    assert actions + [Step] + [Step] == actions + [Step, Step];
  }

  /** One pass: the supervisor, an agent, and both saves. */
  lemma OnePass(o: Oracles, request: Dict, actions: seq<Action>, s: System) returns (run: seq<Action>, t: System)
    requires Play(o, request, actions) == s && NeverGivesUp(o)
    requires s.proc.AtSupervisor? && Routable(s.proc.state) && RunsLeft(s.proc.state) > 0
    ensures run == actions + ONE_PASS && Play(o, request, run) == t
    ensures t.proc.AtSupervisor? && Routable(t.proc.state) && RunsLeft(t.proc.state) == RunsLeft(s.proc.state) - 1
    ensures t.saves == s.saves + 1
  {
    run, t := SupervisorStep(o, request, actions, s);
    run, t := AgentStep(o, request, run, t);
    run, t := BothSaves(o, request, run, t);
    FourSteps(actions);
  }

  lemma PassStepsGrow(actions: seq<Action>, n: nat)
    ensures actions + ONE_PASS + PassSteps(n) == actions + PassSteps(n + 1)
  {}

  /** The budget is spent to the last save when routing never gives up. */
  lemma {:induction false} BudgetIsSpent(o: Oracles, request: Dict, actions: seq<Action>, s: System)
    returns (run: seq<Action>, t: System)
    requires Play(o, request, actions) == s && NeverGivesUp(o)
    requires s.proc.AtSupervisor? && Routable(s.proc.state)
    ensures run == actions + PassSteps(RunsLeft(s.proc.state))
    ensures Play(o, request, run) == t && t.saves == s.saves + RunsLeft(s.proc.state)
    decreases RunsLeft(s.proc.state)
  {
    if RunsLeft(s.proc.state) == 0 {
      run, t := actions, s;
    } else {
      var n := RunsLeft(s.proc.state) - 1;
      run, t := OnePass(o, request, actions, s);
      run, t := BudgetIsSpent(o, request, run, t);
      PassStepsGrow(actions, n);
    }
  }

  /** The condition is exact for every start: one that does not fit ends with more than nine saves when routing
    * never gives up. */
  lemma UnfitStartExceeds(o: Oracles, request: Dict, actions: seq<Action>, start: Action)
    returns (run: seq<Action>, t: System)
    requires NeverGivesUp(o) && start.Start?
    requires !StartFits(Play(o, request, actions), request, start)
    requires Routable(StartState(Play(o, request, actions), request, start))
    ensures run == actions + [start] + PassSteps(RunsLeft(StartState(Play(o, request, actions), request, start)))
    ensures Play(o, request, run) == t && t.saves > 9
  {
    var s := Play(o, request, actions);
    var s1 := s.(proc := AtSupervisor(StartState(s, request, start)));
    run := Extend(o, request, actions, s, start, s1);
    run, t := BudgetIsSpent(o, request, run, s1);
  }

  // ---------------------------------------------------------------- ten saves for one task

  /** Routes to the first agent that has tries left; the agents change nothing. */
  function Greedy(): Oracles {
    Oracles(
      d => Tool(if Tries(d, Validation) < MAX_AGENT_RETRIES then "call_validation_agent"
                else if Tries(d, Policy) < MAX_AGENT_RETRIES then "call_policy_agent"
                else "call_communication_agent"),
      (a, d) => map[])
  }

  lemma GreedyNeverGivesUp()
    ensures NeverGivesUp(Greedy())
  {}

  const REQUEST: Dict := map[THREAD_ID := Text("t"), CYCLE_COUNT := Number(0), RETRY_COUNTS := Counts(map[])]

  const FIRST: Action := Start("refund", true, true)

  const UNREADABLE: Action := Start("refund", true, false)

  /** One agent run is saved, then the process dies, the Redis entry expires and the PostgreSQL read fails. */
  const ONE_SAVE_LOST: seq<Action> := [FIRST] + ONE_PASS + [Crash] + [ExpireRedis]

  /** Without a checkpoint the request itself is the state, with all nine tries left. */
  lemma FreshStart(s: System, a: Action)
    requires a.Start? && LoadCheckpoint(s, a.redisReads, a.postgresReads) == None
    ensures Routable(StartState(s, REQUEST, a)) && RunsLeft(StartState(s, REQUEST, a)) == 9
  {
    var d := StartState(s, REQUEST, a);
    assert Get(d, RETRY_COUNTS) == Counts(map[]) && Get(d, CYCLE_COUNT) == Number(0) && Get(d, HITL_REQUIRED) == Null;
  }

  lemma OneSaveLost() returns (s: System)
    ensures Play(Greedy(), REQUEST, ONE_SAVE_LOST) == s
    ensures s.proc.Idle? && s.saves == 1 && s.redis.None?
  {
    var o := Greedy();
    GreedyNeverGivesUp();
    FreshStart(FRESH, FIRST);
    var s1 := FRESH.(proc := AtSupervisor(StartState(FRESH, REQUEST, FIRST)));
    var run := Extend(o, REQUEST, [], FRESH, FIRST, s1);
    var t;
    run, t := OnePass(o, REQUEST, run, s1);
    run := Extend(o, REQUEST, run, t, Crash, t.(proc := Idle));
    s := t.(proc := Idle, redis := None);
    run := Extend(o, REQUEST, run, t.(proc := Idle), ExpireRedis, s);
    assert run == ONE_SAVE_LOST;
  }

  /** The restarted run knows nothing of the first save: ten agent runs are saved for one task. */
  lemma LostCheckpointSavesTen()
    ensures Play(Greedy(), REQUEST, ONE_SAVE_LOST + [UNREADABLE] + PassSteps(9)).saves == 10
  {
    var o := Greedy();
    var s := OneSaveLost();
    GreedyNeverGivesUp();
    FreshStart(s, UNREADABLE);
    var s1 := s.(proc := AtSupervisor(StartState(s, REQUEST, UNREADABLE)));
    var run := Extend(o, REQUEST, ONE_SAVE_LOST, s, UNREADABLE, s1);
    var t;
    run, t := BudgetIsSpent(o, REQUEST, run, s1);
  }

  // ---------------------------------------------------------------- stores that never fail

  /** One agent run is saved to Redis and not yet to PostgreSQL. */
  const HALF_SAVED: seq<Action> := [FIRST] + [Step] + [Step] + [Step]

  /** The process dies between the two writes, and the Redis entry expires. */
  const SPLIT_SAVE: seq<Action> := HALF_SAVED + [Crash] + [ExpireRedis]

  lemma RedisSaveStep(o: Oracles, request: Dict, actions: seq<Action>, s: System) returns (run: seq<Action>, t: System)
    requires Play(o, request, actions) == s && s.proc.SavingRedis?
    ensures run == actions + [Step] && Play(o, request, run) == t
    ensures t.saves == s.saves + 1 && t.postgres == s.postgres
  {
    var m, d := s.proc.merged, s.proc.state;
    t := s.(redis := Some(Serialize(m)), saves := s.saves + 1, proc := SavingPostgres(m, d, true));
    run := Extend(o, request, actions, s, Step, t);
  }

  lemma FirstStarts() returns (s: System)
    ensures Play(Greedy(), REQUEST, [FIRST]) == s && s == FRESH.(proc := s.proc)
    ensures s.proc.AtSupervisor? && Routable(s.proc.state) && RunsLeft(s.proc.state) == 9
  {
    FreshStart(FRESH, FIRST);
    s := FRESH.(proc := AtSupervisor(StartState(FRESH, REQUEST, FIRST)));
    var run := Extend(Greedy(), REQUEST, [], FRESH, FIRST, s);
    assert run == [FIRST];
  }

  lemma HalfSaved() returns (s: System)
    ensures Play(Greedy(), REQUEST, HALF_SAVED) == s && s.saves == 1 && s.postgres.None?
  {
    var o := Greedy();
    GreedyNeverGivesUp();
    s := FirstStarts();
    var run;
    run, s := SupervisorStep(o, REQUEST, [FIRST], s);
    run, s := AgentStep(o, REQUEST, run, s);
    run, s := RedisSaveStep(o, REQUEST, run, s);
  }

  lemma SplitSave() returns (s: System)
    ensures Play(Greedy(), REQUEST, SPLIT_SAVE) == s
    ensures s.proc.Idle? && s.saves == 1 && s.redis.None? && s.postgres.None?
  {
    var t := HalfSaved();
    var run := Extend(Greedy(), REQUEST, HALF_SAVED, t, Crash, t.(proc := Idle));
    s := t.(proc := Idle, redis := None);
    run := Extend(Greedy(), REQUEST, run, t.(proc := Idle), ExpireRedis, s);
  }

  /** No access to a store ever fails, and yet ten agent runs are saved for one task. */
  lemma CrashBetweenWritesSavesTen()
    ensures Play(Greedy(), REQUEST, SPLIT_SAVE + [FIRST] + PassSteps(9)).saves == 10
  {
    var o := Greedy();
    var s := SplitSave();
    GreedyNeverGivesUp();
    FreshStart(s, FIRST);
    var s1 := s.(proc := AtSupervisor(StartState(s, REQUEST, FIRST)));
    var run := Extend(o, REQUEST, SPLIT_SAVE, s, FIRST, s1);
    var t;
    run, t := BudgetIsSpent(o, REQUEST, run, s1);
  }

  /** Both stores answer and take writes, and no crash falls between the two writes of a save; Redis may expire at any
    * time. */
  predicate StoresServe(s: System, a: Action) {
    !a.StepStoreFails? && (a.Start? ==> a.redisReads && a.postgresReads) && !(a.Crash? && s.proc.SavingPostgres?)
  }

  ghost predicate StoresReliable(o: Oracles, request: Dict, actions: seq<Action>) {
    actions == [] ||
    (StoresReliable(o, request, actions[..|actions| - 1])
     && StoresServe(Play(o, request, actions[..|actions| - 1]), actions[|actions| - 1]))
  }

  predicate StoreCovers(store: Option<Dict>, saves: nat) {
    store.Some? ==> saves + RunsLeft(store.value) <= 9
  }

  /** Each store covers the saves, but PostgreSQL between the two writes of a save. */
  ghost predicate BothCover(s: System) {
    && StoreCovers(s.redis, s.saves)
    && (!s.proc.SavingPostgres? ==> StoreCovers(s.postgres, s.saves) && (s.postgres.None? ==> s.saves == 0))
    && (s.proc.SavingRedis? || s.proc.SavingPostgres? ==> RunsLeft(s.proc.merged) == RunsLeft(s.proc.state))
    && (s.proc.SavingPostgres? ==> s.proc.saved)
    && (s.proc.DeletingPostgres? ==> s.redis.None?)
  }

  lemma StartFromEitherFits(s: System, request: Dict, a: Action)
    requires BothCover(s) && a.Start? && a.redisReads && a.postgresReads && !s.proc.SavingPostgres?
    ensures StartFits(s, request, a)
  {
    var loaded := LoadCheckpoint(s, true, true);
    if loaded.Some? {
      assert RetryCounts(StartState(s, request, a)) == RetryCounts(loaded.value);
    }
  }

  lemma TakeKeepsBothCover(o: Oracles, s: System)
    requires o.Valid() && BothCover(s) && Budget(o, s) <= 9
    ensures BothCover(Take(o, s))
  {
    match s.proc
    case AtAgent(a, d) => AgentResultCovers(o, a, d);
    case SavingRedis(m, d) => SerializeKeepsCounts(m);
    case SavingPostgres(m, d, _) => SerializeKeepsCounts(m);
    case _ =>
  }

  lemma ActKeepsBothCover(o: Oracles, request: Dict, s: System, a: Action)
    requires o.Valid() && BothCover(s) && Budget(o, s) <= 9 && StoresServe(s, a)
    ensures BothCover(Act(o, request, s, a)) && Budget(o, Act(o, request, s, a)) <= 9
  {
    if a.Start? && !s.proc.SavingPostgres? {
      StartFromEitherFits(s, request, a);
    }
    WithinNineIffStartFits(o, request, s, a);
    if a.Step? {
      TakeKeepsBothCover(o, s);
    }
  }

  /** With expiry and crashes, at most nine agent runs are saved, unless a store fails or a crash splits a save. */
  lemma {:induction false} AtMostNineSavesUnlessSplit(o: Oracles, request: Dict, actions: seq<Action>)
    requires o.Valid() && StoresReliable(o, request, actions)
    ensures BothCover(Play(o, request, actions)) && Budget(o, Play(o, request, actions)) <= 9
    ensures StartsFit(o, request, actions) && Play(o, request, actions).saves <= 9
  {
    if actions != [] {
      var front, a := actions[..|actions| - 1], actions[|actions| - 1];
      AtMostNineSavesUnlessSplit(o, request, front);
      ActKeepsBothCover(o, request, Play(o, request, front), a);
      WithinNineIffStartFits(o, request, Play(o, request, front), a);
    }
  }
}
