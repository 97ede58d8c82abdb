/** Checkpoints, crashes and resumption of the workflow: workflow/graph.py with checkpoint/store.py. */
module Recovery {
  import opened Prelude
  import opened Workflow

  /** Where one `run_workflow` call stands; each constructor waits for one atomic step. */
  datatype Proc =
    | Idle
    | AtSupervisor(state: Dict)
    | AtAgent(agent: Agent, state: Dict)
    | AtHitl(state: Dict)
    | SavingRedis(merged: Dict, state: Dict)      // the agent's result, merged for the checkpoint and by the graph
    | SavingPostgres(merged: Dict, state: Dict, saved: bool)     // `saved`: the Redis write succeeded
    | Finished(state: Dict)
    | DeletingPostgres(state: Dict)
    | Returned(state: Dict)

  /** The two checkpoint stores hold serialised states; `saves` counts the agent runs that reached a store since the
    * last deletion. */
  datatype System = System(redis: Option<Dict>, postgres: Option<Dict>, proc: Proc, saves: nat)

  /** Start (or restart) the task with a first message, take one step, crash, or let the Redis entry expire; any
    * access to a store may fail. */
  datatype Action =
    | Start(message: string, redisReads: bool, postgresReads: bool)
    | Step
    | StepStoreFails
    | Crash
    | ExpireRedis

  const FRESH := System(None, None, Idle, 0)

  /** `load_checkpoint`: Redis first, PostgreSQL as the fallback; a failed read finds nothing. */
  function LoadCheckpoint(s: System, redisReads: bool, postgresReads: bool): Option<Dict> {
    if redisReads && s.redis.Some? then s.redis
    else if postgresReads then s.postgres
    else None
  }

  /** The state a run starts from: the recovered fields or those of the request, and a fresh message list. */
  function InitialState(loaded: Option<Dict>, request: Dict, message: string): Dict {
    var base := match loaded
      case Some(recovered) => recovered + map[THREAD_ID := Get(request, THREAD_ID)]
      case None => request;
    base + map[MESSAGES := Transcript([message])]
  }

  /** The checkpoint is dropped once the request is saved, unless a human has to decide. */
  predicate Deletes(d: Dict) {
    (Truthy(Get(d, REQUEST_SAVED)) || Truthy(Get(d, COMPENSATED))) && !Truthy(Get(d, HITL_REQUIRED))
  }

  function Act(o: Oracles, request: Dict, s: System, a: Action): System {
    match a
    case Start(message, redisReads, postgresReads) =>
      if s.proc.Idle? || s.proc.Returned?
      then s.(proc := AtSupervisor(InitialState(LoadCheckpoint(s, redisReads, postgresReads), request, message)))
      else s
    case Crash => s.(proc := Idle)
    case ExpireRedis => s.(redis := None)
    case Step => Take(o, s)
    case StepStoreFails => TakeWithoutStore(s)
  }

  /** A best-effort write or deletion fails: the store keeps what it had and the run goes on. */
  function TakeWithoutStore(s: System): System {
    match s.proc
    case SavingRedis(m, d) => s.(proc := SavingPostgres(m, d, false))
    case SavingPostgres(_, d, _) => s.(proc := AtSupervisor(d))
    case Finished(d) => s.(proc := if Deletes(d) then DeletingPostgres(d) else Returned(d))
    case DeletingPostgres(d) => s.(proc := Returned(d))
    case _ => s
  }

  function Take(o: Oracles, s: System): System {
    match s.proc
    case Idle => s
    case AtSupervisor(d) =>
      var d1 := GraphMerge(d, Supervise(o, d));
      s.(proc := match NextAgent(d1)
                 case End => Finished(d1)
                 case Hitl => AtHitl(d1)
                 case Run(a) => AtAgent(a, d1))
    case AtAgent(a, d) =>
      var result := o.agent(a, Serialize(d));
      s.(proc := SavingRedis(DictMerge(d, result), GraphMerge(d, result)))
    case AtHitl(d) => s.(proc := Finished(GraphMerge(d, HITL_UPDATE)))
    case SavingRedis(m, d) => s.(redis := Some(Serialize(m)), saves := s.saves + 1, proc := SavingPostgres(m, d, true))
    case SavingPostgres(m, d, saved) =>
      s.(postgres := Some(Serialize(m)), saves := if saved then s.saves else s.saves + 1, proc := AtSupervisor(d))
    case Finished(d) =>
      if Deletes(d) then s.(redis := None, saves := 0, proc := DeletingPostgres(d)) else s.(proc := Returned(d))
    case DeletingPostgres(d) =>
      s.(postgres := None, saves := if s.redis.None? then 0 else s.saves, proc := Returned(d))
    case Returned(_) => s
  }

  /** The system after any sequence of steps, store failures, crashes, expiries and restarts. */
  function Play(o: Oracles, request: Dict, actions: seq<Action>): System {
    if actions == [] then FRESH
    else Act(o, request, Play(o, request, actions[..|actions| - 1]), actions[|actions| - 1])
  }

  // ---------------------------------------------------------------- crash transparency

  /** The fields of a new request. */
  ghost predicate IsRequest(request: Dict) {
    MESSAGES !in request && CycleCount(request) == 0 && RetryCounts(request) == map[] && THREAD_ID in request
  }

  /** Fields from which the rest of the run ends like the uninterrupted run of the request. */
  ghost predicate OnTrack(o: Oracles, request: Dict, f: Dict)
    requires o.Valid()
  {
    && MESSAGES !in f
    && THREAD_ID in f && Get(f, THREAD_ID) == Get(request, THREAD_ID)
    && Final(o, f) == Final(o, request)
  }

  ghost predicate StoreOk(o: Oracles, request: Dict, store: Option<Dict>)
    requires o.Valid() && IsRequest(request)
  {
    store.Some? ==> OnTrack(o, request, store.value)
  }

  ghost predicate ProcOk(o: Oracles, request: Dict, p: Proc)
    requires o.Valid() && IsRequest(request)
  {
    match p
    case Idle => true
    case AtSupervisor(d) => OnTrack(o, request, Serialize(d))
    case AtAgent(a, d) => OnTrack(o, request, Acted(o, a, Serialize(d)))
    case AtHitl(d) => Serialize(d) + Serialize(HITL_UPDATE) == Final(o, request)
    case SavingRedis(m, d) => Serialize(m) == Serialize(d) && OnTrack(o, request, Serialize(d))
    case SavingPostgres(m, d, _) => Serialize(m) == Serialize(d) && OnTrack(o, request, Serialize(d))
    case Finished(d) => Serialize(d) == Final(o, request)
    case DeletingPostgres(d) => Serialize(d) == Final(o, request)
    case Returned(d) => Serialize(d) == Final(o, request)
  }

  ghost predicate Transparent(o: Oracles, request: Dict, s: System)
    requires o.Valid() && IsRequest(request)
  {
    StoreOk(o, request, s.redis) && StoreOk(o, request, s.postgres) && ProcOk(o, request, s.proc)
  }

  /** The supervisor reads no messages, so it decides the same with and without them. */
  lemma SuperviseIgnoresMessages(o: Oracles, d: Dict)
    ensures Supervise(o, d) == Supervise(o, Serialize(d))
  {
    assert Serialize(Serialize(d)) == Serialize(d);
  }

  lemma SupervisorStepOk(o: Oracles, request: Dict, d: Dict)
    requires o.Valid() && IsRequest(request) && OnTrack(o, request, Serialize(d))
    ensures
      var d1 := GraphMerge(d, Supervise(o, d));
      match NextAgent(d1)
      case End => Serialize(d1) == Final(o, request)
      case Hitl => Serialize(d1) + Serialize(HITL_UPDATE) == Final(o, request)
      case Run(a) => OnTrack(o, request, Acted(o, a, Serialize(d1)))
  {
    var f := Serialize(d);
    GraphPass(o, d);
    if NextPass(o, f).Some? {
      NextPassCounters(o, f);
    }
  }

  lemma StartFields(loaded: Option<Dict>, request: Dict, message: string)
    requires THREAD_ID in request && MESSAGES !in request
    requires loaded.Some? ==>
      MESSAGES !in loaded.value && THREAD_ID in loaded.value && Get(loaded.value, THREAD_ID) == Get(request, THREAD_ID)
    ensures Serialize(InitialState(loaded, request, message)) == if loaded.Some? then loaded.value else request
  {}

  lemma StartOk(o: Oracles, request: Dict, loaded: Option<Dict>, message: string)
    requires o.Valid() && IsRequest(request) && StoreOk(o, request, loaded)
    ensures OnTrack(o, request, Serialize(InitialState(loaded, request, message)))
  {
    StartFields(loaded, request, message);
  }

  lemma ActKeepsTransparent(o: Oracles, request: Dict, s: System, a: Action)
    requires o.Valid() && IsRequest(request) && Transparent(o, request, s)
    ensures Transparent(o, request, Act(o, request, s, a))
  {
    match a
    case Start(message, redisReads, postgresReads) =>
      StartOk(o, request, LoadCheckpoint(s, redisReads, postgresReads), message);
    case Crash =>
    case ExpireRedis =>
    case StepStoreFails => StoreFailureKeepsTransparent(o, request, s);
    case Step => TakeKeepsTransparent(o, request, s);
  }

  lemma StoreFailureKeepsTransparent(o: Oracles, request: Dict, s: System)
    requires o.Valid() && IsRequest(request) && Transparent(o, request, s)
    ensures Transparent(o, request, TakeWithoutStore(s))
  {}

  lemma TakeKeepsTransparent(o: Oracles, request: Dict, s: System)
    requires o.Valid() && IsRequest(request) && Transparent(o, request, s)
    ensures Transparent(o, request, Take(o, s))
  {
    match s.proc
    case AtSupervisor(d) => SupervisorStepOk(o, request, d);
    case AtAgent(b, d) => CheckpointIsGraphState(d, o.agent(b, Serialize(d)));
    case AtHitl(d) => CheckpointIsGraphState(d, HITL_UPDATE);
    case _ =>
  }

  /** Whenever the task returns, after any crashes, store failures, expiries and resumptions, its fields are those
    * of the uninterrupted run. */
  lemma {:induction false} CrashTransparency(o: Oracles, request: Dict, actions: seq<Action>)
    requires o.Valid() && IsRequest(request)
    ensures Transparent(o, request, Play(o, request, actions))
    ensures
      var p := Play(o, request, actions).proc;
      p.Returned? ==> Serialize(p.state) == Final(o, request)
  {
    if actions != [] {
      CrashTransparency(o, request, actions[..|actions| - 1]);
      ActKeepsTransparent(o, request, Play(o, request, actions[..|actions| - 1]), actions[|actions| - 1]);
    }
  }

  // ---------------------------------------------------------------- every run that is left alone returns

  /** Reading the supervisor's choice off the graph state or off its fields is the same. */
  lemma GraphPass(o: Oracles, d: Dict)
    ensures
      var d1 := GraphMerge(d, Supervise(o, d));
      Serialize(d1) == Supervised(o, Serialize(d)) && NextAgent(d1) == NextAgent(Serialize(d1))
  {
    SuperviseIgnoresMessages(o, d);
    CheckpointIsGraphState(d, Supervise(o, d));
  }

  /** How far the process is from returning: five for every agent run left, and its place in the current pass. */
  ghost function Distance(o: Oracles, p: Proc): nat {
    match p
    case AtSupervisor(d) => 5 * RunsLeft(Serialize(d)) + 4
    case AtAgent(a, d) => 5 * RunsLeft(Acted(o, a, Serialize(d))) + 7
    case SavingRedis(_, d) => 5 * RunsLeft(Serialize(d)) + 6
    case SavingPostgres(_, d, _) => 5 * RunsLeft(Serialize(d)) + 5
    case AtHitl(_) => 3
    case Finished(_) => 2
    case DeletingPostgres(_) => 1
    case Returned(_) => 0
    case Idle => 0
  }

  lemma SupervisorComesCloser(o: Oracles, d: Dict)
    requires o.Valid()
    ensures
      var d1 := GraphMerge(d, Supervise(o, d));
      NextAgent(d1).Run? ==> RunsLeft(Acted(o, NextAgent(d1).agent, Serialize(d1))) == RunsLeft(Serialize(d)) - 1
  {
    GraphPass(o, d);
    if NextPass(o, Serialize(d)).Some? {
      NextPassCounters(o, Serialize(d));
    }
  }

  lemma AgentKeepsRunsLeft(o: Oracles, a: Agent, d: Dict)
    ensures RunsLeft(Serialize(GraphMerge(d, o.agent(a, Serialize(d))))) == RunsLeft(Acted(o, a, Serialize(d)))
  {
    CheckpointIsGraphState(d, o.agent(a, Serialize(d)));
  }

  lemma SupervisorStepCloser(o: Oracles, s: System)
    requires o.Valid() && s.proc.AtSupervisor?
    ensures Distance(o, Take(o, s).proc) < Distance(o, s.proc) && !Take(o, s).proc.Idle?
  {
    SupervisorComesCloser(o, s.proc.state);
  }

  lemma AgentStepCloser(o: Oracles, s: System)
    requires s.proc.AtAgent?
    ensures Distance(o, Take(o, s).proc) < Distance(o, s.proc) && !Take(o, s).proc.Idle?
  {
    AgentKeepsRunsLeft(o, s.proc.agent, s.proc.state);
  }

  lemma TakeComesCloser(o: Oracles, s: System)
    requires o.Valid() && !s.proc.Idle? && !s.proc.Returned?
    ensures Distance(o, Take(o, s).proc) < Distance(o, s.proc) && !Take(o, s).proc.Idle?
  {
    if s.proc.AtSupervisor? {
      SupervisorStepCloser(o, s);
    } else if s.proc.AtAgent? {
      AgentStepCloser(o, s);
    }
  }

  /** The run left alone: steps until it returns. */
  ghost function Settle(o: Oracles, s: System): (r: System)
    requires o.Valid()
    ensures !s.proc.Idle? ==> r.proc.Returned?
    decreases Distance(o, s.proc)
  {
    if s.proc.Idle? || s.proc.Returned? then s
    else
      TakeComesCloser(o, s);
      Settle(o, Take(o, s))
  }

  lemma {:induction false} SettleKeepsTransparent(o: Oracles, request: Dict, s: System)
    requires o.Valid() && IsRequest(request) && Transparent(o, request, s)
    ensures Transparent(o, request, Settle(o, s))
    decreases Distance(o, s.proc)
  {
    if !s.proc.Idle? && !s.proc.Returned? {
      ActKeepsTransparent(o, request, s, Step);
      TakeComesCloser(o, s);
      SettleKeepsTransparent(o, request, Take(o, s));
    }
  }

  lemma RestartKeepsTransparent(o: Oracles, request: Dict, s: System, start: Action)
    requires o.Valid() && IsRequest(request) && Transparent(o, request, s) && start.Start?
    ensures Transparent(o, request, Restart(o, request, s, start))
  {
    ActKeepsTransparent(o, request, s, Crash);
    ActKeepsTransparent(o, request, Act(o, request, s, Crash), start);
  }

  /** The process dies wherever it stands and the task is started again. */
  function Restart(o: Oracles, request: Dict, s: System, start: Action): (r: System)
    requires start.Start?
    ensures !r.proc.Idle?
  {
    Act(o, request, Act(o, request, s, Crash), start)
  }

  /** After any history, restarting the task and leaving it alone returns the result of the uninterrupted run. */
  lemma ResumedRunReturns(o: Oracles, request: Dict, actions: seq<Action>, start: Action)
    requires o.Valid() && IsRequest(request) && start.Start?
    ensures
      var p := Settle(o, Restart(o, request, Play(o, request, actions), start)).proc;
      p.Returned? && Serialize(p.state) == Final(o, request)
  {
    CrashTransparency(o, request, actions);
    var s := Restart(o, request, Play(o, request, actions), start);
    RestartKeepsTransparent(o, request, Play(o, request, actions), start);
    SettleKeepsTransparent(o, request, s);
  }
}
