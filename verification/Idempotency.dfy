/** Request deduplication in main.py (`create_refund`): a Redis cache in front of a table with a unique key. */
module Idempotency {

  type Key = string
  type TaskId = nat
  type HandlerId = nat

  /** Where a handler stands; each constructor waits for one atomic step against Redis, the database or Kafka. */
  datatype Stage =
    | Arrived
    | CacheMissed
    | RowFound(tid: TaskId)              // warm the cache
    | Warmed(tid: TaskId)                // answer "duplicate"
    | NoRow                              // mint an id and insert
    | LostRace                           // the insert hit the unique key
    | Inserted(tid: TaskId)              // cache the id
    | Cached(tid: TaskId)                // write the task metadata
    | Announced(tid: TaskId)             // send the event
    | Published(tid: TaskId)             // answer "processing"
    | Done
    | Crashed

  datatype Handler = Handler(key: Key, stage: Stage)

  datatype Reply = Reply(key: Key, tid: TaskId)

  datatype System = System(
    rows: map<Key, TaskId>,              // IdempotencyRecord, unique on the key
    cache: map<Key, TaskId>,             // Redis
    handlers: map<HandlerId, Handler>,
    winner: map<Key, HandlerId>,         // history: the handler whose insert committed
    published: seq<(HandlerId, Reply)>,  // the events sent, with their senders
    replies: seq<Reply>,
    minted: set<TaskId>)

  /** A request arrives, a handler takes its next step (minting `mint` if it needs an id), a handler dies, or Redis
    * loses a key. */
  datatype Action =
    | Arrive(h: HandlerId, key: Key)
    | Step(h: HandlerId, mint: TaskId)
    | Crash(h: HandlerId)
    | Forget(key: Key)

  const EMPTY := System(map[], map[], map[], map[], [], [], {})

  /** uuid4 never repeats, and handler names are used once. */
  predicate Enabled(s: System, a: Action) {
    match a
    case Arrive(h, _) => h !in s.handlers
    case Step(h, mint) => h in s.handlers && mint !in s.minted
    case Crash(h) => h in s.handlers
    case Forget(_) => true
  }

  /** Where handler `h` stands after its next step. */
  function NextStage(s: System, h: HandlerId, mint: TaskId): Stage
    requires h in s.handlers
  {
    var k := s.handlers[h].key;
    match s.handlers[h].stage
    case Arrived => if k in s.cache then Done else CacheMissed
    case CacheMissed => if k in s.rows then RowFound(s.rows[k]) else NoRow
    case RowFound(tid) => Warmed(tid)
    case Warmed(_) => Done
    case NoRow => if k in s.rows then LostRace else Inserted(mint)
    case LostRace => if k in s.rows then RowFound(s.rows[k]) else Crashed
    case Inserted(tid) => Cached(tid)
    case Cached(tid) => Announced(tid)
    case Announced(tid) => Published(tid)
    case Published(_) => Done
    case Done => Done
    case Crashed => Crashed
  }

  /** What the next step of handler `h` does to the stores, the topic and the clients. */
  function Effect(s: System, h: HandlerId, mint: TaskId): System
    requires h in s.handlers
  {
    var k := s.handlers[h].key;
    match s.handlers[h].stage
    case Arrived => if k in s.cache then s.(replies := s.replies + [Reply(k, s.cache[k])]) else s
    case RowFound(tid) => s.(cache := s.cache[k := tid])
    case Warmed(tid) => s.(replies := s.replies + [Reply(k, tid)])
    case NoRow =>
      if k in s.rows then s.(minted := s.minted + {mint})
      else s.(rows := s.rows[k := mint], winner := s.winner[k := h], minted := s.minted + {mint})
    case Inserted(tid) => s.(cache := s.cache[k := tid])
    case Announced(tid) => s.(published := s.published + [(h, Reply(k, tid))])
    case Published(tid) => s.(replies := s.replies + [Reply(k, tid)])
    case _ => s
  }

  function At(s: System, h: HandlerId, stage: Stage): System
    requires h in s.handlers
  {
    s.(handlers := s.handlers[h := Handler(s.handlers[h].key, stage)])
  }

  function Advance(s: System, h: HandlerId, mint: TaskId): System
    requires h in s.handlers
  {
    Effect(s, h, mint).(handlers := At(s, h, NextStage(s, h, mint)).handlers)
  }

  /** The next step of `h` inserts a new key. */
  predicate Inserts(s: System, h: HandlerId)
    requires h in s.handlers
  {
    s.handlers[h].stage.NoRow? && s.handlers[h].key !in s.rows
  }

  function Act(s: System, a: Action): System {
    if !Enabled(s, a) then s
    else
      match a
      case Arrive(h, k) => s.(handlers := s.handlers[h := Handler(k, Arrived)])
      case Step(h, mint) => Advance(s, h, mint)
      case Crash(h) => if s.handlers[h].stage.Done? then s else At(s, h, Crashed)
      case Forget(k) => s.(cache := s.cache - {k})
  }

  /** The system after any interleaving of handlers, crashes and cache losses. */
  function Play(actions: seq<Action>): System {
    if actions == [] then EMPTY else Act(Play(actions[..|actions| - 1]), actions[|actions| - 1])
  }

  // ---------------------------------------------------------------- the invariant

  /** A handler that has won the insert and not yet sent its event. */
  predicate Unsent(stage: Stage) {
    stage.Inserted? || stage.Cached? || stage.Announced?
  }

  ghost predicate HandlerOk(s: System, h: HandlerId)
    requires h in s.handlers
  {
    var k, stage := s.handlers[h].key, s.handlers[h].stage;
    && (stage.RowFound? || stage.Warmed? || stage.Published? || Unsent(stage) ==> k in s.rows && s.rows[k] == stage.tid)
    && (stage.LostRace? ==> k in s.rows)
    && (Unsent(stage) ==>
          && k in s.winner && s.winner[k] == h
          && forall i :: 0 <= i < |s.published| ==> s.published[i].0 != h)
  }

  ghost predicate RowsOk(s: System) {
    && s.winner.Keys == s.rows.Keys
    && (forall k :: k in s.rows ==> s.rows[k] in s.minted)
    && (forall k, l :: k in s.rows && l in s.rows && k != l ==> s.rows[k] != s.rows[l])
    && (forall k :: k in s.winner ==> s.winner[k] in s.handlers)
  }

  /** Every cached id equals the durable record. */
  ghost predicate CacheOk(s: System) {
    forall k :: k in s.cache ==> k in s.rows && s.cache[k] == s.rows[k]
  }

  ghost predicate RepliesOk(s: System) {
    forall r :: r in s.replies ==> r.key in s.rows && s.rows[r.key] == r.tid
  }

  ghost predicate PublishedOk(s: System) {
    && (forall i :: 0 <= i < |s.published| ==> SentByWinner(s, s.published[i].0, s.published[i].1))
    && (forall i, j :: 0 <= i < j < |s.published| ==> s.published[i].0 != s.published[j].0)
  }

  /** The event carries the id of the durable record and comes from the handler that inserted it. */
  ghost predicate SentByWinner(s: System, h: HandlerId, r: Reply) {
    && h in s.handlers && s.handlers[h].key == r.key && !Unsent(s.handlers[h].stage)
    && r.key in s.rows && s.rows[r.key] == r.tid
    && r.key in s.winner && s.winner[r.key] == h
  }

  ghost predicate Inv(s: System) {
    && (forall h {:trigger HandlerOk(s, h)} :: h in s.handlers ==> HandlerOk(s, h))
    && RowsOk(s) && CacheOk(s) && RepliesOk(s) && PublishedOk(s)
  }

  // ---------------------------------------------------------------- one step keeps it

  ghost predicate Grows<V(!new)>(m: map<Key, V>, n: map<Key, V>) {
    forall k :: k in m ==> k in n && n[k] == m[k]
  }

  /** Only the stage of handler `h` differs between the two handler tables. */
  ghost predicate OnlyStageOf(s: System, t: System, h: HandlerId) {
    && t.handlers.Keys == s.handlers.Keys
    && (forall g :: g in s.handlers && g != h ==> t.handlers[g] == s.handlers[g])
    && (h in s.handlers ==> t.handlers[h].key == s.handlers[h].key)
  }

  lemma AdvanceMovesOne(s: System, h: HandlerId, mint: TaskId)
    requires h in s.handlers
    ensures OnlyStageOf(s, Advance(s, h, mint), h)
  {}

  lemma AdvanceWithoutInsert(s: System, h: HandlerId, mint: TaskId)
    requires h in s.handlers && !Inserts(s, h)
    ensures
      var t := Advance(s, h, mint);
      t.rows == s.rows && t.winner == s.winner && s.minted <= t.minted
      && (Unsent(t.handlers[h].stage) ==> Unsent(s.handlers[h].stage))
  {}

  lemma AdvanceSends(s: System, h: HandlerId, mint: TaskId)
    requires h in s.handlers
    ensures
      var t := Advance(s, h, mint);
      var stage := s.handlers[h].stage;
      if stage.Announced? then
        && t.published == s.published + [(h, Reply(s.handlers[h].key, stage.tid))]
        && t.handlers[h].stage == Published(stage.tid)
      else t.published == s.published
  {}

  lemma RowsStayOk(s: System, t: System, h: HandlerId)
    requires RowsOk(s) && OnlyStageOf(s, t, h)
    requires t.rows == s.rows && t.winner == s.winner && s.minted <= t.minted
    ensures RowsOk(t)
  {}

  lemma InsertKeepsRows(s: System, h: HandlerId, mint: TaskId)
    requires RowsOk(s) && h in s.handlers && mint !in s.minted && Inserts(s, h)
    ensures RowsOk(Advance(s, h, mint))
    ensures Grows(s.rows, Advance(s, h, mint).rows) && Grows(s.winner, Advance(s, h, mint).winner)
  {}

  lemma OthersStayOk(s: System, t: System, h: HandlerId, g: HandlerId)
    requires g in s.handlers && g != h && HandlerOk(s, g) && OnlyStageOf(s, t, h)
    requires Grows(s.rows, t.rows) && Grows(s.winner, t.winner)
    requires forall i :: 0 <= i < |t.published| ==> t.published[i].0 == h || t.published[i] in s.published
    ensures HandlerOk(t, g)
  {}

  /** Whoever has sent an event has a row for its key. */
  lemma NothingSentWithoutRow(s: System, h: HandlerId)
    requires h in s.handlers && PublishedOk(s) && s.handlers[h].key !in s.rows
    ensures forall i :: 0 <= i < |s.published| ==> s.published[i].0 != h
  {
    forall i | 0 <= i < |s.published|
      ensures s.published[i].0 != h
    {
      assert SentByWinner(s, s.published[i].0, s.published[i].1);
    }
  }

  lemma InsertIsOk(s: System, h: HandlerId, mint: TaskId)
    requires h in s.handlers && PublishedOk(s) && Inserts(s, h)
    ensures HandlerOk(Advance(s, h, mint), h)
  {
    NothingSentWithoutRow(s, h);
  }

  lemma SelfStaysOk(s: System, h: HandlerId, mint: TaskId)
    requires h in s.handlers && HandlerOk(s, h) && !Inserts(s, h)
    ensures HandlerOk(Advance(s, h, mint), h)
  {
    AdvanceSends(s, h, mint);
    AdvanceWithoutInsert(s, h, mint);
  }

  lemma AdvanceKeepsCache(s: System, h: HandlerId, mint: TaskId)
    requires CacheOk(s) && h in s.handlers && HandlerOk(s, h)
    ensures CacheOk(Advance(s, h, mint))
  {}

  lemma AdvanceKeepsReplies(s: System, h: HandlerId, mint: TaskId)
    requires RepliesOk(s) && CacheOk(s) && h in s.handlers && HandlerOk(s, h)
    ensures RepliesOk(Advance(s, h, mint))
  {}

  lemma StillSent(s: System, t: System, h: HandlerId, g: HandlerId, r: Reply)
    requires SentByWinner(s, g, r) && OnlyStageOf(s, t, h) && h in s.handlers
    requires Grows(s.rows, t.rows) && Grows(s.winner, t.winner)
    requires Unsent(t.handlers[h].stage) ==> Unsent(s.handlers[h].stage) || s.handlers[h].key !in s.rows
    ensures SentByWinner(t, g, r)
  {}

  lemma PublishedStaysOk(s: System, t: System, h: HandlerId)
    requires PublishedOk(s) && OnlyStageOf(s, t, h) && h in s.handlers && HandlerOk(s, h)
    requires Grows(s.rows, t.rows) && Grows(s.winner, t.winner)
    requires Unsent(t.handlers[h].stage) ==> Unsent(s.handlers[h].stage) || s.handlers[h].key !in s.rows
    requires
      var stage := s.handlers[h].stage;
      if stage.Announced? then
        && t.published == s.published + [(h, Reply(s.handlers[h].key, stage.tid))]
        && t.handlers[h].stage == Published(stage.tid)
      else t.published == s.published
    ensures PublishedOk(t)
  {
    forall i | 0 <= i < |s.published|
      ensures SentByWinner(t, s.published[i].0, s.published[i].1)
    {
      StillSent(s, t, h, s.published[i].0, s.published[i].1);
    }
    if s.handlers[h].stage.Announced? {
      assert SentByWinner(t, h, Reply(s.handlers[h].key, s.handlers[h].stage.tid));
    }
  }

  lemma AdvanceKeepsInv(s: System, h: HandlerId, mint: TaskId)
    requires Inv(s) && h in s.handlers && mint !in s.minted
    ensures Inv(Advance(s, h, mint))
  {
    var t := Advance(s, h, mint);
    assert HandlerOk(s, h);
    AdvanceMovesOne(s, h, mint);
    AdvanceSends(s, h, mint);
    if Inserts(s, h) {
      InsertKeepsRows(s, h, mint);
      InsertIsOk(s, h, mint);
    } else {
      AdvanceWithoutInsert(s, h, mint);
      RowsStayOk(s, t, h);
      SelfStaysOk(s, h, mint);
    }
    forall g | g in s.handlers && g != h
      ensures HandlerOk(t, g)
    {
      assert HandlerOk(s, g);
      OthersStayOk(s, t, h, g);
    }
    AdvanceKeepsCache(s, h, mint);
    AdvanceKeepsReplies(s, h, mint);
    PublishedStaysOk(s, t, h);
  }

  lemma ActKeepsInv(s: System, a: Action)
    requires Inv(s)
    ensures Inv(Act(s, a))
  {
    if Enabled(s, a) {
      match a
      case Step(h, mint) =>
        AdvanceKeepsInv(s, h, mint);
      case _ => OtherActionsKeepInv(s, a);
    }
  }

  lemma OtherActionsKeepInv(s: System, a: Action)
    requires Inv(s) && Enabled(s, a) && !a.Step?
    ensures Inv(Act(s, a))
  {
    var t := Act(s, a);
    forall g | g in t.handlers
      ensures HandlerOk(t, g)
    {
      assert g in s.handlers ==> HandlerOk(s, g);
    }
    forall i | 0 <= i < |s.published|
      ensures SentByWinner(t, s.published[i].0, s.published[i].1)
    {
      assert SentByWinner(s, s.published[i].0, s.published[i].1);
    }
  }

  lemma {:induction false} EveryRunKeepsInv(actions: seq<Action>)
    ensures Inv(Play(actions))
  {
    if actions != [] {
      EveryRunKeepsInv(actions[..|actions| - 1]);
      ActKeepsInv(Play(actions[..|actions| - 1]), actions[|actions| - 1]);
    }
  }

  // ---------------------------------------------------------------- what every interleaving guarantees

  /** All replies for a key carry one id, the one of the durable record, which no other key has; so does every
    * cached id. */
  lemma OneIdPerKey(actions: seq<Action>)
    ensures
      var s := Play(actions);
      && (forall r, q :: r in s.replies && q in s.replies ==> (r.key == q.key <==> r.tid == q.tid))
      && (forall r :: r in s.replies ==> r.key in s.rows && s.rows[r.key] == r.tid)
      && (forall k :: k in s.cache ==> k in s.rows && s.cache[k] == s.rows[k])
  {
    EveryRunKeepsInv(actions);
  }

  /** At most one event is ever sent for a key, and it carries the id that the replies carry. */
  lemma AtMostOneEventPerKey(actions: seq<Action>)
    ensures
      var p := Play(actions).published;
      && (forall i, j :: 0 <= i < j < |p| ==> p[i].1.key != p[j].1.key)
      && (forall i, r :: 0 <= i < |p| && r in Play(actions).replies && r.key == p[i].1.key ==> r.tid == p[i].1.tid)
  {
    EveryRunKeepsInv(actions);
    var s := Play(actions);
    forall i | 0 <= i < |s.published|
      ensures SentByWinner(s, s.published[i].0, s.published[i].1)
    {}
  }

  /** The durable id of a key never changes. */
  lemma {:induction false} RowsAreFinal(actions: seq<Action>, more: seq<Action>, k: Key)
    requires k in Play(actions).rows
    ensures k in Play(actions + more).rows && Play(actions + more).rows[k] == Play(actions).rows[k]
  {
    if more == [] {
      assert actions + more == actions;
    } else {
      var front := more[..|more| - 1];
      RowsAreFinal(actions, front, k);
      PlayLast(actions, more);
      ActKeepsRow(Play(actions + front), more[|more| - 1], k);
    }
  }

  lemma PlayLast(actions: seq<Action>, more: seq<Action>)
    requires more != []
    ensures Play(actions + more) == Act(Play(actions + more[..|more| - 1]), more[|more| - 1])
  {
    assert (actions + more)[..|actions + more| - 1] == actions + more[..|more| - 1];
  }

  lemma ActKeepsRow(s: System, a: Action, k: Key)
    requires k in s.rows
    ensures k in Act(s, a).rows && Act(s, a).rows[k] == s.rows[k]
  {}

  /** The handler that inserted the key died before it sent the event. */
  ghost predicate Abandoned(s: System, k: Key) {
    && k in s.winner && s.winner[k] in s.handlers && s.handlers[s.winner[k]].stage.Crashed?
    && NoEventFor(s, k)
  }

  ghost predicate NoEventFor(s: System, k: Key) {
    forall i :: 0 <= i < |s.published| ==> s.published[i].1.key != k
  }

  lemma StaysAbandoned(s: System, a: Action, k: Key)
    requires Inv(s) && Abandoned(s, k)
    ensures Abandoned(Act(s, a), k)
  {
    if Enabled(s, a) && a.Step? {
      var h := a.h;
      assert HandlerOk(s, h);
      AdvanceMovesOne(s, h, a.mint);
      AdvanceSends(s, h, a.mint);
      if Inserts(s, h) {
        InsertKeepsRows(s, h, a.mint);
      } else {
        AdvanceWithoutInsert(s, h, a.mint);
      }
    }
  }

  /** A crash between the insert and the event loses the event: no later request for the key ever sends one. */
  lemma {:induction false} AbandonedKeyIsNeverSent(actions: seq<Action>, more: seq<Action>, k: Key)
    requires Abandoned(Play(actions), k)
    ensures Abandoned(Play(actions + more), k) && NoEventFor(Play(actions + more), k)
  {
    if more == [] {
      assert actions + more == actions;
    } else {
      var front := more[..|more| - 1];
      AbandonedKeyIsNeverSent(actions, front, k);
      PlayLast(actions, more);
      EveryRunKeepsInv(actions + front);
      StaysAbandoned(Play(actions + front), more[|more| - 1], k);
    }
  }
}
