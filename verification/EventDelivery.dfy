/** Which of the keys that main.py accepts get their event, and how one loses it. */
module EventDelivery {
  import opened Idempotency

  /** The event of the key exists, or its inserter is still about to send it, or died before. */
  ghost predicate WinnerOk(s: System, k: Key)
    requires k in s.winner && s.winner[k] in s.handlers
  {
    var h := s.handlers[s.winner[k]];
    h.key == k && (Unsent(h.stage) || h.stage.Crashed? || !NoEventFor(s, k))
  }

  ghost predicate WinnersOk(s: System) {
    forall k {:trigger s.winner[k]} :: k in s.winner ==> s.winner[k] in s.handlers && WinnerOk(s, k)
  }

  lemma EventsStay(s: System, a: Action, k: Key)
    requires !NoEventFor(s, k)
    ensures !NoEventFor(Act(s, a), k)
  {
    var i :| 0 <= i < |s.published| && s.published[i].1.key == k;
    assert Act(s, a).published[i] == s.published[i];
  }

  lemma SendingIsAnEvent(s: System, h: HandlerId, mint: TaskId)
    requires h in s.handlers && s.handlers[h].stage.Announced?
    ensures !NoEventFor(Advance(s, h, mint), s.handlers[h].key)
  {
    AdvanceSends(s, h, mint);
    assert Advance(s, h, mint).published[|s.published|].1.key == s.handlers[h].key;
  }

  /** The winner of an old key after a step. */
  lemma WinnerStaysOk(s: System, a: Action, k: Key)
    requires Inv(s) && WinnersOk(s) && k in s.winner && Enabled(s, a)
    ensures
      var t := Act(s, a);
      k in t.winner && t.winner[k] == s.winner[k] && t.winner[k] in t.handlers && WinnerOk(t, k)
  {
    var h := s.winner[k];
    assert h in s.handlers && WinnerOk(s, k);
    WinnerIsKept(s, a, k);
    if !NoEventFor(s, k) {
      EventsStay(s, a, k);
    } else if a.Step? && a.h == h && s.handlers[h].stage.Announced? {
      SendingIsAnEvent(s, h, a.mint);
    } else {
      UnsentUntilSending(s, a, h);
    }
  }

  lemma WinnerIsKept(s: System, a: Action, k: Key)
    requires RowsOk(s) && k in s.winner && Enabled(s, a)
    ensures
      var t := Act(s, a);
      && k in t.winner && t.winner[k] == s.winner[k] && s.winner[k] in s.handlers
      && t.winner[k] in t.handlers && t.handlers[t.winner[k]].key == s.handlers[s.winner[k]].key
  {}

  lemma UnsentUntilSending(s: System, a: Action, h: HandlerId)
    requires h in s.handlers && (Unsent(s.handlers[h].stage) || s.handlers[h].stage.Crashed?) && Enabled(s, a)
    requires !(a.Step? && a.h == h && s.handlers[h].stage.Announced?)
    ensures
      var t := Act(s, a);
      h in t.handlers && (Unsent(t.handlers[h].stage) || t.handlers[h].stage.Crashed?)
  {}

  lemma ActKeepsWinners(s: System, a: Action)
    requires Inv(s) && WinnersOk(s)
    ensures WinnersOk(Act(s, a))
  {
    if Enabled(s, a) {
      var t := Act(s, a);
      forall k | k in t.winner
        ensures t.winner[k] in t.handlers && WinnerOk(t, k)
      {
        if k in s.winner {
          WinnerStaysOk(s, a, k);
        }
      }
    }
  }

  lemma {:induction false} WinnersInEveryRun(actions: seq<Action>)
    ensures WinnersOk(Play(actions))
  {
    if actions != [] {
      var front := actions[..|actions| - 1];
      WinnersInEveryRun(front);
      EveryRunKeepsInv(front);
      ActKeepsWinners(Play(front), actions[|actions| - 1]);
    }
  }

  /** For every accepted key: there is no event if and only if its inserter is still about to send it or died before
    * sending. */
  lemma NoEventIff(actions: seq<Action>, k: Key)
    requires k in Play(actions).rows
    ensures
      var s := Play(actions);
      && k in s.winner && s.winner[k] in s.handlers
      && (NoEventFor(s, k) <==> Unsent(s.handlers[s.winner[k]].stage) || Abandoned(s, k))
  {
    EveryRunKeepsInv(actions);
    WinnersInEveryRun(actions);
    var s := Play(actions);
    assert k in s.winner && s.winner[k] in s.handlers && WinnerOk(s, k);
    var h := s.winner[k];
    assert HandlerOk(s, h);
    forall i | 0 <= i < |s.published| && s.published[i].1.key == k
      ensures s.published[i].0 == h
    {
      assert SentByWinner(s, s.published[i].0, s.published[i].1);
    }
  }

  lemma {:induction false} FreshMint(minted: set<TaskId>) returns (mint: TaskId)
    ensures forall m :: m in minted ==> m < mint
  {
    if minted == {} {
      mint := 0;
    } else {
      var m :| m in minted;
      var rest := FreshMint(minted - {m});
      mint := if m < rest then rest else m + 1;
      forall x | x in minted
        ensures x < mint
      {
        assert x == m || x in minted - {m};
      }
    }
  }

  /** How many steps an unsent handler is away from sending its event. */
  function StepsToSend(stage: Stage): nat {
    match stage
    case Inserted(_) => 3
    case Cached(_) => 2
    case Announced(_) => 1
    case _ => 0
  }

  /** Left alone, a handler that has inserted its key sends the event in at most three steps. */
  lemma {:induction false} UnsentSends(actions: seq<Action>, h: HandlerId) returns (more: seq<Action>)
    requires h in Play(actions).handlers && Unsent(Play(actions).handlers[h].stage)
    ensures |more| <= 3 && !NoEventFor(Play(actions + more), Play(actions).handlers[h].key)
    ensures |more| == StepsToSend(Play(actions).handlers[h].stage)
    decreases StepsToSend(Play(actions).handlers[h].stage)
  {
    var s := Play(actions);
    var mint := FreshMint(s.minted);
    var a := Step(h, mint);
    assert (actions + [a])[..|actions|] == actions;
    assert Play(actions + [a]) == Advance(s, h, mint);
    if s.handlers[h].stage.Announced? {
      SendingIsAnEvent(s, h, mint);
      more := [a];
    } else {
      var rest := UnsentSends(actions + [a], h);
      more := [a] + rest;
      assert actions + [a] + rest == actions + more;
    }
  }

  ghost predicate SentAfter(actions: seq<Action>, more: seq<Action>, k: Key) {
    !NoEventFor(Play(actions + more), k)
  }

  ghost predicate EventPossible(actions: seq<Action>, k: Key) {
    exists more :: SentAfter(actions, more, k)
  }

  /** An accepted key has its event now or in some continuation if and only if its inserter did not die before
    * sending. */
  lemma EventPossibleIffNotAbandoned(actions: seq<Action>, k: Key)
    requires k in Play(actions).rows
    ensures EventPossible(actions, k) <==> !Abandoned(Play(actions), k)
  {
    NoEventIff(actions, k);
    var s := Play(actions);
    if Abandoned(s, k) {
      forall more
        ensures !SentAfter(actions, more, k)
      {
        AbandonedKeyIsNeverSent(actions, more, k);
      }
    } else if NoEventFor(s, k) {
      WinnersInEveryRun(actions);
      assert WinnerOk(s, k);
      var more := UnsentSends(actions, s.winner[k]);
      assert SentAfter(actions, more, k);
    } else {
      assert actions + [] == actions;
      assert SentAfter(actions, [], k);
    }
  }

  /** A known run goes on with action `a`. */
  lemma Extend(run: seq<Action>, s: System, a: Action, t: System) returns (longer: seq<Action>)
    requires Play(run) == s && Act(s, a) == t
    ensures longer == run + [a] && Play(longer) == t
  {
    longer := run + [a];
    assert longer[..|run|] == run;
  }

  const INSERT: seq<Action> := [Arrive(0, "k"), Step(0, 7), Step(0, 7), Step(0, 7)]

  const CACHE_THEN_CRASH: seq<Action> := [Step(0, 8), Crash(0)]

  /** The system with one handler and its row. */
  function OneRow(stage: Stage): System {
    EMPTY.(rows := map["k" := 7], handlers := map[0 := Handler("k", stage)], winner := map["k" := 0], minted := {7})
  }

  lemma OneInsert()
    ensures Play(INSERT) == OneRow(Inserted(7))
  {
    var s1 := EMPTY.(handlers := map[0 := Handler("k", Arrived)]);
    var s2 := EMPTY.(handlers := map[0 := Handler("k", CacheMissed)]);
    var s3 := EMPTY.(handlers := map[0 := Handler("k", NoRow)]);
    var run := Extend([], EMPTY, Arrive(0, "k"), s1);
    run := Extend(run, s1, Step(0, 7), s2);
    run := Extend(run, s2, Step(0, 7), s3);
    run := Extend(run, s3, Step(0, 7), OneRow(Inserted(7)));
    assert run == INSERT;
  }

  /** A run that loses its event: the handler dies after it has cached the id of its committed row. */
  lemma CrashAbandonsKey()
    ensures
      var s := Play(INSERT + CACHE_THEN_CRASH);
      "k" in s.rows && "k" in s.cache && Abandoned(s, "k")
  {
    OneInsert();
    var s1 := OneRow(Cached(7)).(cache := map["k" := 7]);
    var run := Extend(INSERT, OneRow(Inserted(7)), Step(0, 8), s1);
    run := Extend(run, s1, Crash(0), OneRow(Crashed).(cache := map["k" := 7]));
    assert run == INSERT + CACHE_THEN_CRASH;
  }
}
