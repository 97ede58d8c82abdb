/** Every handler of main.py that is left alone answers its client once, with the id of the durable record. */
module Answers {
  import opened Idempotency
  import opened EventDelivery

  predicate Live(stage: Stage) {
    !stage.Done? && !stage.Crashed?
  }

  /** How many steps a handler may still take before it is done. */
  function StepsToAnswer(stage: Stage): nat {
    match stage
    case Arrived => 7
    case CacheMissed => 6
    case NoRow => 5
    case Inserted(_) => 4
    case Cached(_) => 3
    case Announced(_) => 2
    case Published(_) => 1
    case LostRace => 3
    case RowFound(_) => 2
    case Warmed(_) => 1
    case Done => 0
    case Crashed => 0
  }

  lemma AdvanceComesCloser(s: System, h: HandlerId, mint: TaskId)
    requires h in s.handlers && HandlerOk(s, h) && Live(s.handlers[h].stage)
    ensures
      var stage := Advance(s, h, mint).handlers[h].stage;
      !stage.Crashed? && StepsToAnswer(stage) < StepsToAnswer(s.handlers[h].stage)
  {}

  /** A step answers when it is the handler's last, and then with the id of the durable record. */
  lemma AdvanceAnswers(s: System, h: HandlerId, mint: TaskId)
    requires h in s.handlers && HandlerOk(s, h) && CacheOk(s) && Live(s.handlers[h].stage)
    ensures
      var t, k := Advance(s, h, mint), s.handlers[h].key;
      if t.handlers[h].stage.Done? then k in t.rows && t.replies == s.replies + [Reply(k, t.rows[k])]
      else t.replies == s.replies
  {}

  /** The handler has not yet passed the point at which it writes the cache. */
  predicate BeforeCaching(stage: Stage) {
    Live(stage) && !stage.Cached? && !stage.Announced? && !stage.Published? && !stage.Warmed?
  }

  /** The handler's key is cached, or will be. */
  predicate WillBeCached(s: System, h: HandlerId)
    requires h in s.handlers
  {
    s.handlers[h].key in s.cache || BeforeCaching(s.handlers[h].stage)
  }

  lemma AdvanceKeepsCaching(s: System, h: HandlerId, mint: TaskId)
    requires h in s.handlers && HandlerOk(s, h) && WillBeCached(s, h)
    ensures WillBeCached(Advance(s, h, mint), h)
  {}

  /** Handler `h` has answered: one reply more than in `before`, with its key and the id in the table. */
  ghost predicate Answered(before: seq<Reply>, t: System, h: HandlerId) {
    && h in t.handlers && t.handlers[h].stage.Done?
    && t.handlers[h].key in t.rows
    && t.replies == before + [Reply(t.handlers[h].key, t.rows[t.handlers[h].key])]
  }

  /** Only steps of handler `h`. */
  ghost predicate StepsOf(more: seq<Action>, h: HandlerId) {
    forall i :: 0 <= i < |more| ==> more[i].Step? && more[i].h == h
  }

  /** From any point of any run: a live handler left alone is done within seven steps, answers exactly once, and
    * leaves its key cached unless the cache had lost it. */
  lemma {:induction false} HandlerAnswers(actions: seq<Action>, h: HandlerId) returns (more: seq<Action>)
    requires h in Play(actions).handlers && Live(Play(actions).handlers[h].stage)
    ensures |more| <= StepsToAnswer(Play(actions).handlers[h].stage) <= 7 && StepsOf(more, h)
    ensures Answered(Play(actions).replies, Play(actions + more), h)
    ensures Play(actions + more).handlers[h].key == Play(actions).handlers[h].key
    ensures WillBeCached(Play(actions), h) ==> Play(actions).handlers[h].key in Play(actions + more).cache
    decreases StepsToAnswer(Play(actions).handlers[h].stage)
  {
    var s := Play(actions);
    EveryRunKeepsInv(actions);
    assert HandlerOk(s, h);
    var mint := FreshMint(s.minted);
    var a := Step(h, mint);
    var t := Advance(s, h, mint);
    var run := Extend(actions, s, a, t);
    AdvanceComesCloser(s, h, mint);
    AdvanceAnswers(s, h, mint);
    AdvanceMovesOne(s, h, mint);
    if WillBeCached(s, h) {
      AdvanceKeepsCaching(s, h, mint);
    }
    if t.handlers[h].stage.Done? {
      more := [a];
    } else {
      var rest := HandlerAnswers(run, h);
      more := [a] + rest;
      assert run + rest == actions + more;
    }
  }

  /** A cached key is answered in one step, without the database. */
  lemma CachedKeyAnswersAtOnce(s: System, h: HandlerId, mint: TaskId)
    requires h in s.handlers && s.handlers[h].stage.Arrived? && s.handlers[h].key in s.cache
    ensures
      var t, k := Advance(s, h, mint), s.handlers[h].key;
      t.handlers[h].stage.Done? && t.replies == s.replies + [Reply(k, s.cache[k])] &&
      t.rows == s.rows && t.cache == s.cache
  {}

  // ---------------------------------------------------------------- one reply per finished handler

  function Finished(s: System): set<HandlerId> {
    set h | h in s.handlers && s.handlers[h].stage.Done?
  }

  lemma AdvanceFinishes(s: System, h: HandlerId, mint: TaskId)
    requires h in s.handlers
    ensures Finished(Advance(s, h, mint)) == Finished(s) + if NextStage(s, h, mint).Done? then {h} else {}
  {
    AdvanceMovesOne(s, h, mint);
  }

  lemma OtherActionsFinishNothing(s: System, a: Action)
    requires Enabled(s, a) && !a.Step?
    ensures Finished(Act(s, a)) == Finished(s) && Act(s, a).replies == s.replies
  {}

  lemma IdleAdvance(s: System, h: HandlerId, mint: TaskId)
    requires h in s.handlers && !Live(s.handlers[h].stage)
    ensures Advance(s, h, mint).replies == s.replies && NextStage(s, h, mint) == s.handlers[h].stage
  {}

  lemma ActKeepsCount(s: System, a: Action)
    requires Inv(s) && |s.replies| == |Finished(s)|
    ensures |Act(s, a).replies| == |Finished(Act(s, a))|
  {
    if !Enabled(s, a) {
    } else if a.Step? {
      assert HandlerOk(s, a.h);
      AdvanceFinishes(s, a.h, a.mint);
      if Live(s.handlers[a.h].stage) {
        AdvanceAnswers(s, a.h, a.mint);
      } else {
        IdleAdvance(s, a.h, a.mint);
        assert Finished(Act(s, a)) == Finished(s);
      }
    } else {
      OtherActionsFinishNothing(s, a);
    }
  }

  /** After any interleaving there are exactly as many replies as finished handlers: no handler finishes without
    * answering, and none answers twice. */
  lemma {:induction false} OneReplyPerFinishedHandler(actions: seq<Action>)
    ensures |Play(actions).replies| == |Finished(Play(actions))|
  {
    if actions != [] {
      var front := actions[..|actions| - 1];
      OneReplyPerFinishedHandler(front);
      EveryRunKeepsInv(front);
      ActKeepsCount(Play(front), actions[|actions| - 1]);
    }
  }
}
