/** The ReAct loop of agents/react_loop.py: trim every LLM turn to its first wave, run it, append the replies. */
module ReactLoop {
  import opened Dependencies
  import opened Waves
  import WaveTheory

  datatype Message =
    | Prompt(content: string)
    | AI(content: string, calls: seq<Call>)
    | ToolReply(callId: string, name: string, content: string)

  /** What one attempt to reach an LLM yields: a response, a refusal of the resilience layer, or another exception. */
  datatype LlmOutcome = Response(content: string, calls: seq<Call>) | Refused | Failed

  datatype Outcome = Answer(content: string) | LlmError(outcome: LlmOutcome) | MaxIterations

  /** Everything the loop does not decide itself. */
  datatype Environment = Environment(
    llm: nat -> LlmOutcome,                                          // primary model, by iteration
    useFallback: bool,
    chain: nat -> LlmOutcome,                                        // fallback chain, by iteration
    tools: set<string>,
    tool: (nat, Call, map<string, string>) -> ToolOutcome,           // by iteration, call and resolved arguments
    parses: string -> bool,                                          // is the text a JSON document other than null?
    errorJson: string -> string)
  {
    /** The response the loop works with: the fallback chain only answers for ordinary failures. */
    function Effective(iteration: nat): LlmOutcome {
      if llm(iteration).Failed? && useFallback && tools != {} then chain(iteration) else llm(iteration)
    }
  }

  // ---------------------------------------------------------------- tool arguments

  /** The content of the latest non-empty check_eligibility reply. */
  function LatestEligibility(messages: seq<Message>): seq<string> {
    if messages == [] then []
    else
      var m := messages[|messages| - 1];
      if IsEligibilityReply(m) then [m.content] else LatestEligibility(messages[..|messages| - 1])
  }

  predicate IsEligibilityReply(m: Message) {
    m.ToolReply? && m.name == "check_eligibility" && m.content != ""
  }

  predicate HasEligibility(env: Environment, args: map<string, string>) {
    "eligibility_result" in args && args["eligibility_result"] != "" && env.parses(args["eligibility_result"])
  }

  function ResolvedArgs(env: Environment, call: Call, messages: seq<Message>): map<string, string> {
    var found := LatestEligibility(messages);
    if call.name != "calculate_refund" || HasEligibility(env, call.args) || found == [] then call.args
    else call.args["eligibility_result" := found[0]]
  }

  method ResolveToolArgs(env: Environment, call: Call, messages: seq<Message>) returns (args: map<string, string>)
    ensures args == ResolvedArgs(env, call, messages)
  {
    args := call.args;
    if call.name != "calculate_refund" {
      return;
    }
    if HasEligibility(env, args) {
      return;
    }
    var k := |messages|;
    assert messages[..k] == messages;
    while k > 0
      invariant 0 <= k <= |messages|
      invariant args == call.args
      invariant LatestEligibility(messages) == LatestEligibility(messages[..k])
    {
      k := k - 1;
      assert messages[..k + 1][..k] == messages[..k];
      if IsEligibilityReply(messages[k]) {
        args := args["eligibility_result" := messages[k].content];
        break;
      }
    }
  }

  /** The forwarded eligibility text is the content of a check_eligibility reply with no later one after it. */
  lemma {:induction false} LatestEligibilityIsLatest(messages: seq<Message>)
    ensures LatestEligibility(messages) == [] <==> forall m :: m in messages ==> !IsEligibilityReply(m)
    ensures LatestEligibility(messages) != [] ==>
      exists k :: 0 <= k < |messages| && IsEligibilityReply(messages[k])
        && LatestEligibility(messages) == [messages[k].content]
        && forall j :: k < j < |messages| ==> !IsEligibilityReply(messages[j])
  {
    if messages != [] {
      var front := messages[..|messages| - 1];
      LatestEligibilityIsLatest(front);
      assert messages == front + [messages[|messages| - 1]];
    }
  }

  function ToolText(env: Environment, iteration: nat, call: Call, messages: seq<Message>): string {
    if call.name !in env.tools then env.errorJson("Unknown tool: " + call.name)
    else
      match env.tool(iteration, call, ResolvedArgs(env, call, messages))
      case Returned(text) => text
      case Raised(error) => env.errorJson(error)
  }

  method CallTool(env: Environment, iteration: nat, call: Call, messages: seq<Message>) returns (text: string)
    ensures text == ToolText(env, iteration, call, messages)
  {
    if call.name !in env.tools {
      return env.errorJson("Unknown tool: " + call.name);
    }
    var args := ResolveToolArgs(env, call, messages);
    match env.tool(iteration, call, args)
    case Returned(t) => text := t;
    case Raised(error) => text := env.errorJson(error);
  }

  // ---------------------------------------------------------------- turns

  /** One completed turn: the model's batch, the positions kept, and the texts the kept calls returned. */
  datatype Turn = Turn(content: string, calls: seq<Call>, wave: seq<nat>, texts: seq<string>) {
    ghost predicate Valid(deps: Deps) {
      && calls != []
      && IsWave(calls, deps, {}, wave)
      && InRange(calls, wave)
      && |texts| == |wave|
    }

    ghost function Head(): Message
      requires InRange(calls, wave)
    {
      AI(content, Kept(calls, wave))
    }

    ghost function Messages(): seq<Message>
      requires |texts| == |wave| && InRange(calls, wave)
    {
      [Head()] + Replies(Kept(calls, wave), texts)
    }
  }

  function Replies(calls: seq<Call>, texts: seq<string>): seq<Message>
    requires |texts| == |calls|
  {
    seq(|calls|, k requires 0 <= k < |calls| => ToolReply(calls[k].id, calls[k].name, texts[k]))
  }

  ghost predicate AllValid(deps: Deps, turns: seq<Turn>) {
    turns == [] || (AllValid(deps, turns[..|turns| - 1]) && turns[|turns| - 1].Valid(deps))
  }

  ghost function Flatten(deps: Deps, turns: seq<Turn>): seq<Message>
    requires AllValid(deps, turns)
  {
    if turns == [] then []
    else
      var last := turns[|turns| - 1];
      Flatten(deps, turns[..|turns| - 1]) + last.Messages()
  }

  /** Turn `k` is what the oracles dictate after the transcript `before`. */
  ghost predicate Follows(env: Environment, deps: Deps, k: nat, before: seq<Message>, t: Turn) {
    && t.Valid(deps)
    && env.Effective(k) == Response(t.content, t.calls)
    && forall j :: 0 <= j < |t.wave| ==> t.texts[j] == ToolText(env, k, t.calls[t.wave[j]], before + [t.Head()])
  }

  lemma FlattenAppend(deps: Deps, turns: seq<Turn>, t: Turn)
    requires AllValid(deps, turns) && t.Valid(deps)
    ensures AllValid(deps, turns + [t])
    ensures Flatten(deps, turns + [t]) == Flatten(deps, turns) + t.Messages()
  {
    assert (turns + [t])[..|turns|] == turns;
  }

  lemma {:induction false} FullWaveKeepsAll(calls: seq<Call>, deps: Deps, wave: seq<nat>)
    requires IsWave(calls, deps, {}, wave) && |wave| >= |calls|
    ensures InRange(calls, wave) && Kept(calls, wave) == calls
  {
    forall k | 0 <= k < |wave|
      ensures wave[k] < |calls|
    {
      assert wave[k] in wave;
    }
    AscendingBounds(calls, wave);
  }

  // ---------------------------------------------------------------- the loop

  class Transcript {
    var messages: seq<Message>

    /** Run the kept calls against the transcript as it stands, then append one reply per call. */
    method ExecuteWave(env: Environment, iteration: nat, kept: seq<Call>) returns (texts: seq<string>)
      modifies this
      ensures |texts| == |kept| && messages == old(messages) + Replies(kept, texts)
      ensures forall j :: 0 <= j < |texts| ==> texts[j] == ToolText(env, iteration, kept[j], old(messages))
    {
      texts := [];
      while |texts| < |kept|
        invariant |texts| <= |kept| && messages == old(messages)
        invariant forall j :: 0 <= j < |texts| ==> texts[j] == ToolText(env, iteration, kept[j], old(messages))
      {
        var text := CallTool(env, iteration, kept[|texts|], messages);
        texts := texts + [text];
      }
      for j := 0 to |kept|
        invariant messages == old(messages) + Replies(kept, texts)[..j]
      {
        messages := messages + [ToolReply(kept[j].id, kept[j].name, texts[j])];
      }
    }

    /** Append the response and, when it holds calls of later waves, replace it by a message with the first wave
      * only. */
    method AppendTrimmed(deps: Deps, content: string, calls: seq<Call>) returns (firstWave: seq<nat>)
      requires calls != []
      modifies this
      ensures IsWave(calls, deps, {}, firstWave) && InRange(calls, firstWave)
      ensures messages == old(messages) + [AI(content, Kept(calls, firstWave))]
    {
      messages := messages + [AI(content, calls)];
      var waves := ExecutionWaves(calls, deps);
      FirstWave(calls, deps, waves);
      firstWave := waves[0];
      if |firstWave| < |calls| {
        messages := messages[|messages| - 1 := AI(content, Kept(calls, firstWave))];
      } else {
        FullWaveKeepsAll(calls, deps, firstWave);
      }
    }

    method RunTurn(env: Environment, deps: Deps, iteration: nat, content: string, calls: seq<Call>)
      returns (ghost turn: Turn)
      requires calls != [] && env.Effective(iteration) == Response(content, calls)
      modifies this
      ensures turn.Valid(deps) && Follows(env, deps, iteration, old(messages), turn)
      ensures messages == old(messages) + turn.Messages()
    {
      var firstWave := AppendTrimmed(deps, content, calls);
      var kept := Kept(calls, firstWave);
      var texts := ExecuteWave(env, iteration, kept);
      turn := Turn(content, calls, firstWave, texts);
    }

    /** Refusals of the resilience layer pass through; other failures go to the fallback chain if there is one. */
    method Ask(env: Environment, iteration: nat) returns (response: LlmOutcome)
      ensures response == env.Effective(iteration)
      ensures env.llm(iteration).Refused? ==> response.Refused?
      ensures response != env.llm(iteration) ==> env.llm(iteration).Failed? && env.useFallback && env.tools != {}
      ensures response.Failed? ==> env.llm(iteration).Failed?
    {
      response := env.llm(iteration);
      if response.Failed? && env.useFallback && env.tools != {} {
        response := env.chain(iteration);
      }
    }

    method Run(env: Environment, deps: Deps, maxIterations: nat) returns (outcome: Outcome, ghost turns: seq<Turn>)
      modifies this
      ensures |turns| <= maxIterations && History(env, deps, old(messages), turns)
      ensures messages == old(messages) + Flatten(deps, turns) + Final(outcome)
      ensures EndsAs(env, maxIterations, |turns|, outcome)
    {
      ghost var start := messages;
      turns := [];
      for iteration := 0 to maxIterations
        invariant |turns| == iteration && IsAfter(env, deps, start, turns, messages)
      {
        var response := Ask(env, iteration);
        if !response.Response? || response.calls == [] {
          outcome := Stop(response);
          return;
        }
        ghost var before := messages;
        ghost var turn := RunTurn(env, deps, iteration, response.content, response.calls);
        AfterOneMore(env, deps, start, turns, turn, before, messages);
        turns := turns + [turn];
      }
      outcome := MaxIterations;
    }

    /** A response without tool calls is appended and answers; an error is re-raised with the transcript untouched. */
    method Stop(response: LlmOutcome) returns (outcome: Outcome)
      requires response.Response? ==> response.calls == []
      modifies this
      ensures outcome == if response.Response? then Answer(response.content) else LlmError(response)
      ensures messages == old(messages) + Final(outcome)
    {
      if response.Response? {
        messages := messages + [AI(response.content, response.calls)];
        outcome := Answer(response.content);
      } else {
        outcome := LlmError(response);
      }
    }
  }

  /** How the loop ends after `done` completed turns. */
  ghost predicate EndsAs(env: Environment, maxIterations: nat, done: nat, outcome: Outcome) {
    match outcome
    case Answer(content) => done < maxIterations && env.Effective(done) == Response(content, [])
    case LlmError(e) => done < maxIterations && env.Effective(done) == e && !e.Response?
    case MaxIterations => done == maxIterations
  }

  ghost function Final(outcome: Outcome): seq<Message> {
    if outcome.Answer? then [AI(outcome.content, [])] else []
  }

  /** The completed turns, each following the oracles on the transcript the earlier turns left. */
  ghost predicate History(env: Environment, deps: Deps, start: seq<Message>, turns: seq<Turn>): (r: bool)
    ensures r ==> AllValid(deps, turns)
  {
    turns == [] ||
    (var front, last := turns[..|turns| - 1], turns[|turns| - 1];
     && History(env, deps, start, front)
     && last.Valid(deps)
     && Follows(env, deps, |front|, start + Flatten(deps, front), last))
  }

  /** The transcript `now` is what the turns have made of `start`. */
  ghost predicate IsAfter(env: Environment, deps: Deps, start: seq<Message>, turns: seq<Turn>, now: seq<Message>) {
    History(env, deps, start, turns) && now == start + Flatten(deps, turns)
  }

  lemma AfterOneMore(
    env: Environment, deps: Deps, start: seq<Message>, turns: seq<Turn>, t: Turn,
    before: seq<Message>, now: seq<Message>)
    requires IsAfter(env, deps, start, turns, before)
    requires t.Valid(deps) && Follows(env, deps, |turns|, before, t) && now == before + t.Messages()
    ensures IsAfter(env, deps, start, turns + [t], now)
  {
    HistoryAppend(env, deps, start, turns, t);
  }

  lemma HistoryAppend(env: Environment, deps: Deps, start: seq<Message>, turns: seq<Turn>, t: Turn)
    requires History(env, deps, start, turns)
    requires t.Valid(deps) && Follows(env, deps, |turns|, start + Flatten(deps, turns), t)
    ensures History(env, deps, start, turns + [t])
    ensures Flatten(deps, turns + [t]) == Flatten(deps, turns) + t.Messages()
  {
    FlattenAppend(deps, turns, t);
    assert (turns + [t])[..|turns|] == turns;
  }

  /** The first wave of a non-empty batch exists and is chosen with nothing placed yet. */
  lemma FirstWave(calls: seq<Call>, deps: Deps, waves: seq<seq<nat>>)
    requires IsWaveSort(calls, deps, waves) && calls != []
    ensures waves != [] && IsWave(calls, deps, {}, waves[0])
    ensures InRange(calls, waves[0])
  {
    assert calls[0] in calls && calls[0].name in Names(calls);
    assert IsWave(calls, deps, Placed(calls, waves, 0), waves[0]);
    forall k | 0 <= k < |waves[0]|
      ensures waves[0][k] < |calls|
    {
      assert waves[0][k] in waves[0];
    }
  }

  // ---------------------------------------------------------------- what the transcript looks like

  /** Every AI message is followed by exactly one reply per call, with the calls' ids in order; no reply stands
    * elsewhere. */
  ghost predicate WellFormed(ms: seq<Message>) {
    && (ms != [] ==> !ms[0].ToolReply?)
    && forall i :: 0 <= i < |ms| && ms[i].AI? ==> Answered(ms, i)
  }

  predicate IsReplyTo(call: Call, m: Message) {
    m.ToolReply? && m.callId == call.id && m.name == call.name
  }

  ghost predicate Answered(ms: seq<Message>, i: nat)
    requires i < |ms| && ms[i].AI?
  {
    var calls := ms[i].calls;
    && i + |calls| < |ms|
    && (forall j, k :: 0 <= j < |calls| && k == i + 1 + j ==> IsReplyTo(calls[j], ms[k]))
    && (i + 1 + |calls| < |ms| ==> !ms[i + 1 + |calls|].ToolReply?)
  }

  lemma WellFormedConcat(a: seq<Message>, b: seq<Message>)
    requires WellFormed(a) && WellFormed(b)
    ensures WellFormed(a + b)
  {
    var ms := a + b;
    forall i | 0 <= i < |ms| && ms[i].AI?
      ensures Answered(ms, i)
    {
      if i < |a| {
        assert Answered(a, i);
      } else {
        assert Answered(b, i - |a|);
        forall j, k | 0 <= j < |ms[i].calls| && k == i + 1 + j
          ensures IsReplyTo(ms[i].calls[j], ms[k])
        {
          assert ms[k] == b[k - |a|];
        }
      }
    }
  }

  lemma {:induction false} TurnsAreWellFormed(deps: Deps, turns: seq<Turn>)
    requires AllValid(deps, turns)
    ensures WellFormed(Flatten(deps, turns))
  {
    if turns != [] {
      var front, last := turns[..|turns| - 1], turns[|turns| - 1];
      TurnsAreWellFormed(deps, front);
      assert Answered(last.Messages(), 0);
      WellFormedConcat(Flatten(deps, front), last.Messages());
    }
  }

  lemma {:induction false} PrefixIsValid(deps: Deps, turns: seq<Turn>, k: nat)
    requires AllValid(deps, turns) && k <= |turns|
    ensures AllValid(deps, turns[..k])
  {
    if k == |turns| {
      assert turns[..k] == turns;
    } else {
      PrefixIsValid(deps, turns[..|turns| - 1], k);
      assert turns[..|turns| - 1][..k] == turns[..k];
    }
  }

  /** Whenever the loop reads the transcript (after `k` turns) and when it returns, the messages it appended are
    * well formed. */
  lemma TranscriptIsWellFormed(deps: Deps, turns: seq<Turn>, outcome: Outcome)
    requires AllValid(deps, turns)
    ensures forall k :: 0 <= k <= |turns| ==> AllValid(deps, turns[..k]) && WellFormed(Flatten(deps, turns[..k]))
    ensures WellFormed(Flatten(deps, turns) + Final(outcome))
  {
    forall k | 0 <= k <= |turns|
      ensures AllValid(deps, turns[..k]) && WellFormed(Flatten(deps, turns[..k]))
    {
      PrefixIsValid(deps, turns, k);
      TurnsAreWellFormed(deps, turns[..k]);
    }
    TurnsAreWellFormed(deps, turns);
    WellFormedConcat(Flatten(deps, turns), Final(outcome));
  }

  /** Unless the batch is cyclic, no kept call depends on any call of the same response. */
  lemma NoDependencyInTheSameTurn(deps: Deps, t: Turn, j: nat, d: nat)
    requires t.Valid(deps) && !Cyclic(Names(t.calls), deps)
    requires j < |t.wave| && d < |t.calls|
    ensures t.wave[j] < |t.calls| && t.calls[d].name !in DepsOf(deps, t.calls[t.wave[j]].name)
  {
    assert t.wave[j] in t.wave;
    if Stuck(Names(t.calls), deps, {}) {
      WaveTheory.FallbackMeansCycle(Names(t.calls), deps, {});
    }
    assert t.calls[d] in t.calls && t.calls[d].name in Names(t.calls);
  }

  // ---------------------------------------------------------------- what the replies say

  /** A reply carries the tool's own text; an unknown tool or one that raises is answered with an error and never
    * ends the turn. The tool is run on the arguments resolved against the transcript with the turn's own message. */
  lemma RepliesCarryOutcomes(env: Environment, deps: Deps, k: nat, before: seq<Message>, t: Turn, j: nat)
    requires Follows(env, deps, k, before, t) && j < |t.wave|
    ensures
      var call := Kept(t.calls, t.wave)[j];
      && (call.name !in env.tools ==> t.texts[j] == env.errorJson("Unknown tool: " + call.name))
      && (call.name in env.tools ==>
            match env.tool(k, call, ResolvedArgs(env, call, before + [t.Head()]))
            case Returned(text) => t.texts[j] == text
            case Raised(error) => t.texts[j] == env.errorJson(error))
  {}

  /** Arguments are changed only by forwarding eligibility: to calculate_refund, when the model gave no usable one
    * and some check_eligibility reply has content, and then nothing but that argument changes. */
  lemma ForwardedOnlyWhenNeeded(env: Environment, call: Call, messages: seq<Message>)
    ensures
      var args := ResolvedArgs(env, call, messages);
      var missing := "eligibility_result" !in call.args || call.args["eligibility_result"] == ""
        || !env.parses(call.args["eligibility_result"]);
      var replied := exists m :: m in messages && IsEligibilityReply(m);
      && (if call.name == "calculate_refund" && missing && replied
          then LatestEligibility(messages) != [] && "eligibility_result" in args
            && args["eligibility_result"] == LatestEligibility(messages)[0]
          else args == call.args)
      && forall key :: key != "eligibility_result" ==>
           (key in args <==> key in call.args) && (key in args ==> args[key] == call.args[key])
  {
    LatestEligibilityIsLatest(messages);
  }
}
