/** Core/CognitiveExecution/executor.go, Execute: inference iterations until the provider
    stops asking for tools. Context builder, provider and executor are arbitrary: each of
    their answers may depend on which call it is and on all they have been given. */
module ToolLoop {
  import opened Common

  datatype Call = Call(name: string, arguments: string)
  datatype Tool = Tool(name: string, schema: string)
  datatype Exchange = Exchange(call: Call, result: string, required: bool)
  datatype Response = Response(text: string, calls: seq<Call>)

  /** What a provider call comes back with. */
  datatype Inference = Answer(response: Response) | NilResponse | InferenceError

  /** What the request is checked for before the first iteration. */
  datatype Setup = Ready | MissingDependency | InvalidConfiguration | InvalidBudget

  /** The world outside the loop. `cancelled` and `infer` take the iteration, `execute` the
      number of the call. */
  datatype Env = Env(
    setup: Setup,
    tools: Option<seq<Tool>>,
    cancelled: nat -> bool,
    build: (nat, seq<Exchange>) -> Option<string>,
    infer: (nat, string) -> Inference,
    execute: (nat, Call, Option<Tool>) -> string)

  datatype Outcome =
    | Unusable(setup: Setup)
    | Finished(response: Response, exchanges: seq<Exchange>)
    | Cancelled
    | ContextFailed
    | InferenceFailed
    | NoResponse
    | NoExecutor
    | LimitExceeded

  /** Everything the loop did: the exchanges each context was built from, the provider
      calls made, the responses received, the tool calls carried out. */
  datatype Trace = Trace(builds: seq<seq<Exchange>>, inferences: nat, responses: seq<Response>, executed: seq<Call>)

  const DEFAULT_TOOL_CALL_LIMIT := 10

  function Limit(maxToolCalls: int): nat {
    if maxToolCalls <= 0 then DEFAULT_TOOL_CALL_LIMIT else maxToolCalls
  }

  // ----- what the loop should have done

  function Calls(responses: seq<Response>): seq<Call> {
    if responses == [] then [] else Calls(responses[..|responses| - 1]) + responses[|responses| - 1].calls
  }

  /** The last declaration of a name counts. */
  function ToolNamed(tools: seq<Tool>, name: string): Option<Tool> {
    if tools == [] then None
    else if tools[|tools| - 1].name == name then Some(tools[|tools| - 1])
    else ToolNamed(tools[..|tools| - 1], name)
  }

  function Perform(env: Env, n: nat, call: Call): string {
    env.execute(n, call, if env.tools.Some? then ToolNamed(env.tools.value, call.name) else None)
  }

  /** The calls with their results, those from position `from` on still required. */
  function Exchanges(env: Env, calls: seq<Call>, from: nat): seq<Exchange> {
    seq(|calls|, i requires 0 <= i < |calls| => Exchange(calls[i], Perform(env, i, calls[i]), i >= from))
  }

  /** What the context of iteration i is built from: all calls so far in order, exactly the
      ones of the previous response required. */
  function Shown(env: Env, responses: seq<Response>, i: nat): seq<Exchange>
    requires i <= |responses|
  {
    Exchanges(env, Calls(responses[..i]), if i == 0 then 0 else |Calls(responses[..i - 1])|)
  }

  /** Every context was built from what was then to be shown. */
  ghost predicate Faithful(env: Env, trace: Trace) {
    && |trace.responses| <= trace.inferences <= |trace.builds| <= |trace.responses| + 1
    && (forall i :: 0 <= i < |trace.builds| ==> trace.builds[i] == Shown(env, trace.responses, i))
  }

  /** Every response is the provider's answer to the context of its iteration, and the
      execution was not cancelled before. */
  ghost predicate Genuine(env: Env, trace: Trace) {
    && |trace.responses| <= trace.inferences <= |trace.builds|
    && (forall i :: 0 <= i < |trace.builds| ==> !env.cancelled(i))
    && (forall i :: 0 <= i < trace.inferences ==> env.build(i, trace.builds[i]).Some?)
    && (forall i :: 0 <= i < |trace.responses| ==> Infer(env, i, trace.builds[i]) == Some(Answer(trace.responses[i])))
  }

  /** The provider's answer in iteration i, if a context could be built. */
  function Infer(env: Env, i: nat, exchanges: seq<Exchange>): Option<Inference> {
    var context := env.build(i, exchanges);
    if context.None? then None else Some(env.infer(i, context.value))
  }

  // ----- lemmas

  lemma CallsSnoc(responses: seq<Response>, response: Response)
    ensures Calls(responses + [response]) == Calls(responses) + response.calls
  {
    assert (responses + [response])[..|responses|] == responses;
  }

  lemma ShownSnoc(env: Env, responses: seq<Response>, response: Response, i: nat)
    requires i <= |responses|
    ensures Shown(env, responses + [response], i) == Shown(env, responses, i)
  {
    assert (responses + [response])[..i] == responses[..i];
    if i > 0 {
      assert (responses + [response])[..i - 1] == responses[..i - 1];
    }
  }

  /** No response ends the loop unless it is the last, so each costs a call. */
  lemma {:induction false} CallsGrow(responses: seq<Response>)
    requires forall r :: r in responses ==> r.calls != []
    ensures |Calls(responses)| >= |responses|
  {
    if responses != [] {
      CallsGrow(responses[..|responses| - 1]);
      assert responses[|responses| - 1] in responses;
    }
  }

  // ----- the code

  method ToolMap(tools: seq<Tool>) returns (toolMap: map<string, Tool>)
    ensures forall name :: ToolNamed(tools, name) == if name in toolMap then Some(toolMap[name]) else None
  {
    toolMap := map[];
    for index := 0 to |tools|
      invariant forall name :: ToolNamed(tools[..index], name) == if name in toolMap then Some(toolMap[name]) else None
    {
      assert tools[..index + 1][..index] == tools[..index];
      toolMap := toolMap[tools[index].name := tools[index]];
    }
    assert tools[..|tools|] == tools;
  }

  method Settle(exchanges: seq<Exchange>, ghost env: Env, ghost calls: seq<Call>, ghost from: nat) returns (settled: seq<Exchange>)
    requires exchanges == Exchanges(env, calls, from)
    ensures settled == Exchanges(env, calls, |calls|)
  {
    settled := exchanges;
    for index := 0 to |exchanges|
      invariant |settled| == |exchanges|
      invariant forall i :: 0 <= i < |exchanges| ==> settled[i] == if i < index then exchanges[i].(required := false) else exchanges[i]
    {
      settled := settled[index := settled[index].(required := false)];
    }
  }

  /** Carries out the calls of one response until the limit. */
  method PerformCalls(env: Env, toolMap: map<string, Tool>, settled: seq<Exchange>, calls: seq<Call>, count: nat, limit: nat,
                      ghost before: seq<Call>)
    returns (ok: bool, exchanges: seq<Exchange>, done: nat)
    requires env.tools.Some?
    requires forall name :: ToolNamed(env.tools.value, name) == if name in toolMap then Some(toolMap[name]) else None
    requires settled == Exchanges(env, before, |before|) && count == |before| <= limit
    ensures ok <==> |before + calls| <= limit
    ensures done == if ok then |calls| else limit - |before|
    ensures ok ==> exchanges == Exchanges(env, before + calls, |before|)
  {
    exchanges := settled;
    var callCount := count;
    for index := 0 to |calls|
      invariant callCount == |before| + index <= limit
      invariant exchanges == Exchanges(env, before + calls[..index], |before|)
    {
      var call := calls[index];
      callCount := callCount + 1;
      if callCount > limit {
        return false, exchanges, index;
      }
      var result := env.execute(|exchanges|, call, if call.name in toolMap then Some(toolMap[call.name]) else None);
      assert before + calls[..index + 1] == (before + calls[..index]) + [call];
      exchanges := exchanges + [Exchange(call, result, true)];
    }
    assert calls[..|calls|] == calls;
    return true, exchanges, |calls|;
  }

  /** Where the loop stands at the start of an iteration. */
  ghost predicate Head(env: Env, limit: nat, trace: Trace, exchanges: seq<Exchange>) {
    && |trace.builds| == trace.inferences == |trace.responses| && Faithful(env, trace)
    && exchanges == Shown(env, trace.responses, |trace.responses|)
    && trace.executed == Calls(trace.responses) && |trace.executed| <= limit
    && (forall r :: r in trace.responses ==> r.calls != [])
    && (env.tools.None? ==> trace.responses == []) && env.setup == Ready
  }

  function Asked(trace: Trace, exchanges: seq<Exchange>): Trace {
    trace.(builds := trace.builds + [exchanges])
  }

  function Unanswered(trace: Trace, exchanges: seq<Exchange>): Trace {
    Asked(trace, exchanges).(inferences := trace.inferences + 1)
  }

  function Answered(trace: Trace, exchanges: seq<Exchange>, response: Response): Trace {
    Unanswered(trace, exchanges).(responses := trace.responses + [response])
  }

  lemma AskingKeeps(env: Env, limit: nat, trace: Trace, exchanges: seq<Exchange>)
    requires Head(env, limit, trace, exchanges)
    ensures |trace.builds| <= limit
    ensures Faithful(env, Asked(trace, exchanges)) && Faithful(env, Unanswered(trace, exchanges))
  {
    CallsGrow(trace.responses);
  }

  lemma AnsweringKeeps(env: Env, limit: nat, trace: Trace, exchanges: seq<Exchange>, response: Response)
    requires Head(env, limit, trace, exchanges)
    ensures Faithful(env, Answered(trace, exchanges, response))
    ensures Calls(Answered(trace, exchanges, response).responses) == Calls(trace.responses) + response.calls
  {
    CallsSnoc(trace.responses, response);
    forall i | 0 <= i <= |trace.responses|
      ensures Shown(env, trace.responses + [response], i) == Shown(env, trace.responses, i)
    {
      ShownSnoc(env, trace.responses, response, i);
    }
  }

  lemma ContinuingKeeps(env: Env, limit: nat, trace: Trace, exchanges: seq<Exchange>, response: Response)
    requires Head(env, limit, trace, exchanges) && response.calls != [] && env.tools.Some?
    requires |Calls(trace.responses) + response.calls| <= limit
    ensures var calls := Calls(trace.responses);
            var next := Answered(trace, exchanges, response).(executed := calls + response.calls);
            Head(env, limit, next, Exchanges(env, calls + response.calls, |calls|))
  {
    AnsweringKeeps(env, limit, trace, exchanges, response);
    var responses := trace.responses + [response];
    assert responses[..|responses|] == responses && responses[..|responses| - 1] == trace.responses;
  }

  lemma HeadSettles(env: Env, limit: nat, trace: Trace, exchanges: seq<Exchange>) returns (from: nat)
    requires Head(env, limit, trace, exchanges)
    ensures exchanges == Exchanges(env, Calls(trace.responses), from)
  {
    var n := |trace.responses|;
    assert trace.responses[..n] == trace.responses;
    from := if n == 0 then 0 else |Calls(trace.responses[..n - 1])|;
  }

  lemma GenuineKeeps(env: Env, trace: Trace, exchanges: seq<Exchange>)
    requires Genuine(env, trace) && |trace.builds| == trace.inferences == |trace.responses|
    requires !env.cancelled(|trace.builds|)
    ensures Genuine(env, Asked(trace, exchanges))
    ensures Infer(env, |trace.builds|, exchanges).Some? ==> Genuine(env, Unanswered(trace, exchanges))
  {
  }

  lemma GenuineAnswer(env: Env, trace: Trace, exchanges: seq<Exchange>, response: Response, executed: seq<Call>)
    requires Genuine(env, trace) && |trace.builds| == trace.inferences == |trace.responses|
    requires !env.cancelled(|trace.builds|) && Infer(env, |trace.builds|, exchanges) == Some(Answer(response))
    ensures Genuine(env, Answered(trace, exchanges, response).(executed := executed))
  {
  }

  // ----- how an execution ends

  /** The bounds, with every response but the last having asked for tools. */
  ghost predicate Bounded(limit: nat, trace: Trace) {
    && |trace.builds| <= limit + 1 && trace.inferences <= limit + 1 && |trace.executed| <= limit
    && (forall i :: 0 <= i < |trace.responses| - 1 ==> trace.responses[i].calls != [])
  }

  /** Why it ended. Tool calls were carried out in order: all of them, or as many as the
      limit allows. */
  ghost predicate Ended(env: Env, limit: nat, outcome: Outcome, trace: Trace) {
    var calls, n := Calls(trace.responses), |trace.responses|;
    match outcome
    case Unusable(setup) => setup == env.setup != Ready && trace == Trace([], 0, [], [])
    case Finished(response, exchanges) =>
      && n > 0 && response == trace.responses[n - 1] && response.calls == []
      && trace.executed == calls && exchanges == Exchanges(env, calls, |calls|)
    case LimitExceeded => |calls| > limit && trace.executed == calls[..limit]
    case NoExecutor => env.tools.None? && trace.executed == [] && n == 1 && trace.responses[0].calls != []
    case Cancelled => trace.executed == calls && |trace.builds| == n && env.cancelled(n)
    case ContextFailed => trace.executed == calls && |trace.builds| == n + 1 && Infer(env, n, trace.builds[n]).None?
    case InferenceFailed =>
      trace.executed == calls && |trace.builds| == n + 1 && Infer(env, n, trace.builds[n]) == Some(InferenceError)
    case NoResponse =>
      trace.executed == calls && |trace.builds| == n + 1 && Infer(env, n, trace.builds[n]) == Some(NilResponse)
  }

  ghost predicate Accounted(env: Env, limit: nat, outcome: Outcome, trace: Trace) {
    && Faithful(env, trace) && Bounded(limit, trace) && Ended(env, limit, outcome, trace)
    && (env.setup != Ready ==> outcome.Unusable?)
  }

  lemma InterruptedAccount(env: Env, limit: nat, trace: Trace, exchanges: seq<Exchange>)
    requires Head(env, limit, trace, exchanges)
    ensures var n := |trace.builds|;
            var inferred := Infer(env, n, exchanges);
            && (env.cancelled(n) ==> Accounted(env, limit, Cancelled, trace))
            && (inferred == None ==> Accounted(env, limit, ContextFailed, Asked(trace, exchanges)))
            && (inferred == Some(InferenceError) ==> Accounted(env, limit, InferenceFailed, Unanswered(trace, exchanges)))
            && (inferred == Some(NilResponse) ==> Accounted(env, limit, NoResponse, Unanswered(trace, exchanges)))
  {
    AskingKeeps(env, limit, trace, exchanges);
  }

  lemma FinishedAccount(env: Env, limit: nat, trace: Trace, exchanges: seq<Exchange>, response: Response)
    requires Head(env, limit, trace, exchanges) && response.calls == []
    ensures var calls := Calls(trace.responses);
            Accounted(env, limit, Finished(response, Exchanges(env, calls, |calls|)), Answered(trace, exchanges, response))
  {
    AskingKeeps(env, limit, trace, exchanges);
    AnsweringKeeps(env, limit, trace, exchanges, response);
    assert Calls(trace.responses) + [] == Calls(trace.responses);
  }

  lemma NoExecutorAccount(env: Env, limit: nat, trace: Trace, exchanges: seq<Exchange>, response: Response)
    requires Head(env, limit, trace, exchanges) && env.tools.None? && response.calls != []
    ensures Accounted(env, limit, NoExecutor, Answered(trace, exchanges, response))
  {
    AskingKeeps(env, limit, trace, exchanges);
    AnsweringKeeps(env, limit, trace, exchanges, response);
  }

  lemma LimitAccount(env: Env, limit: nat, trace: Trace, exchanges: seq<Exchange>, response: Response)
    requires Head(env, limit, trace, exchanges) && |Calls(trace.responses) + response.calls| > limit
    ensures var calls := Calls(trace.responses) + response.calls;
            Accounted(env, limit, LimitExceeded, Answered(trace, exchanges, response).(executed := calls[..limit]))
  {
    AskingKeeps(env, limit, trace, exchanges);
    AnsweringKeeps(env, limit, trace, exchanges, response);
  }

  /** The rest of an iteration, once the provider has answered. */
  method Respond(env: Env, toolMap: map<string, Tool>, limit: nat, trace: Trace, exchanges: seq<Exchange>, response: Response)
    returns (outcome: Option<Outcome>, next: Trace, extended: seq<Exchange>)
    requires Head(env, limit, trace, exchanges)
    requires env.tools.Some? ==>
               forall name :: ToolNamed(env.tools.value, name) == if name in toolMap then Some(toolMap[name]) else None
    ensures next == Answered(trace, exchanges, response).(executed := next.executed)
    ensures outcome.Some? ==> Accounted(env, limit, outcome.value, next)
    ensures outcome.None? ==> Head(env, limit, next, extended) && |next.executed| > |trace.executed|
  {
    ghost var from := HeadSettles(env, limit, trace, exchanges);
    var settled := Settle(exchanges, env, trace.executed, from);
    next := Answered(trace, exchanges, response);
    if response.calls == [] {
      FinishedAccount(env, limit, trace, exchanges, response);
      return Some(Finished(response, settled)), next, [];
    }
    if env.tools.None? {
      NoExecutorAccount(env, limit, trace, exchanges, response);
      return Some(NoExecutor), next, [];
    }
    var ok, done;
    ok, extended, done := PerformCalls(env, toolMap, settled, response.calls, |trace.executed|, limit, trace.executed);
    next := next.(executed := trace.executed + response.calls[..done]);
    if !ok {
      LimitAccount(env, limit, trace, exchanges, response);
      assert trace.executed + response.calls[..done] == (trace.executed + response.calls)[..limit];
      return Some(LimitExceeded), next, [];
    }
    ContinuingKeeps(env, limit, trace, exchanges, response);
    assert response.calls[..done] == response.calls;
    return None, next, extended;
  }

  /** One iteration: the execution is over, or more calls have been carried out. */
  method Iterate(env: Env, toolMap: map<string, Tool>, limit: nat, trace: Trace, exchanges: seq<Exchange>)
    returns (outcome: Option<Outcome>, next: Trace, extended: seq<Exchange>)
    requires Head(env, limit, trace, exchanges) && Genuine(env, trace)
    requires env.tools.Some? ==>
               forall name :: ToolNamed(env.tools.value, name) == if name in toolMap then Some(toolMap[name]) else None
    ensures Genuine(env, next)
    ensures outcome.Some? ==> Accounted(env, limit, outcome.value, next)
    ensures outcome.None? ==> Head(env, limit, next, extended) && |next.executed| > |trace.executed|
  {
    InterruptedAccount(env, limit, trace, exchanges);
    if env.cancelled(|trace.builds|) { return Some(Cancelled), trace, []; }
    GenuineKeeps(env, trace, exchanges);
    var messages := env.build(|trace.builds|, exchanges);
    if messages.None? { return Some(ContextFailed), Asked(trace, exchanges), []; }
    var inference := env.infer(trace.inferences, messages.value);
    if inference.InferenceError? { return Some(InferenceFailed), Unanswered(trace, exchanges), []; }
    if inference.NilResponse? { return Some(NoResponse), Unanswered(trace, exchanges), []; }
    outcome, next, extended := Respond(env, toolMap, limit, trace, exchanges, inference.response);
    GenuineAnswer(env, trace, exchanges, inference.response, next.executed);
  }

  method Execute(env: Env, maxToolCalls: int) returns (outcome: Outcome, trace: Trace)
    ensures Accounted(env, if maxToolCalls > 0 then maxToolCalls else 10, outcome, trace) && Genuine(env, trace)
  {
    if env.setup != Ready { return Unusable(env.setup), Trace([], 0, [], []); }
    var limit := Limit(maxToolCalls);
    var toolMap: map<string, Tool> := map[];
    if env.tools.Some? {
      toolMap := ToolMap(env.tools.value);
    }
    var exchanges: seq<Exchange> := [];
    trace := Trace([], 0, [], []);
    assert trace.responses[..0] == [];
    while true
      invariant Head(env, limit, trace, exchanges) && Genuine(env, trace)
      decreases limit - |trace.executed|
    {
      var over, next, extended := Iterate(env, toolMap, limit, trace, exchanges);
      if over.Some? { return over.value, next; }
      trace, exchanges := next, extended;
    }
  }

  // ----- what that means

  /** An exchange is required in the first context built after it was produced and in no
      other, and calls never change place. */
  lemma RequiredOnce(env: Env, trace: Trace, i: nat, k: nat)
    requires Faithful(env, trace) && i < |trace.builds| && k < |trace.builds[i]|
    ensures trace.builds[i][k].required <==> i > 0 && k >= |trace.builds[i - 1]|
    ensures forall j :: i <= j < |trace.builds| ==>
              k < |trace.builds[j]| && trace.builds[j][k].call == trace.builds[i][k].call
              && trace.builds[j][k].result == trace.builds[i][k].result
  {
    forall j | i <= j < |trace.builds|
      ensures Calls(trace.responses[..i]) <= Calls(trace.responses[..j])
    {
      CallsPrefix(trace.responses, i, j);
    }
  }

  lemma {:induction false} CallsPrefix(responses: seq<Response>, i: nat, j: nat)
    requires i <= j <= |responses|
    ensures Calls(responses[..i]) <= Calls(responses[..j])
  {
    if i < j {
      CallsPrefix(responses, i, j - 1);
      assert responses[..j][..j - 1] == responses[..j - 1];
    }
  }
}
