/** The closed-loop agent: a live run and a resume, both writing the checkpoint
    log one durable append at a time. The LLM, the tools and the executor's own
    log lines are the environment; a crash is a process whose appends run out. */
module AgentLoop {
  import opened Options
  import opened Checkpoints

  datatype Response = Response(content: Option<string>, calls: seq<ToolCall>)
  datatype LlmOutcome = Reply(response: Response) | ProviderStateError | ProviderFailure
  datatype ToolOutcome = Done(result: ToolResult) | ExecutorStateError

  /** A deterministic environment. What an executor logs for a call may depend on the whole log. */
  datatype World = World(llm: seq<Message> -> LlmOutcome,
                         tool: ToolCall -> ToolOutcome,
                         traces: (seq<Event>, ToolCall) -> seq<Event>)

  predicate DistinctIds(calls: seq<ToolCall>) {
    forall i, j :: 0 <= i < j < |calls| ==> calls[i].callId != calls[j].callId
  }

  /** Executors write only trace events of the call they run, results keep the tool's name,
      and one response never repeats a call id. */
  ghost predicate Lawful(w: World) {
    && (forall log: seq<Event>, c, i ::
          0 <= i < |w.traces(log, c)| ==> IsTrace(w.traces(log, c)[i]) && w.traces(log, c)[i].callId == c.callId)
    && (forall c :: w.tool(c).Done? ==> w.tool(c).result.toolName == c.name)
    && (forall m: seq<Message> :: w.llm(m).Reply? ==> DistinctIds(w.llm(m).response.calls))
  }

  datatype Policy = Policy(maxIterations: nat, maxToolCalls: nat)
  datatype Usage = Usage(iterations: nat, seen: set<string>)

  /** `RunBudgetEngine.decide`: None allows the request, Some gives the halt reason. */
  function Decide(p: Policy, iterations: nat, calls: nat, moreIterations: nat, moreCalls: nat): Option<string> {
    if iterations + moreIterations > p.maxIterations then Some("MAX_ITERATIONS_REACHED")
    else if calls + moreCalls > p.maxToolCalls then Some("MAX_TOOL_CALLS_REACHED")
    else None
  }

  datatype Outcome = Answer(content: Option<string>) | Stopped | Raised | Crashed

  /** The fault of a tool whose idempotency key another worker holds. */
  predicate HeldElsewhere(error: Option<ToolFault>) { error.Some? && error.value.code == "IDEMPOTENCY_IN_PROGRESS" }

  predicate InProgress(r: ToolResult) { HeldElsewhere(r.error) }

  function ResultEvent(c: ToolCall, r: ToolResult, last: bool): Event {
    ToolResultReceived(c.callId, c.name, r.status, Some(r), last)
  }

  /** A point between two loop steps; `todo` is the rest of the current batch of tool calls. */
  datatype Progress =
    | Next(log: seq<Event>, msgs: seq<Message>, u: Usage, todo: seq<ToolCall>)
    | End(log: seq<Event>, outcome: Outcome)

  /** One turn of the outer loop: budget check, request, response. */
  function Ask(w: World, p: Policy, log: seq<Event>, msgs: seq<Message>, u: Usage): Progress {
    var halt := Decide(p, u.iterations, |u.seen|, 1, 0);
    if halt.Some? then End(log + [RunHalted(halt.value)], Stopped)
    else Hear(w, log + [LlmRequested(u.iterations + 1)], msgs, Usage(u.iterations + 1, u.seen))
  }

  function Hear(w: World, asked: seq<Event>, msgs: seq<Message>, u: Usage): Progress {
    match w.llm(msgs)
    case ProviderStateError => End(asked + [RunHalted("SYSTEM_STATE_ERROR")], Raised)
    case ProviderFailure => End(asked + [RunFailed], Stopped)
    case Reply(r) =>
      var told := asked + [LlmResponded(u.iterations, r.content, r.calls)];
      if r.calls == [] then End(told + [LlmFinalResponse(r.content)] + [RunCompleted], Answer(r.content))
      else Next(told, msgs + [Assistant(r.content, r.calls)], u, r.calls)
  }

  /** One turn of the tool loop. A resume yields, without logging, to a call already in progress elsewhere. */
  function Call(w: World, p: Policy, resumed: bool, log: seq<Event>, msgs: seq<Message>, u: Usage, todo: seq<ToolCall>): Progress
    requires todo != []
  {
    var c := todo[0];
    var halt := if c.callId in u.seen then None else Decide(p, u.iterations, |u.seen|, 0, 1);
    if halt.Some? then End(log + [RunHalted(halt.value)], Stopped) else
    var traced := log + w.traces(log, c);
    match w.tool(c)
    case ExecutorStateError => End(traced + [RunHalted("SYSTEM_STATE_ERROR")], Stopped)
    case Done(r) =>
      if resumed && InProgress(r) then End(traced, Stopped)
      else Next(traced + [ResultEvent(c, r, |todo| == 1)], msgs + [ToolMessage(c.callId, r)],
                Usage(u.iterations, u.seen + {c.callId}), todo[1..])
  }

  function Step(w: World, p: Policy, resumed: bool, log: seq<Event>, msgs: seq<Message>, u: Usage, todo: seq<ToolCall>): Progress {
    if todo == [] then Ask(w, p, log, msgs, u) else Call(w, p, resumed, log, msgs, u, todo)
  }

  /** What a process that never crashes does from here on: the final log and how it ends. */
  function Drive(w: World, p: Policy, resumed: bool, log: seq<Event>, msgs: seq<Message>, u: Usage, todo: seq<ToolCall>)
    : (seq<Event>, Outcome)
    decreases if p.maxIterations > u.iterations then p.maxIterations - u.iterations else 0, |todo|
  {
    match Step(w, p, resumed, log, msgs, u, todo)
    case End(log', outcome) => (log', outcome)
    case Next(log', msgs', u', todo') => Drive(w, p, resumed, log', msgs', u', todo')
  }

  /** The next call passes the budget and goes to the executor. */
  predicate Hands(p: Policy, u: Usage, todo: seq<ToolCall>) {
    todo != [] && (todo[0].callId in u.seen || Decide(p, u.iterations, |u.seen|, 0, 1).None?)
  }

  /** The ids a process hands to the executor before it dies with `n` events in the log, whether or not it lives to
      write a line about them. */
  function Handed(w: World, p: Policy, resumed: bool, log: seq<Event>, msgs: seq<Message>, u: Usage, todo: seq<ToolCall>, n: nat): set<string>
    decreases if p.maxIterations > u.iterations then p.maxIterations - u.iterations else 0, |todo|
  {
    var here := if Hands(p, u, todo) then {todo[0].callId} else {};
    match Step(w, p, resumed, log, msgs, u, todo)
    case End(_, _) => here
    case Next(log', msgs', u', todo') => if |log'| <= n then here + Handed(w, p, resumed, log', msgs', u', todo', n) else here
  }

  /** A first attempt, on a run id that has no events yet. */
  function Run(w: World, p: Policy, sys: string, usr: string): (seq<Event>, Outcome) {
    Drive(w, p, false, [RunStarted(sys, usr)], [System(sys), User(usr)], Usage(0, {}), [])
  }

  /** The cached answer of a completed run: the latest assistant text that is not empty. */
  function CachedAnswer(msgs: seq<Message>): Option<string> {
    if msgs == [] then None
    else
      var m := msgs[|msgs| - 1];
      if m.Assistant? && m.content.Some? && m.content.value != "" then m.content
      else CachedAnswer(msgs[..|msgs| - 1])
  }

  function Resume(w: World, p: Policy, log: seq<Event>): (seq<Event>, Outcome) {
    if log == [] || Replay(log).None? then (log, Raised) else
    var s := Replay(log).value;
    if s.state.Completed? then (log, Answer(CachedAnswer(s.messages)))
    else if s.state.Terminal() then (log, Raised)
    else
      var u := Usage(IterationsUsed(log), IdsUsed(log));
      var halt := Decide(p, u.iterations, |u.seen|, 0, 0);
      if halt.Some? then (log + [RunHalted(halt.value)], Stopped)
      else Drive(w, p, true, log, s.messages, u, s.pending)
  }

  /** The ids a first attempt, or a resume, hands to the executor. */
  function HandedByRun(w: World, p: Policy, sys: string, usr: string, n: nat): set<string> {
    if n == 0 then {} else Handed(w, p, false, [RunStarted(sys, usr)], [System(sys), User(usr)], Usage(0, {}), [], n)
  }

  function HandedByResume(w: World, p: Policy, log: seq<Event>, n: nat): set<string> {
    if log == [] || Replay(log).None? || Replay(log).value.state.Terminal() then {}
    else
      var s, u := Replay(log).value, Usage(IterationsUsed(log), IdsUsed(log));
      if Decide(p, u.iterations, |u.seen|, 0, 0).Some? then {} else Handed(w, p, true, log, s.messages, u, s.pending, n)
  }

  /** What is left of an attempt whose process dies once the log holds `n` events. */
  function Cut(whole: (seq<Event>, Outcome), n: nat): (seq<Event>, Outcome) {
    if |whole.0| <= n then whole else (whole.0[..n], Crashed)
  }

  lemma {:induction false} DriveExtends(w: World, p: Policy, resumed: bool, log: seq<Event>, msgs: seq<Message>, u: Usage, todo: seq<ToolCall>)
    ensures log <= Step(w, p, resumed, log, msgs, u, todo).log <= Drive(w, p, resumed, log, msgs, u, todo).0
    decreases if p.maxIterations > u.iterations then p.maxIterations - u.iterations else 0, |todo|
  {
    var g := Step(w, p, resumed, log, msgs, u, todo);
    if g.Next? {
      DriveExtends(w, p, resumed, g.log, g.msgs, g.u, g.todo);
    }
  }

  /** How far a process with `horizon` appends gets through one step: to its end, or dead on the way. */
  ghost predicate Reached(g: Progress, log: seq<Event>, horizon: nat, stop: Option<Outcome>) {
    match g
    case End(l, o) => stop.Some? && (log, stop.value) == Cut((l, o), horizon)
    case Next(l, _, _, _) => if stop.None? then log == l else stop == Some(Crashed) && |log| == horizon && log < l
  }

  lemma Died(g: Progress, log: seq<Event>, horizon: nat)
    requires log < g.log && |log| == horizon
    ensures Reached(g, log, horizon, Some(Crashed))
  {
    assert g.log[..horizon] == log;
  }

  lemma StopIsCut(w: World, p: Policy, resumed: bool, log: seq<Event>, msgs: seq<Message>, u: Usage, todo: seq<ToolCall>,
                  log': seq<Event>, horizon: nat, stop: Option<Outcome>)
    requires Reached(Step(w, p, resumed, log, msgs, u, todo), log', horizon, stop) && stop.Some?
    ensures (log', stop.value) == Cut(Drive(w, p, resumed, log, msgs, u, todo), horizon)
  {
    var g := Step(w, p, resumed, log, msgs, u, todo);
    if g.Next? {
      DriveExtends(w, p, resumed, g.log, g.msgs, g.u, g.todo);
      assert Drive(w, p, resumed, log, msgs, u, todo).0[..horizon] == log';
    }
  }

  /** How what was handed over grows by one step, whether it ends, goes on, or dies on the way. */
  lemma HandedStep(w: World, p: Policy, resumed: bool, log: seq<Event>, msgs: seq<Message>, u: Usage, todo: seq<ToolCall>,
                   log': seq<Event>, horizon: nat, stop: Option<Outcome>, before: set<string>, after: set<string>)
    requires var g := Step(w, p, resumed, log, msgs, u, todo);
             Reached(g, log', horizon, stop) && (stop.None? ==> g.Next? && |log'| <= horizon)
    requires after == before + if Hands(p, u, todo) then {todo[0].callId} else {}
    ensures var g := Step(w, p, resumed, log, msgs, u, todo);
            before + Handed(w, p, resumed, log, msgs, u, todo, horizon) ==
            if stop.Some? then after else after + Handed(w, p, resumed, g.log, g.msgs, g.u, g.todo, horizon)
  {
    var g := Step(w, p, resumed, log, msgs, u, todo);
    if stop.None? {
      assert before + (if Hands(p, u, todo) then {todo[0].callId} else {}) + Handed(w, p, resumed, g.log, g.msgs, g.u, g.todo, horizon)
          == after + Handed(w, p, resumed, g.log, g.msgs, g.u, g.todo, horizon);
    }
  }

  lemma ResumeDrives(w: World, p: Policy, log: seq<Event>, s: Session, u: Usage, n: nat)
    requires log != [] && Replay(log) == Some(s) && !s.state.Terminal() && u == Usage(IterationsUsed(log), IdsUsed(log))
    requires Decide(p, u.iterations, |u.seen|, 0, 0).None?
    ensures Resume(w, p, log) == Drive(w, p, true, log, s.messages, u, s.pending)
    ensures HandedByResume(w, p, log, n) == Handed(w, p, true, log, s.messages, u, s.pending, n)
  {
  }

  lemma ResumeHalts(w: World, p: Policy, log: seq<Event>, s: Session, reason: string, n: nat)
    requires log != [] && Replay(log) == Some(s) && !s.state.Terminal()
    requires Decide(p, IterationsUsed(log), |IdsUsed(log)|, 0, 0) == Some(reason)
    ensures Resume(w, p, log) == (log + [RunHalted(reason)], Stopped) && HandedByResume(w, p, log, n) == {}
  {
  }

  lemma HearExtends(w: World, asked: seq<Event>, msgs: seq<Message>, u: Usage)
    ensures asked < Hear(w, asked, msgs, u).log
  {
  }

  /** Folding the log gives exactly the live messages, and as pending calls exactly `todo`, in order. */
  ghost predicate Agrees(log: seq<Event>, msgs: seq<Message>, todo: seq<ToolCall>) {
    && Replay(log).Some?
    && Replay(log).value.messages == msgs
    && Replay(log).value.pending == todo
    && var st := Replay(log).value.state;
       if todo == [] then st.Running? || st.LlmWaiting? else st.ToolExecuting?
  }

  ghost predicate Accepts(log: seq<Event>, e: Event) {
    Replay(log).Some? && NextState(Replay(log).value.state, e).Some?
  }

  lemma {:induction false} PutFresh(pending: seq<ToolCall>, c: ToolCall)
    requires !HasId(pending, c.callId)
    ensures PutPending(pending, c) == pending + [c]
  {
    if pending != [] {
      assert pending[0].callId != c.callId;
      assert forall i :: 0 <= i < |pending[1..]| ==> pending[1..][i] == pending[i + 1];
      PutFresh(pending[1..], c);
    }
  }

  lemma {:induction false} PutAllFresh(pending: seq<ToolCall>, calls: seq<ToolCall>)
    requires DistinctIds(pending + calls)
    ensures PutAll(pending, calls) == pending + calls
    decreases calls
  {
    if calls != [] {
      var all := pending + calls;
      assert forall i :: 0 <= i < |pending| ==> all[i] == pending[i] && all[|pending|] == calls[0];
      PutFresh(pending, calls[0]);
      assert pending + [calls[0]] + calls[1..] == all;
      PutAllFresh(pending + [calls[0]], calls[1..]);
    }
  }

  lemma TraceAgrees(log: seq<Event>, e: Event, msgs: seq<Message>, todo: seq<ToolCall>)
    requires Agrees(log, msgs, todo) && todo != [] && IsTrace(e)
    ensures Accepts(log, e) && Agrees(log + [e], msgs, todo)
  {
    ReplayAppend(log, e);
  }

  lemma ResultAgrees(log: seq<Event>, r: ToolResult, msgs: seq<Message>, todo: seq<ToolCall>)
    requires Agrees(log, msgs, todo) && todo != []
    ensures Accepts(log, ResultEvent(todo[0], r, |todo| == 1))
    ensures Agrees(log + [ResultEvent(todo[0], r, |todo| == 1)], msgs + [ToolMessage(todo[0].callId, r)], todo[1..])
  {
    ReplayAppend(log, ResultEvent(todo[0], r, |todo| == 1));
  }

  lemma RequestAgrees(log: seq<Event>, it: nat, msgs: seq<Message>)
    requires Agrees(log, msgs, [])
    ensures Accepts(log, LlmRequested(it)) && Agrees(log + [LlmRequested(it)], msgs, [])
    ensures Replay(log + [LlmRequested(it)]).value.state.LlmWaiting?
  {
    ReplayAppend(log, LlmRequested(it));
  }

  lemma ResponseAgrees(log: seq<Event>, it: nat, r: Response, msgs: seq<Message>)
    requires Agrees(log, msgs, []) && Replay(log).value.state.LlmWaiting? && DistinctIds(r.calls)
    ensures Accepts(log, LlmResponded(it, r.content, r.calls))
    ensures var log' := log + [LlmResponded(it, r.content, r.calls)];
            if r.calls != [] then Agrees(log', msgs + [Assistant(r.content, r.calls)], r.calls)
            else Replay(log') == Some(Session(msgs + [Assistant(r.content, [])], [], Completed))
  {
    ReplayAppend(log, LlmResponded(it, r.content, r.calls));
    PutAllEmpty(r.calls);
  }

  lemma PutAllEmpty(calls: seq<ToolCall>)
    requires DistinctIds(calls)
    ensures PutAll([], calls) == calls
  {
    assert [] + calls == calls;
    PutAllFresh([], calls);
  }

  lemma RunBegins(w: World, p: Policy, sys: string, usr: string)
    ensures Accepts([], RunStarted(sys, usr)) && [] + [RunStarted(sys, usr)] == [RunStarted(sys, usr)]
    ensures Agrees([RunStarted(sys, usr)], [System(sys), User(usr)], [])
    ensures |Run(w, p, sys, usr).0| >= 1
  {
    ReplayAppend([], RunStarted(sys, usr));
    assert [] + [RunStarted(sys, usr)] == [RunStarted(sys, usr)];
    DriveExtends(w, p, false, [RunStarted(sys, usr)], [System(sys), User(usr)], Usage(0, {}), []);
  }

  lemma OneMoreLine(log: seq<Event>, lines: seq<Event>, i: nat)
    requires i < |lines|
    ensures log + lines[..i] + [lines[i]] == log + lines[..i + 1] && log + lines[..i] < log + lines
  {
    assert lines == lines[..i] + lines[i..];
  }

  /** What an answered call leaves: a tool message and a result line, both with the result's own fields. */
  predicate Answered(c: ToolCall, r: ToolResult, last: bool, m: Message, e: Event) {
    && m.Tool? && m.status == r.status && m.data == r.data && m.error == r.error && m.callId == c.callId && m.toolName == c.name
    && e.ToolResultReceived? && e.callId == c.callId && e.toolName == c.name && e.status == r.status
    && e.result == Some(r) && e.iterationComplete == last
  }

  /** One agent process working on one run id. */
  class Agent {
    const world: World
    const policy: Policy
    var log: seq<Event>       // the durable events of the run
    var lifetime: nat         // how many more appends this process survives
    ghost var executed: set<string>  // ids handed to the tool executor by this process

    constructor (w: World, p: Policy, durable: seq<Event>, appends: nat)
      ensures world == w && policy == p && log == durable && lifetime == appends && executed == {}
    {
      world, policy, log, lifetime, executed := w, p, durable, appends, {};
    }

    ghost function Horizon(): nat
      reads this`log, this`lifetime
    { |log| + lifetime }

    /** `CheckpointManager.log_event`: the state machine must accept, then one durable append. */
    method Append(e: Event) returns (alive: bool)
      requires Accepts(log, e)
      modifies this`log, this`lifetime
      ensures alive == (old(lifetime) > 0)
      ensures if alive then log == old(log) + [e] && lifetime == old(lifetime) - 1
              else log == old(log) && lifetime == 0
    {
      alive := lifetime > 0;
      if alive {
        log, lifetime := log + [e], lifetime - 1;
      }
    }

    /** The executor logs what it likes about the call, then the outcome is known. */
    method Execute(c: ToolCall, ghost msgs: seq<Message>, ghost todo: seq<ToolCall>) returns (alive: bool)
      requires Lawful(world) && Agrees(log, msgs, todo) && todo != []
      modifies this
      ensures executed == old(executed) + {c.callId}
      ensures Horizon() == old(Horizon())
      ensures if alive then log == old(log) + world.traces(old(log), c) && Agrees(log, msgs, todo)
              else lifetime == 0 && old(log) <= log < old(log) + world.traces(old(log), c)
    {
      executed := executed + {c.callId};
      var lines := world.traces(log, c);
      for i := 0 to |lines|
        invariant executed == old(executed) + {c.callId}
        invariant log == old(log) + lines[..i] && Agrees(log, msgs, todo) && Horizon() == old(Horizon())
      {
        TraceAgrees(log, lines[i], msgs, todo);
        OneMoreLine(old(log), lines, i);
        var ok := Append(lines[i]);
        if !ok {
          return false;
        }
      }
      assert lines[..|lines|] == lines;
      return true;
    }

    /** One turn of the tool loop: charge a new id, execute, log the result. */
    method CallTool(resumed: bool, c: ToolCall, last: bool, iterations: nat, used0: nat, seen0: set<string>,
                    messages0: seq<Message>, ghost todo: seq<ToolCall>)
      returns (stop: Option<Outcome>, messages: seq<Message>, used: nat, seen: set<string>)
      requires Lawful(world) && Agrees(log, messages0, todo) && todo != [] && todo[0] == c && last == (|todo| == 1)
      requires used0 == |seen0| <= policy.maxToolCalls && iterations <= policy.maxIterations
      requires executed <= seen0
      modifies this
      ensures used == |seen| <= policy.maxToolCalls && executed <= seen
      ensures executed == old(executed) + if Hands(policy, Usage(iterations, seen0), todo) then {c.callId} else {}
      ensures Horizon() == old(Horizon())
      ensures var g := Call(world, policy, resumed, old(log), messages0, Usage(iterations, seen0), todo);
              && Reached(g, log, Horizon(), stop)
              && (stop.None? ==> g.Next? && messages == g.msgs && seen == g.u.seen && Agrees(log, messages, todo[1..]))
      ensures stop.None? ==> seen == seen0 + {c.callId} && world.tool(c).Done? && |messages| == |messages0| + 1 && log != []
      ensures stop.None? ==> Answered(c, world.tool(c).result, |todo| == 1, messages[|messages0|], log[|log| - 1])
    {
      messages, used, seen := messages0, used0, seen0;
      ghost var g := Call(world, policy, resumed, log, messages0, Usage(iterations, seen0), todo);
      if c.callId !in seen {
        var halt := Decide(policy, iterations, used, 0, 1);
        if halt.Some? {
          var outcome := Halt(halt.value, messages, todo);
          return Some(outcome), messages, used, seen;
        }
        used := used + 1;
        seen := seen + {c.callId};
      }
      assert seen == seen0 + {c.callId};
      var r := world.tool(c);
      var ok := Execute(c, messages, todo);
      if !ok {
        Died(g, log, Horizon());
        return Some(Crashed), messages, used, seen;
      }
      match r {
        case ExecutorStateError =>
          var outcome := Halt("SYSTEM_STATE_ERROR", messages, todo);
          return Some(outcome), messages, used, seen;
        case Done(result) =>
          if resumed && InProgress(result) {
            return Some(Stopped), messages, used, seen;
          }
          ResultAgrees(log, result, messages, todo);
          ok := Append(ResultEvent(c, result, last));
          if !ok {
            return Some(Crashed), messages, used, seen;
          }
          assert Answered(c, result, last, ToolMessage(c.callId, result), ResultEvent(c, result, last));
          messages := messages + [ToolMessage(c.callId, result)];
          stop := None;
      }
    }

    /** The tool loop of one batch (or, on resume, of the pending calls). */
    method RunBatch(resumed: bool, calls: seq<ToolCall>, messages0: seq<Message>, iterations: nat, used0: nat, seen0: set<string>)
      returns (stop: Option<Outcome>, messages: seq<Message>, used: nat, seen: set<string>)
      requires Lawful(world) && Agrees(log, messages0, calls)
      requires used0 == |seen0| <= policy.maxToolCalls && iterations <= policy.maxIterations
      requires executed <= seen0
      modifies this
      ensures used == |seen| <= policy.maxToolCalls && executed <= seen
      ensures Horizon() == old(Horizon())
      ensures var whole := Drive(world, policy, resumed, old(log), messages0, Usage(iterations, seen0), calls);
              if stop.Some? then (log, stop.value) == Cut(whole, Horizon())
              else Agrees(log, messages, []) && Drive(world, policy, resumed, log, messages, Usage(iterations, seen), []) == whole
      ensures var all := old(executed) + Handed(world, policy, resumed, old(log), messages0, Usage(iterations, seen0), calls, Horizon());
              if stop.Some? then executed == all
              else executed + Handed(world, policy, resumed, log, messages, Usage(iterations, seen), [], Horizon()) == all
    {
      messages, used, seen, stop := messages0, used0, seen0, None;
      ghost var whole := Drive(world, policy, resumed, log, messages0, Usage(iterations, seen0), calls);
      ghost var all := executed + Handed(world, policy, resumed, log, messages0, Usage(iterations, seen0), calls, Horizon());
      assert calls[0..] == calls;
      for i := 0 to |calls|
        invariant used == |seen| <= policy.maxToolCalls && executed <= seen
        invariant Agrees(log, messages, calls[i..]) && Horizon() == old(Horizon())
        invariant Drive(world, policy, resumed, log, messages, Usage(iterations, seen), calls[i..]) == whole
        invariant executed + Handed(world, policy, resumed, log, messages, Usage(iterations, seen), calls[i..], Horizon()) == all
      {
        ghost var before := executed;
        ghost var todo, log0, msgs0, u := calls[i..], log, messages, Usage(iterations, seen);
        assert todo[1..] == calls[i + 1..];
        stop, messages, used, seen := CallTool(resumed, calls[i], i == |calls| - 1, iterations, used, seen, messages, todo);
        HandedStep(world, policy, resumed, log0, msgs0, u, todo, log, Horizon(), stop, before, executed);
        if stop.Some? {
          StopIsCut(world, policy, resumed, log0, msgs0, u, todo, log, Horizon(), stop);
          return;
        }
      }
      assert calls[|calls|..] == [];
      stop := None;
    }

    /** One turn of the outer loop up to the response: check the budget, log the request, ask. */
    method AskModel(messages0: seq<Message>, iterations0: nat, used: nat, ghost seen: set<string>)
      returns (stop: Option<Outcome>, messages: seq<Message>, iterations: nat, calls: seq<ToolCall>)
      requires Lawful(world) && Agrees(log, messages0, [])
      requires used == |seen| && iterations0 <= policy.maxIterations
      modifies this`log, this`lifetime
      ensures iterations <= policy.maxIterations
      ensures Horizon() == old(Horizon())
      ensures var g := Ask(world, policy, old(log), messages0, Usage(iterations0, seen));
              && Reached(g, log, Horizon(), stop)
              && (stop.None? ==> g == Next(log, messages, Usage(iterations, seen), calls)
                                 && iterations == iterations0 + 1 && Agrees(log, messages, calls))
    {
      messages, iterations, calls := messages0, iterations0, [];
      var halt := Decide(policy, iterations, used, 1, 0);
      if halt.Some? {
        var outcome := Halt(halt.value, messages0, []);
        stop := Some(outcome);
      } else {
        iterations := iterations + 1;
        stop, messages, calls := SendRequest(iterations, messages, seen);
      }
    }

    /** Halt an open run. */
    method Halt(reason: string, ghost msgs: seq<Message>, ghost todo: seq<ToolCall>) returns (outcome: Outcome)
      requires Agrees(log, msgs, todo)
      modifies this`log, this`lifetime
      ensures Horizon() == old(Horizon())
      ensures (log, outcome) == Cut((old(log) + [RunHalted(reason)], Stopped), Horizon())
    {
      ghost var whole := log + [RunHalted(reason)];
      assert whole[..|log|] == log;
      var ok := Append(RunHalted(reason));
      outcome := if ok then Stopped else Crashed;
    }

    /** Log the request, then hear what the model says. */
    method SendRequest(it: nat, messages0: seq<Message>, ghost seen: set<string>)
      returns (stop: Option<Outcome>, messages: seq<Message>, calls: seq<ToolCall>)
      requires Lawful(world) && Agrees(log, messages0, [])
      modifies this`log, this`lifetime
      ensures Horizon() == old(Horizon())
      ensures var g := Hear(world, old(log) + [LlmRequested(it)], messages0, Usage(it, seen));
              && Reached(g, log, Horizon(), stop)
              && (stop.None? ==> g == Next(log, messages, Usage(it, seen), calls) && Agrees(log, messages, calls))
    {
      messages, calls := messages0, [];
      RequestAgrees(log, it, messages);
      ghost var asked := log + [LlmRequested(it)];
      var ok := Append(LlmRequested(it));
      if !ok {
        HearExtends(world, asked, messages0, Usage(it, seen));
        Died(Hear(world, asked, messages0, Usage(it, seen)), log, Horizon());
        return Some(Crashed), messages, calls;
      }
      stop, messages, calls := HearModel(it, messages, seen);
    }

    /** Log the model's response and, when it asks for no tool, close the run. */
    method HearModel(it: nat, messages0: seq<Message>, ghost seen: set<string>)
      returns (stop: Option<Outcome>, messages: seq<Message>, calls: seq<ToolCall>)
      requires Lawful(world) && Agrees(log, messages0, []) && Replay(log).value.state.LlmWaiting?
      modifies this`log, this`lifetime
      ensures Horizon() == old(Horizon())
      ensures var g := Hear(world, old(log), messages0, Usage(it, seen));
              && Reached(g, log, Horizon(), stop)
              && (stop.None? ==> g == Next(log, messages, Usage(it, seen), calls) && Agrees(log, messages, calls))
    {
      messages, calls := messages0, [];
      ghost var g := Hear(world, log, messages0, Usage(it, seen));
      var reply := world.llm(messages);
      if !reply.Reply? {
        var ok := Append(if reply.ProviderFailure? then RunFailed else RunHalted("SYSTEM_STATE_ERROR"));
        if !ok {
          Died(g, log, Horizon());
        }
        return Some(if !ok then Crashed else if reply.ProviderFailure? then Stopped else Raised), messages, calls;
      }
      var r := reply.response;
      ResponseAgrees(log, it, r, messages);
      var ok := Append(LlmResponded(it, r.content, r.calls));
      if !ok {
        Died(g, log, Horizon());
        return Some(Crashed), messages, calls;
      }
      messages, calls := messages + [Assistant(r.content, r.calls)], r.calls;
      if r.calls == [] {
        var outcome := Finish(r.content);
        return Some(outcome), messages, calls;
      }
      stop := None;
    }

    /** Both closing events of a final answer. */
    method Finish(content: Option<string>) returns (outcome: Outcome)
      requires Replay(log).Some? && Replay(log).value.state.Completed?
      modifies this`log, this`lifetime
      ensures Horizon() == old(Horizon())
      ensures (log, outcome) == Cut((old(log) + [LlmFinalResponse(content)] + [RunCompleted], Answer(content)), Horizon())
    {
      ghost var whole := log + [LlmFinalResponse(content)] + [RunCompleted];
      assert whole[..|log|] == log && whole[..|log| + 1] == log + [LlmFinalResponse(content)];
      ReplayAppend(log, LlmFinalResponse(content));
      var ok := Append(LlmFinalResponse(content));
      if !ok {
        return Crashed;
      }
      ok := Append(RunCompleted);
      outcome := if ok then Answer(content) else Crashed;
    }

    /** The main loop shared by `_run_internal` and `_resume_internal`. */
    method MainLoop(resumed: bool, messages0: seq<Message>, iterations0: nat, used0: nat, seen0: set<string>)
      returns (outcome: Outcome, iterations: nat, used: nat, seen: set<string>)
      requires Lawful(world) && Agrees(log, messages0, [])
      requires used0 == |seen0| <= policy.maxToolCalls && iterations0 <= policy.maxIterations
      requires executed <= seen0
      modifies this
      ensures iterations <= policy.maxIterations
      ensures used == |seen| <= policy.maxToolCalls && executed <= seen
      ensures Horizon() == old(Horizon())
      ensures (log, outcome) == Cut(Drive(world, policy, resumed, old(log), messages0, Usage(iterations0, seen0), []), Horizon())
      ensures executed == old(executed) + Handed(world, policy, resumed, old(log), messages0, Usage(iterations0, seen0), [], Horizon())
    {
      var messages := messages0;
      iterations, used, seen := iterations0, used0, seen0;
      ghost var whole := Drive(world, policy, resumed, log, messages, Usage(iterations, seen), []);
      ghost var all := executed + Handed(world, policy, resumed, log, messages, Usage(iterations, seen), [], Horizon());
      while true
        invariant Agrees(log, messages, []) && Horizon() == old(Horizon())
        invariant iterations <= policy.maxIterations && used == |seen| <= policy.maxToolCalls && executed <= seen
        invariant Drive(world, policy, resumed, log, messages, Usage(iterations, seen), []) == whole
        invariant executed + Handed(world, policy, resumed, log, messages, Usage(iterations, seen), [], Horizon()) == all
        decreases policy.maxIterations - iterations
      {
        ghost var log0, msgs0, u := log, messages, Usage(iterations, seen);
        var stop, calls;
        stop, messages, iterations, calls := AskModel(messages, iterations, used, seen);
        HandedStep(world, policy, resumed, log0, msgs0, u, [], log, Horizon(), stop, executed, executed);
        if stop.Some? {
          StopIsCut(world, policy, resumed, log0, msgs0, u, [], log, Horizon(), stop);
          outcome := stop.value;
          return;
        }
        stop, messages, used, seen := RunBatch(resumed, calls, messages, iterations, used, seen);
        if stop.Some? {
          outcome := stop.value;
          return;
        }
      }
    }

    /** `_run_internal`. */
    method RunInternal(sys: string, usr: string) returns (outcome: Outcome, iterations: nat, used: nat, seen: set<string>)
      requires Lawful(world) && log == [] && executed == {}
      modifies this
      ensures iterations <= policy.maxIterations && used == |seen| <= policy.maxToolCalls && executed <= seen
      ensures (log, outcome) == Cut(Run(world, policy, sys, usr), old(lifetime))
      ensures executed == HandedByRun(world, policy, sys, usr, old(lifetime))
    {
      iterations, used, seen := 0, 0, {};
      var messages := [System(sys), User(usr)];
      RunBegins(world, policy, sys, usr);
      var ok := Append(RunStarted(sys, usr));
      if !ok {
        outcome := Crashed;
        return;
      }
      assert log == [RunStarted(sys, usr)] && Horizon() == old(lifetime);
      outcome, iterations, used, seen := MainLoop(false, messages, iterations, used, seen);
      assert executed == Handed(world, policy, false, [RunStarted(sys, usr)], [System(sys), User(usr)], Usage(0, {}), [], old(lifetime));
    }

    /** `_resume_internal`; `Resumable` is what replay of a log written by these methods gives. */
    method ResumeInternal() returns (outcome: Outcome, ghost usage: Usage)
      requires Lawful(world) && executed == {}
      requires Replay(log).Some? && !Replay(log).value.state.Terminal() && log != [] ==>
                 Agrees(log, Replay(log).value.messages, Replay(log).value.pending)
      modifies this
      ensures executed <= usage.seen
      ensures executed != {} ==> |usage.seen| <= policy.maxToolCalls
      ensures (log, outcome) == Cut(Resume(world, policy, old(log)), old(Horizon()))
      ensures executed == HandedByResume(world, policy, old(log), old(Horizon()))
    {
      usage := Usage(0, {});
      var session := ReconstructSession(log);
      if log == [] || session.None? {
        return Raised, usage;
      }
      var s := session.value;
      if s.state.Completed? {
        return Answer(CachedAnswer(s.messages)), usage;
      }
      if s.state.Terminal() {
        return Raised, usage;
      }
      outcome, usage := Continue(s);
    }

    /** The recoverable case: charge what the log shows, finish the pending calls, go on asking. */
    method Continue(s: Session) returns (outcome: Outcome, ghost usage: Usage)
      requires Lawful(world) && executed == {} && log != [] && Replay(log) == Some(s) && !s.state.Terminal()
      requires Agrees(log, s.messages, s.pending)
      modifies this
      ensures executed <= usage.seen
      ensures executed != {} ==> |usage.seen| <= policy.maxToolCalls
      ensures (log, outcome) == Cut(Resume(world, policy, old(log)), old(Horizon()))
      ensures executed == HandedByResume(world, policy, old(log), old(Horizon()))
    {
      var iterations, seen := ReconstructUsage(log);
      usage := Usage(iterations, seen);
      var halt := Decide(policy, iterations, |seen|, 0, 0);
      if halt.Some? {
        ResumeHalts(world, policy, log, s, halt.value, Horizon());
        var ok := Append(RunHalted(halt.value));
        outcome := if ok then Stopped else Crashed;
        return;
      }
      ResumeDrives(world, policy, log, s, usage, Horizon());
      outcome, usage := Proceed(s, iterations, seen);
    }

    /** The pending calls, then the main loop. */
    method Proceed(s: Session, iterations0: nat, seen0: set<string>) returns (outcome: Outcome, ghost usage: Usage)
      requires Lawful(world) && executed == {} && Agrees(log, s.messages, s.pending)
      requires iterations0 <= policy.maxIterations && |seen0| <= policy.maxToolCalls
      modifies this
      ensures executed <= usage.seen && |usage.seen| <= policy.maxToolCalls
      ensures (log, outcome) == Cut(Drive(world, policy, true, old(log), s.messages, Usage(iterations0, seen0), s.pending), old(Horizon()))
      ensures executed == Handed(world, policy, true, old(log), s.messages, Usage(iterations0, seen0), s.pending, old(Horizon()))
    {
      var stop, messages, used, seen := RunBatch(true, s.pending, s.messages, iterations0, |seen0|, seen0);
      usage := Usage(iterations0, seen);
      if stop.Some? {
        return stop.value, usage;
      }
      var iterations;
      outcome, iterations, used, seen := MainLoop(true, messages, iterations0, used, seen);
      usage := Usage(iterations, seen);
    }
  }
}
