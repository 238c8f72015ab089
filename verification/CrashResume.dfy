/** What a crash costs. The conversation a deterministic environment allows is one
    path of message lists; every log any mix of attempts can leave behind replays
    to a point of that path, so every attempt that answers gives the same history. */
module CrashResume {
  import opened Options
  import opened Checkpoints
  import opened AgentLoop

  // ---------------------------------------------------------------- the path

  /** The unanswered calls of the latest assistant message: each tool message answers the first. */
  function Unanswered(msgs: seq<Message>): seq<ToolCall> {
    if msgs == [] then []
    else match msgs[|msgs| - 1]
         case Assistant(_, calls) => calls
         case Tool(_, _, _, _, _) =>
           var before := Unanswered(msgs[..|msgs| - 1]);
           if before == [] then [] else before[1..]
         case _ => []
  }

  predicate Final(msgs: seq<Message>) {
    msgs != [] && msgs[|msgs| - 1].Assistant? && msgs[|msgs| - 1].calls == []
  }

  /** `m` is the one message the environment lets follow `msgs`. */
  ghost predicate Follows(w: World, msgs: seq<Message>, m: Message) {
    var open := Unanswered(msgs);
    && !Final(msgs)
    && if open != [] then w.tool(open[0]).Done? && m == ToolMessage(open[0].callId, w.tool(open[0]).result)
       else w.llm(msgs).Reply? && m == Assistant(w.llm(msgs).response.content, w.llm(msgs).response.calls)
  }

  function Before(msgs: seq<Message>, n: nat): seq<Message>
    requires n <= |msgs|
  {
    msgs[..n]
  }

  ghost predicate OnPath(w: World, sys: string, usr: string, msgs: seq<Message>) {
    && |msgs| >= 2 && msgs[0] == System(sys) && msgs[1] == User(usr)
    && forall n {:trigger Before(msgs, n)} :: 2 <= n < |msgs| ==> Follows(w, Before(msgs, n), msgs[n])
  }

  lemma PathAt(w: World, sys: string, usr: string, msgs: seq<Message>, n: nat)
    requires OnPath(w, sys, usr, msgs) && 2 <= n <= |msgs|
    ensures OnPath(w, sys, usr, Before(msgs, n))
  {
    var head := Before(msgs, n);
    forall k | 2 <= k < n ensures Follows(w, Before(head, k), head[k]) {
      assert Before(head, k) == Before(msgs, k);
    }
  }

  lemma PathStep(w: World, sys: string, usr: string, msgs: seq<Message>, m: Message)
    requires OnPath(w, sys, usr, msgs) && Follows(w, msgs, m)
    ensures OnPath(w, sys, usr, msgs + [m])
    ensures Unanswered(msgs + [m]) == if m.Assistant? then m.calls else Unanswered(msgs)[1..]
  {
    var longer := msgs + [m];
    assert longer[..|msgs|] == msgs;
    forall n | 2 <= n < |longer| ensures Follows(w, Before(longer, n), longer[n]) {
      assert Before(longer, n) == Before(msgs, n);
      assert n == |msgs| ==> Before(msgs, n) == msgs;
    }
  }

  /** Two points of the path agree as far as the shorter goes. */
  lemma {:induction false} PathPrefix(w: World, sys: string, usr: string, a: seq<Message>, b: seq<Message>)
    requires OnPath(w, sys, usr, a) && OnPath(w, sys, usr, b) && |a| <= |b|
    ensures a <= b && Before(b, |a|) == a
  {
    if |a| > 2 {
      var n := |a| - 1;
      PathAt(w, sys, usr, a, n);
      PathPrefix(w, sys, usr, Before(a, n), b);
      assert Before(a, n) == Before(b, n);
      assert a == Before(a, n) + [a[n]];
    }
  }

  /** The conversation ends in one way only, and nothing lies beyond its end. */
  lemma FinalUnique(w: World, sys: string, usr: string, a: seq<Message>, b: seq<Message>)
    requires OnPath(w, sys, usr, a) && OnPath(w, sys, usr, b) && Final(a)
    ensures |b| <= |a| && (Final(b) ==> a == b)
  {
    PathEnd(w, sys, usr, a, b);
    if Final(b) {
      PathEnd(w, sys, usr, b, a);
      PathPrefix(w, sys, usr, a, b);
    }
  }

  lemma PathEnd(w: World, sys: string, usr: string, a: seq<Message>, b: seq<Message>)
    requires OnPath(w, sys, usr, a) && OnPath(w, sys, usr, b) && Final(a)
    ensures |b| <= |a|
  {
    if |a| < |b| {
      PathPrefix(w, sys, usr, a, b);
    }
  }

  // ------------------------------------------------------- what an attempt appends

  /** The ids the executor has been asked to run, as far as the log shows. */
  function Executed(log: seq<Event>): set<string> {
    if log == [] then {}
    else Executed(log[..|log| - 1]) + (if log[|log| - 1].LlmResponded? then {} else EventIds(log[|log| - 1]))
  }

  lemma ExecutedAppend(log: seq<Event>, e: Event)
    ensures Executed(log + [e]) == Executed(log) + (if e.LlmResponded? then {} else EventIds(e))
  {
    assert (log + [e])[..|log|] == log;
  }

  lemma {:induction false} ExecutedWereSeen(log: seq<Event>)
    ensures Executed(log) <= IdsUsed(log)
  {
    if log != [] {
      ExecutedWereSeen(log[..|log| - 1]);
    }
  }

  predicate Attempts(e: Event, id: string) {
    (e.ToolAttemptStarted? && e.callId == id) || (e.ToolAttemptEnded? && e.callId == id) || (e.ToolResultReceived? && e.callId == id)
  }

  /** They are the ids of its attempts and results. */
  lemma {:induction false} ExecutedExactly(log: seq<Event>, id: string)
    ensures id in Executed(log) <==> exists i :: 0 <= i < |log| && Attempts(log[i], id)
  {
    if log != [] {
      var n := |log| - 1;
      ExecutedExactly(log[..n], id);
      assert forall i :: 0 <= i < n ==> log[..n][i] == log[i];
      assert id in Executed(log) <==> id in Executed(log[..n]) || Attempts(log[n], id);
    }
  }

  /** The events a session may go through. */
  ghost predicate Due(w: World, s: Session, e: Event) {
    if IsTrace(e) then s.state.ToolExecuting? && s.pending != [] && e.callId == s.pending[0].callId
    else match e
         case RunHalted(_) => !s.state.Terminal()
         case RunFailed => !s.state.Terminal()
         case LlmRequested(_) => s.state.Running? || s.state.LlmWaiting?
         case LlmResponded(_, content, calls) => s.state.LlmWaiting? && w.llm(s.messages) == Reply(Response(content, calls))
         case ToolResultReceived(id, _, _, result, last) =>
           && s.state.ToolExecuting? && s.pending != [] && result.Some? && id == s.pending[0].callId
           && w.tool(s.pending[0]) == Done(result.value) && last == (|s.pending| == 1)
         case LlmFinalResponse(_) => s.state.Completed?
         case RunCompleted => s.state.Completed?
         case _ => false
  }

  predicate JustAsked(log: seq<Event>) { log != [] && log[|log| - 1].LlmRequested? }

  /** The events policy `p` pays for; a response is paid for by the request just before it. */
  ghost predicate Expense(p: Policy, log: seq<Event>, e: Event) {
    && (e.LlmRequested? ==> e.iteration == IterationsUsed(log) + 1 <= p.maxIterations)
    && (e.LlmResponded? ==> e.iteration == IterationsUsed(log) && JustAsked(log))
    && (IsTrace(e) || e.ToolResultReceived? ==> |Executed(log) + {e.callId}| <= p.maxToolCalls)
  }

  /** The events an attempt under policy `p` may append to `log`. */
  ghost predicate Expected(w: World, p: Policy, log: seq<Event>, e: Event) {
    Replay(log).Some? && Due(w, Replay(log).value, e) && Expense(p, log, e)
  }

  /** No expected event breaks `P`. */
  ghost predicate Kept(w: World, p: Policy, P: seq<Event> -> bool) {
    forall log, e :: P(log) && Expected(w, p, log, e) ==> P(log + [e])
  }

  function First(n: nat, whole: seq<Event>): seq<Event>
    requires n <= |whole|
  {
    whole[..n]
  }

  /** Every cut of `whole` at or after `k` satisfies `P`. */
  ghost predicate AllCuts(P: seq<Event> -> bool, whole: seq<Event>, k: nat) {
    k <= |whole| && forall n :: k <= n <= |whole| ==> P(First(n, whole))
  }

  lemma CutsAppend(w: World, p: Policy, P: seq<Event> -> bool, whole: seq<Event>, k: nat, e: Event)
    requires Kept(w, p, P) && AllCuts(P, whole, k) && Expected(w, p, whole, e)
    ensures AllCuts(P, whole + [e], k)
  {
    assert First(|whole|, whole) == whole;
    forall n | k <= n <= |whole| + 1 ensures P(First(n, whole + [e])) {
      if n <= |whole| {
        assert First(n, whole + [e]) == First(n, whole);
      } else {
        assert First(n, whole + [e]) == whole + [e];
      }
    }
  }

  lemma CutsJoin(P: seq<Event> -> bool, a: seq<Event>, b: seq<Event>, k: nat)
    requires AllCuts(P, a, k) && a <= b && AllCuts(P, b, |a|)
    ensures AllCuts(P, b, k)
  {
    forall n | k <= n <= |b| ensures P(First(n, b)) {
      if n <= |a| {
        assert First(n, b) == First(n, a);
      }
    }
  }

  /** The usage a process keeps in memory matches its log and its policy. */
  ghost predicate Tracks(p: Policy, log: seq<Event>, u: Usage) {
    u.iterations == IterationsUsed(log) && Executed(log) <= u.seen && |u.seen| <= p.maxToolCalls
  }

  lemma TrackId(p: Policy, log: seq<Event>, u: Usage, e: Event, id: string)
    requires Tracks(p, log, u) && id in u.seen && EventIds(e) <= {id} && !e.LlmResponded? && !e.LlmRequested?
    ensures |Executed(log) + {id}| <= p.maxToolCalls && Tracks(p, log + [e], u)
  {
    UsageAppend(log, e);
    ExecutedAppend(log, e);
    SubsetSize(Executed(log) + {id}, u.seen);
  }

  lemma SubsetSize<T>(a: set<T>, b: set<T>)
    requires a <= b
    ensures |a| <= |b|
  {
    assert b == a + (b - a);
  }

  lemma TraceKeeps(w: World, p: Policy, P: seq<Event> -> bool, log: seq<Event>, e: Event, msgs: seq<Message>, u: Usage, todo: seq<ToolCall>, k: nat)
    requires Kept(w, p, P) && AllCuts(P, log, k) && Agrees(log, msgs, todo) && Tracks(p, log, u)
    requires todo != [] && IsTrace(e) && e.callId == todo[0].callId && e.callId in u.seen
    ensures AllCuts(P, log + [e], k) && Agrees(log + [e], msgs, todo) && Tracks(p, log + [e], u)
  {
    TrackId(p, log, u, e, todo[0].callId);
    CutsAppend(w, p, P, log, k, e);
    TraceAgrees(log, e, msgs, todo);
  }

  lemma {:induction false} TracesKeep(w: World, p: Policy, P: seq<Event> -> bool, log: seq<Event>, lines: seq<Event>,
                                      msgs: seq<Message>, u: Usage, todo: seq<ToolCall>, k: nat)
    requires Kept(w, p, P) && AllCuts(P, log, k) && Agrees(log, msgs, todo) && Tracks(p, log, u)
    requires todo != [] && todo[0].callId in u.seen
    requires forall i :: 0 <= i < |lines| ==> IsTrace(lines[i]) && lines[i].callId == todo[0].callId
    ensures AllCuts(P, log + lines, k) && Agrees(log + lines, msgs, todo) && Tracks(p, log + lines, u)
    decreases lines
  {
    if lines == [] {
      assert log + lines == log;
    } else {
      TraceKeeps(w, p, P, log, lines[0], msgs, u, todo, k);
      assert log + [lines[0]] + lines[1..] == log + lines;
      TracesKeep(w, p, P, log + [lines[0]], lines[1..], msgs, u, todo, k);
    }
  }

  lemma ResultKeeps(w: World, p: Policy, P: seq<Event> -> bool, log: seq<Event>, r: ToolResult, msgs: seq<Message>, u: Usage, todo: seq<ToolCall>, k: nat)
    requires Kept(w, p, P) && AllCuts(P, log, k) && Agrees(log, msgs, todo) && Tracks(p, log, u)
    requires todo != [] && todo[0].callId in u.seen && w.tool(todo[0]) == Done(r)
    ensures var log' := log + [ResultEvent(todo[0], r, |todo| == 1)];
            AllCuts(P, log', k) && Agrees(log', msgs + [ToolMessage(todo[0].callId, r)], todo[1..]) && Tracks(p, log', u)
  {
    var e := ResultEvent(todo[0], r, |todo| == 1);
    TrackId(p, log, u, e, todo[0].callId);
    CutsAppend(w, p, P, log, k, e);
    ResultAgrees(log, r, msgs, todo);
  }

  lemma ExecutedKeeps(w: World, p: Policy, P: seq<Event> -> bool, log: seq<Event>, msgs: seq<Message>, v: Usage, todo: seq<ToolCall>)
    requires Lawful(w) && Kept(w, p, P) && P(log) && Agrees(log, msgs, todo) && Tracks(p, log, v) && todo != [] && todo[0].callId in v.seen
    ensures var traced := log + w.traces(log, todo[0]);
            AllCuts(P, traced, |log|) && Agrees(traced, msgs, todo) && Tracks(p, traced, v)
  {
    assert First(|log|, log) == log;
    TracesKeep(w, p, P, log, w.traces(log, todo[0]), msgs, v, todo, |log|);
  }

  lemma RefusedKeeps(w: World, p: Policy, P: seq<Event> -> bool, log: seq<Event>, reason: string)
    requires Kept(w, p, P) && P(log) && Replay(log).Some? && !Replay(log).value.state.Terminal()
    ensures StepKept(p, P, End(log + [RunHalted(reason)], Stopped), |log|)
  {
    HaltKeeps(w, p, P, log, reason);
  }

  lemma BrokenKeeps(w: World, p: Policy, P: seq<Event> -> bool, traced: seq<Event>, msgs: seq<Message>, todo: seq<ToolCall>, k: nat)
    requires Kept(w, p, P) && AllCuts(P, traced, k) && Agrees(traced, msgs, todo)
    ensures StepKept(p, P, End(traced + [RunHalted("SYSTEM_STATE_ERROR")], Stopped), k)
  {
    CutsAppend(w, p, P, traced, k, RunHalted("SYSTEM_STATE_ERROR"));
  }

  lemma AnsweredKeeps(w: World, p: Policy, P: seq<Event> -> bool, traced: seq<Event>, r: ToolResult, msgs: seq<Message>, v: Usage, todo: seq<ToolCall>, k: nat)
    requires Kept(w, p, P) && AllCuts(P, traced, k) && Agrees(traced, msgs, todo) && Tracks(p, traced, v)
    requires todo != [] && todo[0].callId in v.seen && w.tool(todo[0]) == Done(r)
    ensures StepKept(p, P, End(traced, Stopped), k)
    ensures StepKept(p, P, Next(traced + [ResultEvent(todo[0], r, |todo| == 1)], msgs + [ToolMessage(todo[0].callId, r)], v, todo[1..]), k)
  {
    ResultKeeps(w, p, P, traced, r, msgs, v, todo, k);
  }

  lemma CallKeeps(w: World, p: Policy, P: seq<Event> -> bool, resumed: bool, log: seq<Event>, msgs: seq<Message>, u: Usage, todo: seq<ToolCall>)
    requires Lawful(w) && Kept(w, p, P) && P(log) && Agrees(log, msgs, todo) && Tracks(p, log, u) && todo != []
    ensures StepKept(p, P, Call(w, p, resumed, log, msgs, u, todo), |log|)
  {
    var c := todo[0];
    var halt := if c.callId in u.seen then None else Decide(p, u.iterations, |u.seen|, 0, 1);
    if halt.Some? {
      RefusedKeeps(w, p, P, log, halt.value);
    } else {
      ChargeTracks(p, log, u, c.callId);
      ExecutedKeeps(w, p, P, log, msgs, Usage(u.iterations, u.seen + {c.callId}), todo);
      OutcomeKeeps(w, p, P, log + w.traces(log, c), msgs, Usage(u.iterations, u.seen + {c.callId}), todo, |log|);
    }
  }

  /** Charging an id that is seen already, or that still fits, keeps memory in line with the log. */
  lemma ChargeTracks(p: Policy, log: seq<Event>, u: Usage, id: string)
    requires Tracks(p, log, u) && (id in u.seen || |u.seen| + 1 <= p.maxToolCalls)
    ensures Tracks(p, log, Usage(u.iterations, u.seen + {id}))
  {
    assert id in u.seen ==> u.seen + {id} == u.seen;
  }

  /** What may become of a call once the executor is done with it. */
  lemma OutcomeKeeps(w: World, p: Policy, P: seq<Event> -> bool, traced: seq<Event>, msgs: seq<Message>, v: Usage, todo: seq<ToolCall>, k: nat)
    requires Kept(w, p, P) && AllCuts(P, traced, k) && Agrees(traced, msgs, todo) && Tracks(p, traced, v)
    requires todo != [] && todo[0].callId in v.seen
    ensures w.tool(todo[0]).ExecutorStateError? ==> StepKept(p, P, End(traced + [RunHalted("SYSTEM_STATE_ERROR")], Stopped), k)
    ensures w.tool(todo[0]).Done? ==>
              var r := w.tool(todo[0]).result;
              && StepKept(p, P, End(traced, Stopped), k)
              && StepKept(p, P, Next(traced + [ResultEvent(todo[0], r, |todo| == 1)], msgs + [ToolMessage(todo[0].callId, r)], v, todo[1..]), k)
  {
    if w.tool(todo[0]).Done? {
      AnsweredKeeps(w, p, P, traced, w.tool(todo[0]).result, msgs, v, todo, k);
    } else {
      BrokenKeeps(w, p, P, traced, msgs, todo, k);
    }
  }

  /** The log is complete and the last message carries exactly this answer. */
  ghost predicate AnsweredBy(log: seq<Event>, content: Option<string>) {
    && Replay(log).Some? && Replay(log).value.state.Completed?
    && var m := Replay(log).value.messages; m != [] && m[|m| - 1] == Assistant(content, [])
  }

  lemma FinishKeeps(w: World, p: Policy, P: seq<Event> -> bool, told: seq<Event>, k: nat, content: Option<string>)
    requires Kept(w, p, P) && AllCuts(P, told, k) && AnsweredBy(told, content)
    ensures var log := told + [LlmFinalResponse(content)] + [RunCompleted]; AllCuts(P, log, k) && AnsweredBy(log, content)
  {
    var said := told + [LlmFinalResponse(content)];
    ReplayAppend(told, LlmFinalResponse(content));
    CutsAppend(w, p, P, told, k, LlmFinalResponse(content));
    ReplayAppend(said, RunCompleted);
    CutsAppend(w, p, P, said, k, RunCompleted);
  }

  lemma TrackResponse(p: Policy, log: seq<Event>, u: Usage, content: Option<string>, calls: seq<ToolCall>)
    requires Tracks(p, log, u)
    ensures Tracks(p, log + [LlmResponded(u.iterations, content, calls)], u)
  {
    UsageAppend(log, LlmResponded(u.iterations, content, calls));
    ExecutedAppend(log, LlmResponded(u.iterations, content, calls));
  }

  lemma TrackRequest(p: Policy, log: seq<Event>, u: Usage)
    requires Tracks(p, log, u)
    ensures Tracks(p, log + [LlmRequested(u.iterations + 1)], Usage(u.iterations + 1, u.seen))
  {
    UsageAppend(log, LlmRequested(u.iterations + 1));
    ExecutedAppend(log, LlmRequested(u.iterations + 1));
  }

  /** A live process that has just asked: its log, and what it remembers. */
  ghost predicate Waiting(p: Policy, P: seq<Event> -> bool, log: seq<Event>, msgs: seq<Message>, u: Usage) {
    P(log) && Agrees(log, msgs, []) && Tracks(p, log, u) && Replay(log).value.state.LlmWaiting? && JustAsked(log)
  }

  lemma WaitingExpects(w: World, p: Policy, P: seq<Event> -> bool, log: seq<Event>, msgs: seq<Message>, u: Usage, e: Event)
    requires Waiting(p, P, log, msgs, u)
    requires e.RunFailed? || e.RunHalted? || (w.llm(msgs).Reply? && var r := w.llm(msgs).response; e == LlmResponded(u.iterations, r.content, r.calls))
    ensures Expected(w, p, log, e)
  {
  }

  lemma OneMore(w: World, p: Policy, P: seq<Event> -> bool, log: seq<Event>, e: Event)
    requires Kept(w, p, P) && P(log) && Expected(w, p, log, e)
    ensures AllCuts(P, log + [e], |log|)
  {
    assert First(|log|, log) == log;
    CutsAppend(w, p, P, log, |log|, e);
  }

  lemma ToldState(log: seq<Event>, msgs: seq<Message>, it: nat, r: Response)
    requires Agrees(log, msgs, []) && Replay(log).value.state.LlmWaiting? && DistinctIds(r.calls)
    ensures var told := log + [LlmResponded(it, r.content, r.calls)];
            if r.calls == [] then AnsweredBy(told, r.content) else Agrees(told, msgs + [Assistant(r.content, r.calls)], r.calls)
  {
    ResponseAgrees(log, it, r, msgs);
  }

  lemma ReplyKeeps(w: World, p: Policy, P: seq<Event> -> bool, log: seq<Event>, msgs: seq<Message>, u: Usage, r: Response)
    requires Lawful(w) && Kept(w, p, P) && Waiting(p, P, log, msgs, u) && w.llm(msgs) == Reply(r)
    ensures var told := log + [LlmResponded(u.iterations, r.content, r.calls)];
            && AllCuts(P, told, |log|) && Tracks(p, told, u)
            && if r.calls == [] then AnsweredBy(told, r.content) else Agrees(told, msgs + [Assistant(r.content, r.calls)], r.calls)
  {
    var e := LlmResponded(u.iterations, r.content, r.calls);
    WaitingExpects(w, p, P, log, msgs, u, e);
    OneMore(w, p, P, log, e);
    ToldState(log, msgs, u.iterations, r);
    TrackResponse(p, log, u, r.content, r.calls);
  }

  lemma HearKeeps(w: World, p: Policy, P: seq<Event> -> bool, log: seq<Event>, msgs: seq<Message>, u: Usage)
    requires Lawful(w) && Kept(w, p, P) && Waiting(p, P, log, msgs, u)
    ensures StepKept(p, P, Hear(w, log, msgs, u), |log|)
  {
    if w.llm(msgs).Reply? {
      var r := w.llm(msgs).response;
      ReplyKeeps(w, p, P, log, msgs, u, r);
      if r.calls == [] {
        FinishKeeps(w, p, P, log + [LlmResponded(u.iterations, r.content, r.calls)], |log|, r.content);
      }
    } else {
      var e := if w.llm(msgs).ProviderFailure? then RunFailed else RunHalted("SYSTEM_STATE_ERROR");
      WaitingExpects(w, p, P, log, msgs, u, e);
      OneMore(w, p, P, log, e);
    }
  }

  /** All cuts of a step's log satisfy `P`, and the next step may start from its end. */
  ghost predicate StepKept(p: Policy, P: seq<Event> -> bool, g: Progress, k: nat) {
    && AllCuts(P, g.log, k)
    && (g.Next? ==> Agrees(g.log, g.msgs, g.todo) && Tracks(p, g.log, g.u))
    && (g.End? ==> !g.outcome.Crashed?)
    && (g.End? && g.outcome.Answer? ==> AnsweredBy(g.log, g.outcome.content))
  }

  lemma RequestKeeps(w: World, p: Policy, P: seq<Event> -> bool, log: seq<Event>, msgs: seq<Message>, u: Usage)
    requires Kept(w, p, P) && P(log) && Agrees(log, msgs, []) && Tracks(p, log, u) && u.iterations < p.maxIterations
    ensures var asked := log + [LlmRequested(u.iterations + 1)];
            AllCuts(P, asked, |log|) && Waiting(p, P, asked, msgs, Usage(u.iterations + 1, u.seen))
  {
    OneMore(w, p, P, log, LlmRequested(u.iterations + 1));
    CutsEnd(P, log + [LlmRequested(u.iterations + 1)], |log|);
    RequestAgrees(log, u.iterations + 1, msgs);
    TrackRequest(p, log, u);
  }

  lemma HeardKeeps(w: World, p: Policy, P: seq<Event> -> bool, k: nat, asked: seq<Event>, msgs: seq<Message>, v: Usage)
    requires Lawful(w) && Kept(w, p, P) && AllCuts(P, asked, k) && Waiting(p, P, asked, msgs, v)
    ensures StepKept(p, P, Hear(w, asked, msgs, v), k)
  {
    HearKeeps(w, p, P, asked, msgs, v);
    StepJoin(p, P, asked, Hear(w, asked, msgs, v), k);
  }

  lemma HaltKeeps(w: World, p: Policy, P: seq<Event> -> bool, log: seq<Event>, reason: string)
    requires Kept(w, p, P) && P(log) && Replay(log).Some? && !Replay(log).value.state.Terminal()
    ensures AllCuts(P, log + [RunHalted(reason)], |log|)
  {
    OneMore(w, p, P, log, RunHalted(reason));
  }

  lemma StepJoin(p: Policy, P: seq<Event> -> bool, log: seq<Event>, g: Progress, k: nat)
    requires AllCuts(P, log, k) && log <= g.log && StepKept(p, P, g, |log|)
    ensures StepKept(p, P, g, k)
  {
    CutsJoin(P, log, g.log, k);
  }

  lemma AskKeeps(w: World, p: Policy, P: seq<Event> -> bool, log: seq<Event>, msgs: seq<Message>, u: Usage)
    requires Lawful(w) && Kept(w, p, P) && P(log) && Agrees(log, msgs, []) && Tracks(p, log, u)
    ensures StepKept(p, P, Ask(w, p, log, msgs, u), |log|)
  {
    var halt := Decide(p, u.iterations, |u.seen|, 1, 0);
    if halt.Some? {
      HaltKeeps(w, p, P, log, halt.value);
    } else {
      RequestKeeps(w, p, P, log, msgs, u);
      HeardKeeps(w, p, P, |log|, log + [LlmRequested(u.iterations + 1)], msgs, Usage(u.iterations + 1, u.seen));
    }
  }

  /** All cuts of an attempt's log from `k` on satisfy `P`; if it answers, the log is complete and, unless
      the answer came from the cache, its last message carries that answer. */
  ghost predicate Attempted(P: seq<Event> -> bool, k: nat, cached: bool, r: (seq<Event>, Outcome)) {
    && AllCuts(P, r.0, k)
    && (r.1.Answer? ==> Replay(r.0).Some? && Replay(r.0).value.state.Completed?)
    && (r.1.Answer? && !cached ==> AnsweredBy(r.0, r.1.content))
  }

  lemma {:induction false} DriveKeeps(w: World, p: Policy, P: seq<Event> -> bool, resumed: bool, log: seq<Event>, msgs: seq<Message>, u: Usage, todo: seq<ToolCall>)
    requires Lawful(w) && Kept(w, p, P) && P(log) && Agrees(log, msgs, todo) && Tracks(p, log, u)
    ensures Attempted(P, |log|, false, Drive(w, p, resumed, log, msgs, u, todo))
    decreases if p.maxIterations > u.iterations then p.maxIterations - u.iterations else 0, |todo|
  {
    var g := Step(w, p, resumed, log, msgs, u, todo);
    if todo == [] {
      AskKeeps(w, p, P, log, msgs, u);
    } else {
      CallKeeps(w, p, P, resumed, log, msgs, u, todo);
    }
    assert First(|g.log|, g.log) == g.log;
    if g.Next? {
      DriveKeeps(w, p, P, resumed, g.log, g.msgs, g.u, g.todo);
      DriveExtends(w, p, resumed, g.log, g.msgs, g.u, g.todo);
      CutsJoin(P, g.log, Drive(w, p, resumed, g.log, g.msgs, g.u, g.todo).0, |log|);
    }
  }

  // -------------------------------------------------------- any number of crashes

  /** One process: its policy, and how many events it manages to append before it dies. */
  datatype Attempt = Attempt(policy: Policy, lifetime: nat)

  /** The log once one more process has resumed and died. */
  function Resumed(w: World, a: Attempt, log: seq<Event>): seq<Event> {
    Cut(Resume(w, a.policy, log), |log| + a.lifetime).0
  }

  function Continued(w: World, log: seq<Event>, attempts: seq<Attempt>): seq<Event>
    decreases attempts
  {
    if attempts == [] then log else Continued(w, Resumed(w, attempts[0], log), attempts[1..])
  }

  /** The log after a first run and any number of resumes, each cut wherever its process died. */
  function After(w: World, sys: string, usr: string, first: Attempt, more: seq<Attempt>): seq<Event> {
    Continued(w, Cut(Run(w, first.policy, sys, usr), first.lifetime).0, more)
  }

  /** The log replays, and if it is open its session is one a live process could hold. */
  ghost predicate Resumable(log: seq<Event>) {
    && Replay(log).Some?
    && (!Replay(log).value.state.Terminal() ==> Agrees(log, Replay(log).value.messages, Replay(log).value.pending))
  }

  ghost predicate Coherent(P: seq<Event> -> bool) {
    forall log {:trigger Resumable(log)} :: P(log) ==> Resumable(log)
  }

  predicate Complete(log: seq<Event>) { Replay(log).Some? && Replay(log).value.state.Completed? }

  lemma RunKeeps(w: World, p: Policy, P: seq<Event> -> bool, sys: string, usr: string)
    requires Lawful(w) && Kept(w, p, P) && P([RunStarted(sys, usr)])
    ensures Attempted(P, 1, false, Run(w, p, sys, usr))
  {
    var start := [RunStarted(sys, usr)];
    ReplayAppend([], RunStarted(sys, usr));
    assert [] + start == start;
    DriveKeeps(w, p, P, false, start, [System(sys), User(usr)], Usage(0, {}), []);
  }

  lemma ResumeKeeps(w: World, p: Policy, P: seq<Event> -> bool, log: seq<Event>)
    requires Lawful(w) && Kept(w, p, P) && Coherent(P) && P(log) && log != []
    ensures Attempted(P, |log|, Complete(log), Resume(w, p, log))
  {
    assert Resumable(log);
    assert First(|log|, log) == log;
    var s := Replay(log).value;
    if !s.state.Terminal() {
      var u := Usage(IterationsUsed(log), IdsUsed(log));
      var halt := Decide(p, u.iterations, |u.seen|, 0, 0);
      if halt.Some? {
        CutsAppend(w, p, P, log, |log|, RunHalted(halt.value));
      } else {
        ExecutedWereSeen(log);
        DriveKeeps(w, p, P, true, log, s.messages, u, s.pending);
      }
    }
  }

  lemma CutKeeps(P: seq<Event> -> bool, cached: bool, r: (seq<Event>, Outcome), k: nat, n: nat)
    requires Attempted(P, k, cached, r) && k <= n
    ensures P(Cut(r, n).0)
  {
    assert |r.0| <= n ==> First(|r.0|, r.0) == r.0;
    assert n < |r.0| ==> First(n, r.0) == r.0[..n];
  }

  lemma CutsHold(P: seq<Event> -> bool, cached: bool, r: (seq<Event>, Outcome), k: nat, lifetime: nat, log: seq<Event>)
    requires Attempted(P, k, cached, r) && log == Cut(r, k + lifetime).0
    ensures P(log)
  {
    CutKeeps(P, cached, r, k, k + lifetime);
  }

  lemma ResumedIsCut(w: World, a: Attempt, log: seq<Event>, r: (seq<Event>, Outcome))
    requires r == Resume(w, a.policy, log)
    ensures Resumed(w, a, log) == Cut(r, |log| + a.lifetime).0
  {
  }

  lemma ResumedHolds(w: World, a: Attempt, P: seq<Event> -> bool, log: seq<Event>)
    requires Lawful(w) && Kept(w, a.policy, P) && Coherent(P) && log != [] && P(log)
    ensures P(Resumed(w, a, log))
  {
    ResumeKeeps(w, a.policy, P, log);
    ResumedIsCut(w, a, log, Resume(w, a.policy, log));
    CutsHold(P, Complete(log), Resume(w, a.policy, log), |log|, a.lifetime, Resumed(w, a, log));
  }

  /** A log nobody has written to, or one that satisfies `P`. */
  predicate NilOr(P: seq<Event> -> bool, log: seq<Event>) { log == [] || P(log) }

  lemma ResumedKeeps(w: World, a: Attempt, P: seq<Event> -> bool, log: seq<Event>)
    requires Lawful(w) && Kept(w, a.policy, P) && Coherent(P) && NilOr(P, log)
    ensures NilOr(P, Resumed(w, a, log))
  {
    if log != [] {
      ResumedHolds(w, a, P, log);
    } else {
      assert Resume(w, a.policy, log) == (log, Raised);
    }
  }

  lemma {:induction false} ContinuedKeeps(w: World, P: seq<Event> -> bool, log: seq<Event>, attempts: seq<Attempt>)
    requires Lawful(w) && Coherent(P) && NilOr(P, log)
    requires forall a :: a in attempts ==> Kept(w, a.policy, P)
    ensures NilOr(P, Continued(w, log, attempts))
    decreases attempts
  {
    if attempts != [] {
      ResumedKeeps(w, attempts[0], P, log);
      ContinuedKeeps(w, P, Resumed(w, attempts[0], log), attempts[1..]);
    }
  }

  /** Whatever no expected event breaks holds of the log after any attempts, each cut anywhere. */
  lemma AfterKeeps(w: World, P: seq<Event> -> bool, sys: string, usr: string, first: Attempt, more: seq<Attempt>)
    requires Lawful(w) && Coherent(P) && P([RunStarted(sys, usr)])
    requires Kept(w, first.policy, P) && forall a :: a in more ==> Kept(w, a.policy, P)
    ensures NilOr(P, After(w, sys, usr, first, more))
  {
    RunKeeps(w, first.policy, P, sys, usr);
    var whole := Run(w, first.policy, sys, usr);
    if first.lifetime > 0 {
      CutKeeps(P, false, whole, 1, first.lifetime);
    }
    ContinuedKeeps(w, P, Cut(whole, first.lifetime).0, more);
  }

  // ------------------------------------------------------------- the refinement

  /** The session is a point of the path, with exactly that point's open calls pending. */
  ghost predicate AtPoint(w: World, sys: string, usr: string, s: Session) {
    && OnPath(w, sys, usr, s.messages)
    && s.pending == Unanswered(s.messages)
    && match s.state
       case Pending => false
       case Running => s.pending == [] && !Final(s.messages)
       case LlmWaiting => s.pending == [] && !Final(s.messages)
       case ToolExecuting => s.pending != []
       case Completed => Final(s.messages)
       case Failed => true
       case Halted => true
  }

  ghost predicate Faithful(w: World, sys: string, usr: string, log: seq<Event>) {
    Replay(log).Some? && AtPoint(w, sys, usr, Replay(log).value)
  }

  ghost function IsFaithful(w: World, sys: string, usr: string): seq<Event> -> bool {
    log => Faithful(w, sys, usr, log)
  }

  lemma ResponsePoint(w: World, sys: string, usr: string, s: Session, e: Event)
    requires Lawful(w) && AtPoint(w, sys, usr, s) && Due(w, s, e) && e.LlmResponded?
    ensures ApplyEvent(s, e).Some? && AtPoint(w, sys, usr, ApplyEvent(s, e).value)
  {
    var m := Assistant(e.content, e.calls);
    assert ApplyEvent(s, e) == Some(Session(s.messages + [m], e.calls, if e.calls != [] then ToolExecuting else Completed)) by {
      PutAllEmpty(e.calls);
    }
    PathStep(w, sys, usr, s.messages, m);
  }

  lemma ResultPoint(w: World, sys: string, usr: string, s: Session, e: Event)
    requires AtPoint(w, sys, usr, s) && Due(w, s, e) && e.ToolResultReceived?
    ensures ApplyEvent(s, e).Some? && AtPoint(w, sys, usr, ApplyEvent(s, e).value)
  {
    var m := ToolMessage(e.callId, e.result.value);
    ResultApplies(s, e);
    PathStep(w, sys, usr, s.messages, m);
    assert !Final(s.messages + [m]);
  }

  lemma ResultApplies(s: Session, e: Event)
    requires s.state.ToolExecuting? && s.pending != [] && e.ToolResultReceived? && e.result.Some? && e.callId == s.pending[0].callId
    ensures ApplyEvent(s, e) == Some(Session(s.messages + [ToolMessage(e.callId, e.result.value)], s.pending[1..],
                                             if e.iterationComplete then LlmWaiting else ToolExecuting))
  {
  }

  lemma PointStep(w: World, sys: string, usr: string, s: Session, e: Event)
    requires Lawful(w) && AtPoint(w, sys, usr, s) && Due(w, s, e)
    ensures ApplyEvent(s, e).Some? && AtPoint(w, sys, usr, ApplyEvent(s, e).value)
  {
    if e.LlmResponded? {
      ResponsePoint(w, sys, usr, s, e);
    } else if e.ToolResultReceived? {
      ResultPoint(w, sys, usr, s, e);
    }
  }

  lemma FaithfulStep(w: World, p: Policy, sys: string, usr: string, log: seq<Event>, e: Event)
    requires Lawful(w) && Faithful(w, sys, usr, log) && Expected(w, p, log, e)
    ensures Faithful(w, sys, usr, log + [e])
  {
    PointStep(w, sys, usr, Replay(log).value, e);
    ReplayAppend(log, e);
  }

  lemma FaithfulKept(w: World, p: Policy, sys: string, usr: string)
    requires Lawful(w)
    ensures Kept(w, p, IsFaithful(w, sys, usr)) && Coherent(IsFaithful(w, sys, usr))
    ensures Faithful(w, sys, usr, [RunStarted(sys, usr)])
  {
    forall log, e | Faithful(w, sys, usr, log) && Expected(w, p, log, e)
      ensures Faithful(w, sys, usr, log + [e])
    {
      FaithfulStep(w, p, sys, usr, log, e);
    }
    assert [] + [RunStarted(sys, usr)] == [RunStarted(sys, usr)];
    ReplayAppend([], RunStarted(sys, usr));
  }

  /** Replay agrees with the path after any attempts, each cut anywhere. */
  lemma AfterFaithful(w: World, sys: string, usr: string, first: Attempt, more: seq<Attempt>)
    requires Lawful(w)
    ensures var log := After(w, sys, usr, first, more); log == [] || Faithful(w, sys, usr, log)
  {
    forall a | a == first || a in more ensures Kept(w, a.policy, IsFaithful(w, sys, usr)) {
      FaithfulKept(w, a.policy, sys, usr);
    }
    FaithfulKept(w, first.policy, sys, usr);
    AfterKeeps(w, IsFaithful(w, sys, usr), sys, usr, first, more);
  }

  /** Every log such attempts leave behind meets what the resume method asks of it. */
  lemma AfterResumable(w: World, sys: string, usr: string, first: Attempt, more: seq<Attempt>)
    requires Lawful(w)
    ensures var log := After(w, sys, usr, first, more); log == [] || Resumable(log)
  {
    AfterFaithful(w, sys, usr, first, more);
    FaithfulKept(w, first.policy, sys, usr);
    var log := After(w, sys, usr, first, more);
    assert log == [] || IsFaithful(w, sys, usr)(log);
  }

  lemma CutsEnd(P: seq<Event> -> bool, whole: seq<Event>, k: nat)
    requires AllCuts(P, whole, k)
    ensures P(whole)
  {
    assert First(|whole|, whole) == whole;
  }

  /** An attempt that ends the path, with this history and, unless cached, this answer. */
  ghost predicate EndsPath(w: World, sys: string, usr: string, cached: bool, r: (seq<Event>, Outcome)) {
    && r.1.Answer? && Replay(r.0).Some?
    && var msgs := Replay(r.0).value.messages;
       OnPath(w, sys, usr, msgs) && Final(msgs) && (!cached ==> msgs[|msgs| - 1].content == r.1.content)
  }

  lemma AttemptEnds(w: World, sys: string, usr: string, k: nat, cached: bool, r: (seq<Event>, Outcome))
    requires Attempted(IsFaithful(w, sys, usr), k, cached, r) && r.1.Answer?
    ensures EndsPath(w, sys, usr, cached, r)
  {
    AttemptHolds(IsFaithful(w, sys, usr), k, cached, r);
    assert Faithful(w, sys, usr, r.0);
    FaithfulEnds(w, sys, usr, cached, r);
  }

  lemma AttemptHolds(P: seq<Event> -> bool, k: nat, cached: bool, r: (seq<Event>, Outcome))
    requires Attempted(P, k, cached, r)
    ensures P(r.0) && (r.1.Answer? ==> Complete(r.0)) && (r.1.Answer? && !cached ==> AnsweredBy(r.0, r.1.content))
  {
    CutsEnd(P, r.0, k);
  }

  lemma FaithfulEnds(w: World, sys: string, usr: string, cached: bool, r: (seq<Event>, Outcome))
    requires Faithful(w, sys, usr, r.0) && r.1.Answer? && Complete(r.0) && (!cached ==> AnsweredBy(r.0, r.1.content))
    ensures EndsPath(w, sys, usr, cached, r)
  {
    var s := Replay(r.0).value;
    PointEnds(w, sys, usr, s);
  }

  lemma PointEnds(w: World, sys: string, usr: string, s: Session)
    requires AtPoint(w, sys, usr, s) && s.state.Completed?
    ensures OnPath(w, sys, usr, s.messages) && Final(s.messages)
  {
  }

  lemma RunAnswer(w: World, p: Policy, sys: string, usr: string)
    requires Lawful(w) && Run(w, p, sys, usr).1.Answer?
    ensures EndsPath(w, sys, usr, false, Run(w, p, sys, usr))
  {
    FaithfulKept(w, p, sys, usr);
    RunKeeps(w, p, IsFaithful(w, sys, usr), sys, usr);
    AttemptEnds(w, sys, usr, 1, false, Run(w, p, sys, usr));
  }

  lemma ResumeAnswer(w: World, p: Policy, sys: string, usr: string, log: seq<Event>)
    requires Lawful(w) && Faithful(w, sys, usr, log) && log != [] && Resume(w, p, log).1.Answer?
    ensures EndsPath(w, sys, usr, Complete(log), Resume(w, p, log))
  {
    FaithfulKept(w, p, sys, usr);
    ResumeKeeps(w, p, IsFaithful(w, sys, usr), log);
    AttemptEnds(w, sys, usr, |log|, Complete(log), Resume(w, p, log));
  }

  /** Both attempts end with one history; an answer not taken from the cache is the whole run's. */
  ghost predicate SameEnd(cached: bool, resume: (seq<Event>, Outcome), whole: (seq<Event>, Outcome)) {
    && Replay(resume.0).Some? && Replay(whole.0).Some?
    && Replay(resume.0).value.messages == Replay(whole.0).value.messages
    && (!cached ==> resume.1 == whole.1)
  }

  lemma EndsAgree(w: World, sys: string, usr: string, cached: bool, resume: (seq<Event>, Outcome), whole: (seq<Event>, Outcome))
    requires EndsPath(w, sys, usr, cached, resume) && EndsPath(w, sys, usr, false, whole)
    ensures SameEnd(cached, resume, whole)
  {
    FinalUnique(w, sys, usr, Replay(resume.0).value.messages, Replay(whole.0).value.messages);
  }

  /** Crash/resume refinement: after any attempts, each cut anywhere, a resume that answers ends with the
      history of an uninterrupted run that answers, and with its answer unless the log already held the
      final response. */
  lemma CrashResumeRefines(w: World, sys: string, usr: string, first: Attempt, more: seq<Attempt>, p: Policy, p0: Policy)
    requires Lawful(w) && Run(w, p0, sys, usr).1.Answer?
    requires Resume(w, p, After(w, sys, usr, first, more)).1.Answer?
    ensures var log := After(w, sys, usr, first, more);
            SameEnd(Complete(log), Resume(w, p, log), Run(w, p0, sys, usr))
  {
    var log := After(w, sys, usr, first, more);
    AfterFaithful(w, sys, usr, first, more);
    ResumeAnswer(w, p, sys, usr, log);
    RunAnswer(w, p0, sys, usr);
    EndsAgree(w, sys, usr, Complete(log), Resume(w, p, log), Run(w, p0, sys, usr));
  }
}
