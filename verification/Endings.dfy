/** How an attempt ends: what its outcome says about the last lines of the log, the policy and the environment. */
module Endings {
  import opened Options
  import opened Checkpoints
  import opened AgentLoop
  import opened LogReading
  import opened CrashResume

  /** The last two lines answer, the one before is a response without calls and with that text. */
  predicate SaidLast(log: seq<Event>, content: Option<string>) {
    var n := |log|;
    && n >= 3 && log[n - 1] == RunCompleted && log[n - 2] == LlmFinalResponse(content)
    && log[n - 3].LlmResponded? && log[n - 3].content == content && log[n - 3].calls == []
  }

  ghost predicate ModelDid(w: World, o: LlmOutcome) { exists m: seq<Message> :: w.llm(m) == o }

  ghost predicate ToolBroke(w: World) { exists c :: w.tool(c) == ExecutorStateError }

  ghost predicate ToolWasBusy(w: World) {
    exists c :: w.tool(c).Done? && w.tool(c).result.error.Some? && w.tool(c).result.error.value.code == "IDEMPOTENCY_IN_PROGRESS"
  }

  /** Which last line a stopped attempt may leave, and why. */
  ghost predicate StoppedBy(w: World, p: Policy, last: Event, iterations: nat, ids: nat) {
    || (last == RunFailed && ModelDid(w, ProviderFailure))
    || (last == RunHalted("SYSTEM_STATE_ERROR") && ToolBroke(w))
    || (last == RunHalted("MAX_ITERATIONS_REACHED") && iterations >= p.maxIterations)
    || (last == RunHalted("MAX_TOOL_CALLS_REACHED") && ids > p.maxToolCalls)
  }

  /** An answer closes the log with that answer; a stop or an error says why in the last line. Only a resume may stop
      without a line, and only before a busy tool. */
  ghost predicate Ended(w: World, p: Policy, resumed: bool, log: seq<Event>, o: Outcome) {
    match o
    case Answer(content) => SaidLast(log, content)
    case Raised => |log| >= 2 && log[|log| - 1] == RunHalted("SYSTEM_STATE_ERROR") && log[|log| - 2].LlmRequested? && ModelDid(w, ProviderStateError)
    case Stopped => (log != [] && StoppedBy(w, p, log[|log| - 1], IterationsUsed(log), |IdsUsed(log)|)) || (resumed && ToolWasBusy(w))
    case Crashed => false
  }

  /** The usage carried along is what the log shows, or at least nothing the log does not show. */
  ghost predicate Charged(log: seq<Event>, u: Usage, todo: seq<ToolCall>) {
    u.iterations == IterationsUsed(log) && u.seen + CallIds(todo) <= IdsUsed(log)
  }

  lemma {:induction false} TracesUse(log: seq<Event>, lines: seq<Event>)
    requires forall i :: 0 <= i < |lines| ==> IsTrace(lines[i])
    ensures IterationsUsed(log + lines) == IterationsUsed(log) && IdsUsed(log) <= IdsUsed(log + lines)
  {
    if lines == [] {
      assert log + lines == log;
    } else {
      var n := |lines| - 1;
      TracesUse(log, lines[..n]);
      assert log + lines == log + lines[..n] + [lines[n]];
      UsageAppend(log + lines[..n], lines[n]);
    }
  }

  lemma HaltEnds(w: World, p: Policy, resumed: bool, log: seq<Event>, reason: string)
    requires StoppedBy(w, p, RunHalted(reason), IterationsUsed(log), |IdsUsed(log)|)
    ensures Ended(w, p, resumed, log + [RunHalted(reason)], Stopped)
  {
    UsageAppend(log, RunHalted(reason));
    assert IdsUsed(log) + {} == IdsUsed(log);
  }

  /** Where a step ends the log says so; where it goes on the usage still is what the log shows. */
  ghost predicate StepEnds(w: World, p: Policy, resumed: bool, g: Progress) {
    match g
    case End(log, o) => Ended(w, p, resumed, log, o)
    case Next(log, _, u, todo) => Charged(log, u, todo)
  }

  lemma RefusedEnds(w: World, p: Policy, resumed: bool, log: seq<Event>, u: Usage)
    requires Charged(log, u, []) && Decide(p, u.iterations, |u.seen|, 1, 0).Some?
    ensures Ended(w, p, resumed, log + [RunHalted(Decide(p, u.iterations, |u.seen|, 1, 0).value)], Stopped)
  {
    SubsetSize(u.seen, IdsUsed(log));
    HaltEnds(w, p, resumed, log, Decide(p, u.iterations, |u.seen|, 1, 0).value);
  }

  lemma RequestCharged(log: seq<Event>, u: Usage)
    requires Charged(log, u, [])
    ensures Charged(log + [LlmRequested(u.iterations + 1)], Usage(u.iterations + 1, u.seen), [])
  {
    UsageAppend(log, LlmRequested(u.iterations + 1));
  }

  lemma AskEnds(w: World, p: Policy, resumed: bool, log: seq<Event>, msgs: seq<Message>, u: Usage)
    requires Charged(log, u, [])
    ensures StepEnds(w, p, resumed, Ask(w, p, log, msgs, u))
  {
    if Decide(p, u.iterations, |u.seen|, 1, 0).Some? {
      RefusedEnds(w, p, resumed, log, u);
    } else {
      RequestCharged(log, u);
      HearEnds(w, p, resumed, log + [LlmRequested(u.iterations + 1)], msgs, Usage(u.iterations + 1, u.seen));
    }
  }

  lemma HearEnds(w: World, p: Policy, resumed: bool, asked: seq<Event>, msgs: seq<Message>, u: Usage)
    requires Charged(asked, u, []) && asked != [] && asked[|asked| - 1].LlmRequested?
    ensures StepEnds(w, p, resumed, Hear(w, asked, msgs, u))
  {
    var reply := w.llm(msgs);
    if reply.Reply? {
      var r := reply.response;
      UsageAppend(asked, LlmResponded(u.iterations, r.content, r.calls));
    } else if reply.ProviderFailure? {
      assert ModelDid(w, ProviderFailure);
    } else {
      assert ModelDid(w, ProviderStateError);
    }
  }

  lemma FirstCharged(log: seq<Event>, u: Usage, todo: seq<ToolCall>)
    requires todo != [] && Charged(log, u, todo)
    ensures todo[0].callId in IdsUsed(log) && u.seen + {todo[0].callId} + CallIds(todo[1..]) <= IdsUsed(log)
  {
    assert todo[0].callId in CallIds(todo);
    assert forall i :: 0 <= i < |todo[1..]| ==> todo[1..][i] == todo[i + 1];
  }

  lemma CallEnds(w: World, p: Policy, resumed: bool, log: seq<Event>, msgs: seq<Message>, u: Usage, todo: seq<ToolCall>)
    requires Lawful(w) && todo != [] && Charged(log, u, todo)
    ensures StepEnds(w, p, resumed, Call(w, p, resumed, log, msgs, u, todo))
  {
    var c := todo[0];
    FirstCharged(log, u, todo);
    var halt := if c.callId in u.seen then None else Decide(p, u.iterations, |u.seen|, 0, 1);
    if halt.Some? {
      SubsetSize(u.seen + {c.callId}, IdsUsed(log));
      HaltEnds(w, p, resumed, log, halt.value);
    } else {
      TracesUse(log, w.traces(log, c));
      var traced := log + w.traces(log, c);
      match w.tool(c)
      case ExecutorStateError =>
        assert ToolBroke(w);
        HaltEnds(w, p, resumed, traced, "SYSTEM_STATE_ERROR");
      case Done(r) =>
        if resumed && InProgress(r) {
          assert ToolWasBusy(w);
        } else {
          UsageAppend(traced, ResultEvent(c, r, |todo| == 1));
        }
    }
  }

  lemma {:induction false} DriveEnds(w: World, p: Policy, resumed: bool, log: seq<Event>, msgs: seq<Message>, u: Usage, todo: seq<ToolCall>)
    requires Lawful(w) && Charged(log, u, todo)
    ensures var r := Drive(w, p, resumed, log, msgs, u, todo); Ended(w, p, resumed, r.0, r.1)
    decreases if p.maxIterations > u.iterations then p.maxIterations - u.iterations else 0, |todo|
  {
    if todo == [] {
      AskEnds(w, p, resumed, log, msgs, u);
    } else {
      CallEnds(w, p, resumed, log, msgs, u, todo);
    }
    var g := Step(w, p, resumed, log, msgs, u, todo);
    if g.Next? {
      DriveEnds(w, p, resumed, g.log, g.msgs, g.u, g.todo);
    }
  }

  /** A run that is not cut off closes its log with what it answers, or with why it does not. */
  lemma RunEnds(w: World, p: Policy, sys: string, usr: string)
    requires Lawful(w)
    ensures var r := Run(w, p, sys, usr); Ended(w, p, false, r.0, r.1)
  {
    UsageAppend([], RunStarted(sys, usr));
    assert [] + [RunStarted(sys, usr)] == [RunStarted(sys, usr)];
    DriveEnds(w, p, false, [RunStarted(sys, usr)], [System(sys), User(usr)], Usage(0, {}), []);
  }

  lemma PendingUsed(log: seq<Event>)
    requires Replay(log).Some?
    ensures CallIds(Replay(log).value.pending) <= IdsUsed(log)
  {
    var pending := Replay(log).value.pending;
    forall k | 0 <= k < |pending| ensures pending[k].callId in IdsUsed(log) {
      PendingExactly(log, pending[k]);
      var i: nat :| Asked(log, i, pending[k]);
      assert Mentions(log[i], pending[k].callId);
      IdsExactly(log, pending[k].callId);
    }
  }

  /** A resume refuses an empty, an illegal, a failed and a halted log as it is, answers a completed one as it is, and
      closes any other like a run. Of an open log that shows more than the policy allows it only records that. */
  lemma ResumeEnds(w: World, p: Policy, log: seq<Event>)
    requires Lawful(w)
    ensures var r := Resume(w, p, log);
            if log == [] || Replay(log).None? || Replay(log).value.state in {Failed, Halted} then r == (log, Raised)
            else if Replay(log).value.state == Completed then r.0 == log && r.1.Answer?
            else
              && Ended(w, p, true, r.0, r.1)
              && (IterationsUsed(log) > p.maxIterations ==> r.0 == log + [RunHalted("MAX_ITERATIONS_REACHED")])
              && (IterationsUsed(log) <= p.maxIterations && |IdsUsed(log)| > p.maxToolCalls ==> r.0 == log + [RunHalted("MAX_TOOL_CALLS_REACHED")])
  {
    if log != [] && Replay(log).Some? && !Replay(log).value.state.Terminal() {
      var s, u := Replay(log).value, Usage(IterationsUsed(log), IdsUsed(log));
      var halt := Decide(p, u.iterations, |u.seen|, 0, 0);
      if halt.Some? {
        HaltEnds(w, p, true, log, halt.value);
      } else {
        PendingUsed(log);
        DriveEnds(w, p, true, log, s.messages, u, s.pending);
      }
    }
  }
}
