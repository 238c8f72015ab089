/** What crashes cost: exactly when a resume answers, what every history spends,
    and when the cached answer of a completed run is the run's answer. */
module AgentBudget {
  import opened Options
  import opened Checkpoints
  import opened AgentLoop
  import opened CrashResume

  function Turns(msgs: seq<Message>): nat {
    if msgs == [] then 0 else Turns(msgs[..|msgs| - 1]) + (if msgs[|msgs| - 1].Assistant? then 1 else 0)
  }

  /** Every logical call id the conversation has asked for. */
  function Ids(msgs: seq<Message>): set<string> {
    if msgs == [] then {}
    else Ids(msgs[..|msgs| - 1]) + (if msgs[|msgs| - 1].Assistant? then CallIds(msgs[|msgs| - 1].calls) else {})
  }

  lemma MessageAppend(msgs: seq<Message>, m: Message)
    ensures Turns(msgs + [m]) == Turns(msgs) + (if m.Assistant? then 1 else 0)
    ensures Ids(msgs + [m]) == Ids(msgs) + (if m.Assistant? then CallIds(m.calls) else {})
  {
    assert (msgs + [m])[..|msgs|] == msgs;
  }

  lemma {:induction false} MessagePrefix(a: seq<Message>, b: seq<Message>)
    requires a <= b
    ensures Turns(a) <= Turns(b) && Ids(a) <= Ids(b)
  {
    if |a| < |b| {
      MessagePrefix(a, b[..|b| - 1]);
    } else {
      assert a == b;
    }
  }

  lemma {:induction false} UnansweredAsked(msgs: seq<Message>)
    ensures CallIds(Unanswered(msgs)) <= Ids(msgs)
  {
    if msgs != [] {
      UnansweredAsked(msgs[..|msgs| - 1]);
      var before := Unanswered(msgs[..|msgs| - 1]);
      if before != [] {
        TailIds(before);
      }
    }
  }

  lemma TailIds(calls: seq<ToolCall>)
    requires calls != []
    ensures CallIds(calls) == {calls[0].callId} + CallIds(calls[1..])
  {
    forall id | id in CallIds(calls) ensures id in {calls[0].callId} + CallIds(calls[1..]) {
      var i :| 0 <= i < |calls| && calls[i].callId == id;
      assert i > 0 ==> calls[1..][i - 1] == calls[i];
    }
    forall id | id in CallIds(calls[1..]) ensures id in CallIds(calls) {
      var i :| 0 <= i < |calls[1..]| && calls[1..][i].callId == id;
      assert calls[i + 1].callId == id;
    }
  }

  /** The answer of a tool in progress elsewhere, as a message; a run records it, a resume yields to it. */
  predicate Busy(m: Message) { m.Tool? && HeldElsewhere(m.error) }

  /** None of the messages from the `n`th on is such an answer. */
  predicate Clear(n: nat, msgs: seq<Message>) { forall i :: n <= i < |msgs| ==> !Busy(msgs[i]) }

  /** Memory accounts for the conversation: what was charged, plus what is still to run, is what was asked
      for, and `lost` iterations were charged for responses that never arrived. */
  ghost predicate Charges(u: Usage, msgs: seq<Message>, todo: seq<ToolCall>, lost: int) {
    todo == Unanswered(msgs) && u.seen + CallIds(todo) == Ids(msgs) && u.iterations - Turns(msgs) == lost
  }

  /** The path ends in `end`, and policy `p` pays for all of it and for `lost` iterations more. */
  ghost predicate Pays(w: World, sys: string, usr: string, p: Policy, lost: int, end: seq<Message>) {
    OnPath(w, sys, usr, end) && Final(end) && lost + Turns(end) <= p.maxIterations && |Ids(end)| <= p.maxToolCalls
  }

  lemma AskCharges(u: Usage, msgs: seq<Message>, r: Response, lost: int)
    requires Charges(u, msgs, [], lost)
    ensures Charges(Usage(u.iterations + 1, u.seen), msgs + [Assistant(r.content, r.calls)], r.calls, lost)
  {
    MessageAppend(msgs, Assistant(r.content, r.calls));
    assert (msgs + [Assistant(r.content, r.calls)])[..|msgs|] == msgs;
  }

  lemma CallCharges(u: Usage, msgs: seq<Message>, todo: seq<ToolCall>, r: ToolResult, lost: int)
    requires Charges(u, msgs, todo, lost) && todo != []
    ensures Charges(Usage(u.iterations, u.seen + {todo[0].callId}), msgs + [ToolMessage(todo[0].callId, r)], todo[1..], lost)
  {
    MessageAppend(msgs, ToolMessage(todo[0].callId, r));
    assert (msgs + [ToolMessage(todo[0].callId, r)])[..|msgs|] == msgs;
    TailIds(todo);
  }

  /** A point on the way to `end`. */
  ghost predicate Heading(msgs: seq<Message>, u: Usage, todo: seq<ToolCall>, lost: int, end: seq<Message>) {
    2 <= |msgs| && msgs < end && Charges(u, msgs, todo, lost)
  }

  ghost predicate Onward(g: Progress, lost: int, end: seq<Message>) {
    if g.End? then g.outcome.Answer? else Heading(g.msgs, g.u, g.todo, lost, end)
  }

  lemma EndsHere(w: World, sys: string, usr: string, msgs: seq<Message>, end: seq<Message>)
    requires OnPath(w, sys, usr, end) && 2 <= |msgs| && msgs <= end && Final(msgs)
    ensures msgs == end
  {
    PathAt(w, sys, usr, end, |msgs|);
    assert Before(end, |msgs|) == msgs;
    PathEnd(w, sys, usr, msgs, end);
  }

  /** `longer` adds to `msgs` the one message that follows it on the way to `end`. */
  ghost predicate Leads(w: World, msgs: seq<Message>, longer: seq<Message>, end: seq<Message>) {
    && |longer| == |msgs| + 1 && msgs <= longer <= end && Follows(w, msgs, longer[|msgs|])
    && (Final(longer) <==> longer == end)
  }

  lemma NextOnPath(w: World, sys: string, usr: string, msgs: seq<Message>, end: seq<Message>)
    requires OnPath(w, sys, usr, end) && Final(end) && 2 <= |msgs| && msgs < end
    ensures Leads(w, msgs, msgs + [end[|msgs|]], end)
  {
    var longer := msgs + [end[|msgs|]];
    assert Before(end, |msgs|) == msgs;
    if Final(longer) {
      EndsHere(w, sys, usr, longer, end);
    }
  }

  /** On the way to an end that is paid for, one more request or one more call still fits. */
  lemma StillFits(w: World, sys: string, usr: string, p: Policy, msgs: seq<Message>, u: Usage, todo: seq<ToolCall>, lost: int, end: seq<Message>)
    requires Pays(w, sys, usr, p, lost, end) && Heading(msgs, u, todo, lost, end)
    ensures u.iterations <= p.maxIterations && |u.seen| <= p.maxToolCalls
    ensures todo == [] ==> u.iterations < p.maxIterations
    ensures todo != [] ==> |u.seen + {todo[0].callId}| <= p.maxToolCalls
  {
    MessagePrefix(msgs, end);
    SubsetSize(u.seen, Ids(end));
    if todo == [] {
      NextOnPath(w, sys, usr, msgs, end);
      var m := end[|msgs|];
      MessageAppend(msgs, m);
      MessagePrefix(msgs + [m], end);
    } else {
      assert todo[0].callId in CallIds(todo);
      SubsetSize(u.seen + {todo[0].callId}, Ids(end));
    }
  }

  lemma AskEnough(w: World, sys: string, usr: string, p: Policy, log: seq<Event>, msgs: seq<Message>, u: Usage, lost: int, end: seq<Message>)
    requires Pays(w, sys, usr, p, lost, end) && Heading(msgs, u, [], lost, end)
    ensures Onward(Ask(w, p, log, msgs, u), lost, end)
  {
    StillFits(w, sys, usr, p, msgs, u, [], lost, end);
    NextOnPath(w, sys, usr, msgs, end);
    AskCharges(u, msgs, w.llm(msgs).response, lost);
  }

  lemma CallEnough(w: World, sys: string, usr: string, p: Policy, resumed: bool, log: seq<Event>, msgs: seq<Message>, u: Usage,
                   todo: seq<ToolCall>, lost: int, end: seq<Message>)
    requires Pays(w, sys, usr, p, lost, end) && Heading(msgs, u, todo, lost, end) && todo != [] && (resumed ==> Clear(|msgs|, end))
    ensures Onward(Call(w, p, resumed, log, msgs, u, todo), lost, end)
  {
    StillFits(w, sys, usr, p, msgs, u, todo, lost, end);
    NextOnPath(w, sys, usr, msgs, end);
    CallCharges(u, msgs, todo, w.tool(todo[0]).result, lost);
  }

  lemma {:induction false} DriveEnough(w: World, sys: string, usr: string, p: Policy, resumed: bool, log: seq<Event>, msgs: seq<Message>, u: Usage,
                                       todo: seq<ToolCall>, lost: int, end: seq<Message>)
    requires Pays(w, sys, usr, p, lost, end) && Heading(msgs, u, todo, lost, end) && (resumed ==> Clear(|msgs|, end))
    ensures Drive(w, p, resumed, log, msgs, u, todo).1.Answer?
    decreases if p.maxIterations > u.iterations then p.maxIterations - u.iterations else 0, |todo|
  {
    var g := Step(w, p, resumed, log, msgs, u, todo);
    if todo == [] {
      AskEnough(w, sys, usr, p, log, msgs, u, lost, end);
    } else {
      CallEnough(w, sys, usr, p, resumed, log, msgs, u, todo, lost, end);
    }
    if g.Next? {
      DriveEnough(w, sys, usr, p, resumed, g.log, g.msgs, g.u, g.todo, lost, end);
    }
  }

  /** An unfinished point of the path, within the policy so far. */
  ghost predicate Standing(w: World, sys: string, usr: string, p: Policy, msgs: seq<Message>, u: Usage, todo: seq<ToolCall>, lost: int) {
    OnPath(w, sys, usr, msgs) && !Final(msgs) && Charges(u, msgs, todo, lost) && |u.seen| <= p.maxToolCalls
  }

  ghost predicate Affordable(w: World, sys: string, usr: string, p: Policy, lost: int) {
    exists end :: Pays(w, sys, usr, p, lost, end)
  }

  /** The step answers only on an affordable path, or leaves an unfinished point of it. */
  ghost predicate Owes(w: World, sys: string, usr: string, p: Policy, g: Progress, lost: int) {
    if g.End? then g.outcome.Answer? ==> Affordable(w, sys, usr, p, lost)
    else Standing(w, sys, usr, p, g.msgs, g.u, g.todo, lost)
  }

  lemma AskOwes(w: World, sys: string, usr: string, p: Policy, log: seq<Event>, msgs: seq<Message>, u: Usage, lost: int)
    requires Standing(w, sys, usr, p, msgs, u, [], lost)
    ensures Owes(w, sys, usr, p, Ask(w, p, log, msgs, u), lost)
  {
    if w.llm(msgs).Reply? {
      var r := w.llm(msgs).response;
      var longer := msgs + [Assistant(r.content, r.calls)];
      AskCharges(u, msgs, r, lost);
      PathStep(w, sys, usr, msgs, Assistant(r.content, r.calls));
      if r.calls == [] && u.iterations < p.maxIterations {
        assert Ids(longer) == u.seen;
        assert Pays(w, sys, usr, p, lost, longer);
      }
    }
  }

  lemma CallOwes(w: World, sys: string, usr: string, p: Policy, resumed: bool, log: seq<Event>, msgs: seq<Message>, u: Usage,
                 todo: seq<ToolCall>, lost: int)
    requires Standing(w, sys, usr, p, msgs, u, todo, lost) && todo != []
    ensures Owes(w, sys, usr, p, Call(w, p, resumed, log, msgs, u, todo), lost)
  {
    if w.tool(todo[0]).Done? {
      var r := w.tool(todo[0]).result;
      CallCharges(u, msgs, todo, r, lost);
      PathStep(w, sys, usr, msgs, ToolMessage(todo[0].callId, r));
      assert todo[0].callId in u.seen ==> u.seen + {todo[0].callId} == u.seen;
    }
  }

  lemma StepOwes(w: World, sys: string, usr: string, p: Policy, resumed: bool, log: seq<Event>, msgs: seq<Message>, u: Usage,
                 todo: seq<ToolCall>, lost: int)
    requires Standing(w, sys, usr, p, msgs, u, todo, lost)
    ensures Owes(w, sys, usr, p, Step(w, p, resumed, log, msgs, u, todo), lost)
  {
    if todo == [] {
      AskOwes(w, sys, usr, p, log, msgs, u, lost);
    } else {
      CallOwes(w, sys, usr, p, resumed, log, msgs, u, todo, lost);
    }
  }

  function StepFrom(w: World, p: Policy, resumed: bool, g: Progress): Progress
    requires g.Next?
  {
    Step(w, p, resumed, g.log, g.msgs, g.u, g.todo)
  }

  /** Every step from a point in `S` leads to one, or ends; and an end that answers proves `T`. */
  ghost predicate Closed(w: World, p: Policy, resumed: bool, S: Progress -> bool, T: bool) {
    forall g: Progress :: g.Next? && S(g) ==>
      var h := StepFrom(w, p, resumed, g);
      if h.End? then h.outcome.Answer? ==> T else S(h)
  }

  lemma {:induction false} DriveProves(w: World, p: Policy, resumed: bool, S: Progress -> bool, T: bool, g: Progress)
    requires Closed(w, p, resumed, S, T) && g.Next? && S(g)
    ensures Drive(w, p, resumed, g.log, g.msgs, g.u, g.todo).1.Answer? ==> T
    decreases if p.maxIterations > g.u.iterations then p.maxIterations - g.u.iterations else 0, |g.todo|
  {
    var h := StepFrom(w, p, resumed, g);
    if h.Next? {
      DriveProves(w, p, resumed, S, T, h);
    }
  }

  ghost function IsStanding(w: World, sys: string, usr: string, p: Policy, lost: int): Progress -> bool {
    (g: Progress) => g.Next? && Standing(w, sys, usr, p, g.msgs, g.u, g.todo, lost)
  }

  lemma DriveNeeds(w: World, sys: string, usr: string, p: Policy, resumed: bool, log: seq<Event>, msgs: seq<Message>, u: Usage,
                   todo: seq<ToolCall>, lost: int)
    requires Standing(w, sys, usr, p, msgs, u, todo, lost)
    ensures Drive(w, p, resumed, log, msgs, u, todo).1.Answer? ==> Affordable(w, sys, usr, p, lost)
  {
    var S, T := IsStanding(w, sys, usr, p, lost), Affordable(w, sys, usr, p, lost);
    forall g: Progress | g.Next? && S(g)
      ensures var h := StepFrom(w, p, resumed, g); if h.End? then h.outcome.Answer? ==> T else S(h)
    {
      StepOwes(w, sys, usr, p, resumed, g.log, g.msgs, g.u, g.todo, lost);
    }
    DriveProves(w, p, resumed, S, T, Next(log, msgs, u, todo));
  }

  // ------------------------------------------------------- what the log accounts for

  function Requests(log: seq<Event>): nat {
    if log == [] then 0 else Requests(log[..|log| - 1]) + (if log[|log| - 1].LlmRequested? then 1 else 0)
  }

  function Responses(log: seq<Event>): nat {
    if log == [] then 0 else Responses(log[..|log| - 1]) + (if log[|log| - 1].LlmResponded? then 1 else 0)
  }

  lemma CountAppend(log: seq<Event>, e: Event)
    ensures Requests(log + [e]) == Requests(log) + (if e.LlmRequested? then 1 else 0)
    ensures Responses(log + [e]) == Responses(log) + (if e.LlmResponded? then 1 else 0)
  {
    assert (log + [e])[..|log|] == log;
  }

  /** The iteration numbers count requests, and every response and call id is in the conversation. */
  ghost predicate Counted(log: seq<Event>, msgs: seq<Message>) {
    && IterationsUsed(log) == Requests(log) && Responses(log) == Turns(msgs) && IdsUsed(log) == Ids(msgs)
    && Responses(log) + (if JustAsked(log) then 1 else 0) <= Requests(log)
  }

  /** Nothing beyond the limits was ever requested of the model or handed to the executor. */
  predicate Spent(limit: Policy, log: seq<Event>) {
    Requests(log) <= limit.maxIterations && |Executed(log)| <= limit.maxToolCalls
  }

  predicate Within(p: Policy, limit: Policy) {
    p.maxIterations <= limit.maxIterations && p.maxToolCalls <= limit.maxToolCalls
  }

  lemma SpentStep(p: Policy, limit: Policy, log: seq<Event>, e: Event)
    requires Within(p, limit) && Spent(limit, log) && IterationsUsed(log) == Requests(log) && Expense(p, log, e)
    requires EventIds(e) == {} || e.LlmResponded? || IsTrace(e) || e.ToolResultReceived?
    ensures Spent(limit, log + [e])
  {
    CountAppend(log, e);
    ExecutedAppend(log, e);
    if (IsTrace(e) || e.ToolResultReceived?) && EventIds(e) != {} {
      assert EventIds(e) == {e.callId};
    }
  }

  lemma CountedCall(log: seq<Event>, msgs: seq<Message>, todo: seq<ToolCall>, e: Event)
    requires Counted(log, msgs) && todo == Unanswered(msgs) && todo != []
    requires IsTrace(e) || e.ToolResultReceived?
    requires e.callId == todo[0].callId
    ensures Counted(log + [e], msgs)
  {
    CountAppend(log, e);
    UsageAppend(log, e);
    UnansweredAsked(msgs);
    assert todo[0].callId in CallIds(todo);
    assert EventIds(e) <= Ids(msgs);
  }

  lemma CountedMessage(log: seq<Event>, msgs: seq<Message>, m: Message)
    requires Counted(log, msgs) && !m.Assistant?
    ensures Counted(log, msgs + [m])
  {
    MessageAppend(msgs, m);
  }

  lemma CountedResponse(log: seq<Event>, msgs: seq<Message>, e: Event)
    requires Counted(log, msgs) && e.LlmResponded? && e.iteration == IterationsUsed(log) && JustAsked(log)
    ensures Counted(log + [e], msgs + [Assistant(e.content, e.calls)])
  {
    CountAppend(log, e);
    UsageAppend(log, e);
    MessageAppend(msgs, Assistant(e.content, e.calls));
  }

  lemma CountedSilent(log: seq<Event>, msgs: seq<Message>, e: Event)
    requires Counted(log, msgs) && EventIds(e) == {} && !e.LlmResponded?
    requires e.LlmRequested? ==> e.iteration == IterationsUsed(log) + 1
    ensures Counted(log + [e], msgs)
  {
    CountAppend(log, e);
    UsageAppend(log, e);
  }

  lemma CountedStep(w: World, p: Policy, log: seq<Event>, s: Session, e: Event)
    requires Lawful(w) && Counted(log, s.messages) && s.pending == Unanswered(s.messages)
    requires Due(w, s, e) && Expense(p, log, e) && ApplyEvent(s, e).Some?
    ensures Counted(log + [e], ApplyEvent(s, e).value.messages)
  {
    if e.LlmResponded? {
      CountedResponse(log, s.messages, e);
    } else if IsTrace(e) {
      CountedCall(log, s.messages, s.pending, e);
    } else if e.ToolResultReceived? {
      CountedCall(log, s.messages, s.pending, e);
      CountedMessage(log + [e], s.messages, ToolMessage(e.callId, e.result.value));
    } else {
      CountedSilent(log, s.messages, e);
    }
  }

  /** A log of this path, with its accounts in order and within `limit`. */
  ghost predicate Sound(w: World, sys: string, usr: string, limit: Policy, log: seq<Event>) {
    Faithful(w, sys, usr, log) && Counted(log, Replay(log).value.messages) && Spent(limit, log)
  }

  ghost function IsSound(w: World, sys: string, usr: string, limit: Policy): seq<Event> -> bool {
    log => Sound(w, sys, usr, limit, log)
  }

  lemma SoundStep(w: World, sys: string, usr: string, p: Policy, limit: Policy, log: seq<Event>, e: Event)
    requires Lawful(w) && Within(p, limit) && Sound(w, sys, usr, limit, log) && Expected(w, p, log, e)
    ensures Sound(w, sys, usr, limit, log + [e])
  {
    FaithfulStep(w, p, sys, usr, log, e);
    ReplayAppend(log, e);
    CountedStep(w, p, log, Replay(log).value, e);
    SpentStep(p, limit, log, e);
  }

  lemma SoundStart(w: World, sys: string, usr: string, p: Policy, limit: Policy)
    requires Lawful(w)
    ensures Sound(w, sys, usr, limit, [RunStarted(sys, usr)])
  {
    var e := RunStarted(sys, usr);
    assert [] + [e] == [e];
    FaithfulKept(w, p, sys, usr);
    ReplayAppend([], e);
    CountAppend([], e);
    UsageAppend([], e);
    ExecutedAppend([], e);
    MessageAppend([], System(sys));
    MessageAppend([System(sys)], User(usr));
    assert [] + [System(sys)] == [System(sys)];
    assert [System(sys)] + [User(usr)] == [System(sys), User(usr)];
  }

  lemma SoundKept(w: World, sys: string, usr: string, p: Policy, limit: Policy)
    requires Lawful(w) && Within(p, limit)
    ensures Kept(w, p, IsSound(w, sys, usr, limit)) && Coherent(IsSound(w, sys, usr, limit))
  {
    var P := IsSound(w, sys, usr, limit);
    forall log, e | P(log) && Expected(w, p, log, e) ensures P(log + [e]) {
      SoundStep(w, sys, usr, p, limit, log, e);
    }
    FaithfulKept(w, p, sys, usr);
    assert forall log :: P(log) ==> IsFaithful(w, sys, usr)(log);
  }

  /** Every log of every history of attempts is faithful, with its accounts in order, and shows no more than
      `maxIterations` requests and `maxToolCalls` executed ids in all. */
  lemma AfterSound(w: World, sys: string, usr: string, first: Attempt, more: seq<Attempt>, limit: Policy)
    requires Lawful(w) && Within(first.policy, limit) && forall a :: a in more ==> Within(a.policy, limit)
    ensures NilOr(IsSound(w, sys, usr, limit), After(w, sys, usr, first, more))
  {
    forall a | a == first || a in more ensures Kept(w, a.policy, IsSound(w, sys, usr, limit)) {
      SoundKept(w, sys, usr, a.policy, limit);
    }
    SoundStart(w, sys, usr, first.policy, limit);
    SoundKept(w, sys, usr, first.policy, limit);
    AfterKeeps(w, IsSound(w, sys, usr, limit), sys, usr, first, more);
  }

  // ------------------------------------------------- what the executor was really handed

  /** The ids any of these processes handed to the executor, lines in the log or not. */
  function HandedAfter(w: World, log: seq<Event>, attempts: seq<Attempt>): set<string>
    decreases attempts
  {
    if attempts == [] then {}
    else HandedByResume(w, attempts[0].policy, log, |log| + attempts[0].lifetime) + HandedAfter(w, Resumed(w, attempts[0], log), attempts[1..])
  }

  function AllHanded(w: World, sys: string, usr: string, first: Attempt, more: seq<Attempt>): set<string> {
    HandedByRun(w, first.policy, sys, usr, first.lifetime) + HandedAfter(w, Cut(Run(w, first.policy, sys, usr), first.lifetime).0, more)
  }

  /** What a process hands over fits its policy together with all it remembers as seen. */
  lemma {:induction false} HandedFits(w: World, p: Policy, resumed: bool, log: seq<Event>, msgs: seq<Message>, u: Usage, todo: seq<ToolCall>, n: nat)
    requires |u.seen| <= p.maxToolCalls
    ensures |u.seen + Handed(w, p, resumed, log, msgs, u, todo, n)| <= p.maxToolCalls
    decreases if p.maxIterations > u.iterations then p.maxIterations - u.iterations else 0, |todo|
  {
    var g := Step(w, p, resumed, log, msgs, u, todo);
    HereFits(w, p, resumed, log, msgs, u, todo);
    if g.Next? && |g.log| <= n {
      HandedFits(w, p, resumed, g.log, g.msgs, g.u, g.todo, n);
      Regroup(u.seen, Here(p, u, todo), Handed(w, p, resumed, g.log, g.msgs, g.u, g.todo, n));
    }
  }

  function Here(p: Policy, u: Usage, todo: seq<ToolCall>): set<string> { if Hands(p, u, todo) then {todo[0].callId} else {} }

  lemma HereFits(w: World, p: Policy, resumed: bool, log: seq<Event>, msgs: seq<Message>, u: Usage, todo: seq<ToolCall>)
    requires |u.seen| <= p.maxToolCalls
    ensures |u.seen + Here(p, u, todo)| <= p.maxToolCalls
    ensures var g := Step(w, p, resumed, log, msgs, u, todo); g.Next? ==> g.u.seen == u.seen + Here(p, u, todo)
  {
    if Hands(p, u, todo) {
      assert todo[0].callId in u.seen ==> u.seen + {todo[0].callId} == u.seen;
    } else {
      assert u.seen + {} == u.seen;
    }
  }

  lemma {:induction false} IdsMonotone(a: seq<Event>, b: seq<Event>)
    requires a <= b
    ensures IdsUsed(a) <= IdsUsed(b)
  {
    if |a| < |b| {
      IdsMonotone(a, b[..|b| - 1]);
    } else {
      assert a == b;
    }
  }

  /** The calls still to run are all in the log, in the response that asked for them. */
  lemma TodoLogged(w: World, p: Policy, resumed: bool, log: seq<Event>, msgs: seq<Message>, u: Usage, todo: seq<ToolCall>)
    requires CallIds(todo) <= IdsUsed(log)
    ensures var g := Step(w, p, resumed, log, msgs, u, todo); g.Next? ==> CallIds(g.todo) <= IdsUsed(g.log)
  {
    var g := Step(w, p, resumed, log, msgs, u, todo);
    if g.Next? {
      if todo == [] {
        var r := w.llm(msgs).response;
        UsageAppend(log + [LlmRequested(u.iterations + 1)], LlmResponded(u.iterations + 1, r.content, r.calls));
      } else {
        TailIds(todo);
        IdsMonotone(log, g.log);
      }
    }
  }

  lemma {:induction false} HandedLogged(w: World, p: Policy, resumed: bool, log: seq<Event>, msgs: seq<Message>, u: Usage, todo: seq<ToolCall>, n: nat)
    requires CallIds(todo) <= IdsUsed(log) && |log| <= n
    ensures Handed(w, p, resumed, log, msgs, u, todo, n) <= IdsUsed(Cut(Drive(w, p, resumed, log, msgs, u, todo), n).0)
    decreases if p.maxIterations > u.iterations then p.maxIterations - u.iterations else 0, |todo|
  {
    var g, whole := Step(w, p, resumed, log, msgs, u, todo), Drive(w, p, resumed, log, msgs, u, todo);
    DriveExtends(w, p, resumed, log, msgs, u, todo);
    CutExtends(log, whole, n);
    assert Hands(p, u, todo) ==> todo[0].callId in CallIds(todo);
    if g.Next? && |g.log| <= n {
      TodoLogged(w, p, resumed, log, msgs, u, todo);
      HandedLogged(w, p, resumed, g.log, g.msgs, g.u, g.todo, n);
    }
  }

  lemma CutExtends(log: seq<Event>, whole: (seq<Event>, Outcome), n: nat)
    requires log <= whole.0 && |log| <= n
    ensures log <= Cut(whole, n).0 && IdsUsed(log) <= IdsUsed(Cut(whole, n).0)
  {
    IdsMonotone(log, Cut(whole, n).0);
  }

  /** What earlier processes handed over is in the log, and fits the limit. */
  ghost predicate Paid(limit: Policy, log: seq<Event>, handed: set<string>) {
    handed <= IdsUsed(log) && |handed| <= limit.maxToolCalls
  }

  type Ledger = (seq<Event>, set<string>)

  /** The log, and all that was handed over, once one more process has resumed and died. */
  function Since(w: World, a: Attempt, x: Ledger): Ledger {
    (Resumed(w, a, x.0), x.1 + HandedByResume(w, a.policy, x.0, |x.0| + a.lifetime))
  }

  /** A sound log, or none, and what was handed over is paid for. */
  ghost predicate InOrder(w: World, sys: string, usr: string, limit: Policy, x: Ledger) {
    NilOr(IsSound(w, sys, usr, limit), x.0) && Paid(limit, x.0, x.1)
  }

  ghost function IsInOrder(w: World, sys: string, usr: string, limit: Policy): Ledger -> bool {
    x => InOrder(w, sys, usr, limit, x)
  }

  lemma AttemptSound(w: World, sys: string, usr: string, limit: Policy, log: seq<Event>, a: Attempt)
    requires Lawful(w) && NilOr(IsSound(w, sys, usr, limit), log) && Within(a.policy, limit)
    ensures NilOr(IsSound(w, sys, usr, limit), Resumed(w, a, log))
  {
    SoundKept(w, sys, usr, a.policy, limit);
    ResumedKeeps(w, a, IsSound(w, sys, usr, limit), log);
  }

  lemma NilSince(w: World, a: Attempt, x: Ledger)
    requires x.0 == []
    ensures Since(w, a, x) == x
  {
    assert Resume(w, a.policy, x.0) == (x.0, Raised);
    assert HandedByResume(w, a.policy, x.0, |x.0| + a.lifetime) == {};
    assert x.1 + {} == x.1;
  }

  lemma DrivePays(w: World, p: Policy, limit: Policy, log: seq<Event>, s: Session, u: Usage, n: nat, handed: set<string>)
    requires CallIds(s.pending) <= IdsUsed(log) && u == Usage(IterationsUsed(log), IdsUsed(log))
    requires Within(p, limit) && |u.seen| <= p.maxToolCalls && Paid(limit, log, handed) && |log| <= n
    ensures Paid(limit, Cut(Drive(w, p, true, log, s.messages, u, s.pending), n).0, handed + Handed(w, p, true, log, s.messages, u, s.pending, n))
  {
    HandedLogged(w, p, true, log, s.messages, u, s.pending, n);
    HandedFits(w, p, true, log, s.messages, u, s.pending, n);
    DriveExtends(w, p, true, log, s.messages, u, s.pending);
    CutExtends(log, Drive(w, p, true, log, s.messages, u, s.pending), n);
    SubsetSize(handed + Handed(w, p, true, log, s.messages, u, s.pending, n), u.seen + Handed(w, p, true, log, s.messages, u, s.pending, n));
  }

  lemma IdlePays(limit: Policy, log: seq<Event>, whole: (seq<Event>, Outcome), n: nat, handed: set<string>)
    requires log <= whole.0 && |log| <= n && Paid(limit, log, handed)
    ensures Paid(limit, Cut(whole, n).0, handed + {})
  {
    assert handed + {} == handed;
    CutExtends(log, whole, n);
  }

  /** The resume has nothing to do, or no budget to do it with. */
  predicate Idles(p: Policy, log: seq<Event>)
    requires Replay(log).Some?
  {
    Replay(log).value.state.Terminal() || Decide(p, IterationsUsed(log), |IdsUsed(log)|, 0, 0).Some?
  }

  lemma PendingLogged(w: World, sys: string, usr: string, limit: Policy, log: seq<Event>)
    requires Sound(w, sys, usr, limit, log)
    ensures CallIds(Replay(log).value.pending) <= IdsUsed(log)
  {
    UnansweredAsked(Replay(log).value.messages);
  }

  lemma DriveCase(w: World, limit: Policy, p: Policy, log: seq<Event>, handed: set<string>, s: Session, u: Usage, n: nat,
                  whole: (seq<Event>, Outcome), now: set<string>)
    requires Within(p, limit) && log != [] && CallIds(s.pending) <= u.seen && Paid(limit, log, handed) && |log| <= n
    requires Replay(log) == Some(s) && u == Usage(IterationsUsed(log), IdsUsed(log)) && !s.state.Terminal()
    requires Decide(p, u.iterations, |u.seen|, 0, 0).None?
    requires whole == Resume(w, p, log) && now == HandedByResume(w, p, log, n)
    ensures Paid(limit, Cut(whole, n).0, handed + now)
  {
    ResumeDrives(w, p, log, s, u, n);
    DrivePays(w, p, limit, log, s, u, n, handed);
  }

  lemma IdleCase(w: World, limit: Policy, p: Policy, log: seq<Event>, handed: set<string>, n: nat, whole: (seq<Event>, Outcome), now: set<string>)
    requires log != [] && Replay(log).Some? && Idles(p, log) && Paid(limit, log, handed) && |log| <= n
    requires whole == Resume(w, p, log) && now == HandedByResume(w, p, log, n)
    ensures Paid(limit, Cut(whole, n).0, handed + now)
  {
    ResumeIdles(w, p, log, n);
    IdlePays(limit, log, whole, n, handed);
  }

  lemma EitherCase(w: World, limit: Policy, p: Policy, log: seq<Event>, handed: set<string>, n: nat, whole: (seq<Event>, Outcome), now: set<string>)
    requires Within(p, limit) && log != [] && Paid(limit, log, handed) && |log| <= n
    requires Replay(log).Some? && CallIds(Replay(log).value.pending) <= IdsUsed(log)
    requires whole == Resume(w, p, log) && now == HandedByResume(w, p, log, n)
    ensures Paid(limit, Cut(whole, n).0, handed + now)
  {
    if Idles(p, log) {
      IdleCase(w, limit, p, log, handed, n, whole, now);
    } else {
      DriveCase(w, limit, p, log, handed, Replay(log).value, Usage(IterationsUsed(log), IdsUsed(log)), n, whole, now);
    }
  }

  lemma ResumePays(w: World, limit: Policy, a: Attempt, x: Ledger)
    requires Within(a.policy, limit) && x.0 != [] && Paid(limit, x.0, x.1)
    requires Replay(x.0).Some? && CallIds(Replay(x.0).value.pending) <= IdsUsed(x.0)
    ensures Paid(limit, Since(w, a, x).0, Since(w, a, x).1)
  {
    var n := |x.0| + a.lifetime;
    EitherCase(w, limit, a.policy, x.0, x.1, n, Resume(w, a.policy, x.0), HandedByResume(w, a.policy, x.0, n));
    SinceIs(w, a, x, n, Resume(w, a.policy, x.0), HandedByResume(w, a.policy, x.0, n));
  }

  lemma SinceIs(w: World, a: Attempt, x: Ledger, n: nat, whole: (seq<Event>, Outcome), now: set<string>)
    requires n == |x.0| + a.lifetime && whole == Resume(w, a.policy, x.0) && now == HandedByResume(w, a.policy, x.0, n)
    ensures Since(w, a, x).0 == Cut(whole, n).0 && Since(w, a, x).1 == x.1 + now
  {
  }

  lemma ResumeIdles(w: World, p: Policy, log: seq<Event>, n: nat)
    requires log != [] && Replay(log).Some? && Idles(p, log)
    ensures log <= Resume(w, p, log).0 && HandedByResume(w, p, log, n) == {}
  {
  }

  lemma SinceInOrder(w: World, sys: string, usr: string, limit: Policy, a: Attempt, x: Ledger)
    requires Lawful(w) && InOrder(w, sys, usr, limit, x) && Within(a.policy, limit)
    ensures InOrder(w, sys, usr, limit, Since(w, a, x))
  {
    if x.0 == [] {
      NilSince(w, a, x);
    } else {
      AttemptSound(w, sys, usr, limit, x.0, a);
      PendingLogged(w, sys, usr, limit, x.0);
      ResumePays(w, limit, a, x);
    }
  }

  /** No attempt within the limit breaks `Q`. */
  ghost predicate Lasting(w: World, limit: Policy, Q: Ledger -> bool) {
    forall x, a: Attempt :: Q(x) && Within(a.policy, limit) ==> Q(Since(w, a, x))
  }

  lemma {:induction false} ContinuedLasts(w: World, limit: Policy, Q: Ledger -> bool, x: Ledger, attempts: seq<Attempt>)
    requires Lasting(w, limit, Q) && Q(x) && forall a :: a in attempts ==> Within(a.policy, limit)
    ensures Q((Continued(w, x.0, attempts), x.1 + HandedAfter(w, x.0, attempts)))
    decreases attempts
  {
    if attempts == [] {
      assert x.1 + {} == x.1;
      assert (x.0, x.1) == x;
    } else {
      var y := Since(w, attempts[0], x);
      ContinuedLasts(w, limit, Q, y, attempts[1..]);
      Regroup(x.1, HandedByResume(w, attempts[0].policy, x.0, |x.0| + attempts[0].lifetime), HandedAfter(w, y.0, attempts[1..]));
    }
  }

  lemma Regroup(a: set<string>, b: set<string>, c: set<string>)
    ensures a + b + c == a + (b + c)
  {
  }

  lemma RunPays(w: World, sys: string, usr: string, p: Policy, limit: Policy, n: nat)
    requires Within(p, limit)
    ensures Paid(limit, Cut(Run(w, p, sys, usr), n).0, HandedByRun(w, p, sys, usr, n))
  {
    if n > 0 {
      var start, msgs := [RunStarted(sys, usr)], [System(sys), User(usr)];
      HandedLogged(w, p, false, start, msgs, Usage(0, {}), [], n);
      HandedFits(w, p, false, start, msgs, Usage(0, {}), [], n);
      assert {} + HandedByRun(w, p, sys, usr, n) == HandedByRun(w, p, sys, usr, n);
    }
  }

  /** Budget safety over every history of attempts: whatever crashed, and whatever it had no time to log, the executor
      was handed at most `maxToolCalls` different ids in all. */
  lemma HandedWithinBudget(w: World, sys: string, usr: string, first: Attempt, more: seq<Attempt>, limit: Policy)
    requires Lawful(w) && Within(first.policy, limit) && forall a :: a in more ==> Within(a.policy, limit)
    ensures |AllHanded(w, sys, usr, first, more)| <= limit.maxToolCalls
    ensures AllHanded(w, sys, usr, first, more) <= IdsUsed(After(w, sys, usr, first, more))
  {
    var log, handed := Cut(Run(w, first.policy, sys, usr), first.lifetime).0, HandedByRun(w, first.policy, sys, usr, first.lifetime);
    var Q := IsInOrder(w, sys, usr, limit);
    RunPays(w, sys, usr, first.policy, limit, first.lifetime);
    AfterSound(w, sys, usr, first, [], limit);
    assert Q((log, handed));
    forall x, a: Attempt | Q(x) && Within(a.policy, limit) ensures Q(Since(w, a, x)) {
      SinceInOrder(w, sys, usr, limit, a, x);
    }
    ContinuedLasts(w, limit, Q, (log, handed), more);
    assert InOrder(w, sys, usr, limit, (After(w, sys, usr, first, more), AllHanded(w, sys, usr, first, more)));
  }

  // ------------------------------------------------------------ when a resume answers

  lemma OpeningCounts(sys: string, usr: string)
    ensures var start := [System(sys), User(usr)]; Charges(Usage(0, {}), start, [], 0) && !Final(start)
  {
    MessageAppend([], System(sys));
    MessageAppend([System(sys)], User(usr));
    assert [] + [System(sys)] == [System(sys)];
    assert [System(sys)] + [User(usr)] == [System(sys), User(usr)];
  }

  lemma RunExactly(w: World, sys: string, usr: string, p: Policy)
    ensures Run(w, p, sys, usr).1.Answer? <==> Affordable(w, sys, usr, p, 0)
  {
    OpeningCounts(sys, usr);
    var log, start := [RunStarted(sys, usr)], [System(sys), User(usr)];
    if Affordable(w, sys, usr, p, 0) {
      var end :| Pays(w, sys, usr, p, 0, end);
      assert start <= end;
      DriveEnough(w, sys, usr, p, false, log, start, Usage(0, {}), [], 0, end);
    } else if Run(w, p, sys, usr).1.Answer? {
      DriveNeeds(w, sys, usr, p, false, log, start, Usage(0, {}), [], 0);
    }
  }

  /** An open log of the path, as a live process would hold it. */
  ghost predicate Open(w: World, sys: string, usr: string, log: seq<Event>) {
    && log != [] && Faithful(w, sys, usr, log) && Counted(log, Replay(log).value.messages)
    && !Replay(log).value.state.Terminal()
  }

  lemma OpenPoint(w: World, sys: string, usr: string, log: seq<Event>)
    requires Open(w, sys, usr, log)
    ensures var s := Replay(log).value;
            && OnPath(w, sys, usr, s.messages) && !Final(s.messages)
            && Charges(Usage(IterationsUsed(log), IdsUsed(log)), s.messages, s.pending, Requests(log) - Responses(log))
  {
    UnansweredAsked(Replay(log).value.messages);
  }

  lemma BeforeEnd(w: World, sys: string, usr: string, msgs: seq<Message>, end: seq<Message>)
    requires OnPath(w, sys, usr, msgs) && OnPath(w, sys, usr, end) && !Final(msgs) && Final(end)
    ensures msgs < end
  {
    PathEnd(w, sys, usr, end, msgs);
    PathPrefix(w, sys, usr, msgs, end);
    assert msgs != end;
  }

  /** A resume of an open log is the drive from its session, if the usage fits the policy. */
  lemma ResumeIsDrive(w: World, p: Policy, log: seq<Event>, s: Session, u: Usage)
    requires log != [] && Replay(log) == Some(s) && !s.state.Terminal() && u == Usage(IterationsUsed(log), IdsUsed(log))
    ensures Resume(w, p, log).1.Answer? <==>
            u.iterations <= p.maxIterations && |u.seen| <= p.maxToolCalls && Drive(w, p, true, log, s.messages, u, s.pending).1.Answer?
  {
  }

  /** A resume that answers met no busy tool on the way to the end. */
  lemma {:induction false} DriveClear(w: World, sys: string, usr: string, p: Policy, log: seq<Event>, msgs: seq<Message>, u: Usage,
                                      todo: seq<ToolCall>, end: seq<Message>)
    requires OnPath(w, sys, usr, msgs) && !Final(msgs) && todo == Unanswered(msgs) && OnPath(w, sys, usr, end) && Final(end)
    ensures Drive(w, p, true, log, msgs, u, todo).1.Answer? ==> Clear(|msgs|, end)
    decreases if p.maxIterations > u.iterations then p.maxIterations - u.iterations else 0, |todo|
  {
    var g := Step(w, p, true, log, msgs, u, todo);
    if todo == [] {
      AskAdvances(w, sys, usr, p, log, msgs, u, end);
    } else {
      CallAdvances(w, sys, usr, p, log, msgs, u, todo, end);
    }
    if g.Next? {
      DriveClear(w, sys, usr, p, g.log, g.msgs, g.u, g.todo, end);
      OneMoreClear(|msgs|, end);
    } else {
      OneMoreClear(|msgs|, end);
    }
  }

  lemma OneMoreClear(n: nat, end: seq<Message>)
    ensures n < |end| && !Busy(end[n]) && (|end| == n + 1 || Clear(n + 1, end)) ==> Clear(n, end)
  {
  }

  /** One step of a resume towards `end`, over a message that is not busy. */
  ghost predicate Advances(w: World, sys: string, usr: string, g: Progress, n: nat, end: seq<Message>) {
    if g.End? then g.outcome.Answer? ==> |end| == n + 1 && !Busy(end[n])
    else && |g.msgs| == n + 1 && n < |end| && !Busy(end[n])
         && OnPath(w, sys, usr, g.msgs) && !Final(g.msgs) && g.todo == Unanswered(g.msgs)
  }

  lemma AskAdvances(w: World, sys: string, usr: string, p: Policy, log: seq<Event>, msgs: seq<Message>, u: Usage, end: seq<Message>)
    requires OnPath(w, sys, usr, msgs) && !Final(msgs) && Unanswered(msgs) == [] && OnPath(w, sys, usr, end) && Final(end)
    ensures Advances(w, sys, usr, Ask(w, p, log, msgs, u), |msgs|, end)
  {
    if w.llm(msgs).Reply? {
      var r := w.llm(msgs).response;
      NextIs(w, sys, usr, msgs, Assistant(r.content, r.calls), end);
    }
  }

  lemma CallAdvances(w: World, sys: string, usr: string, p: Policy, log: seq<Event>, msgs: seq<Message>, u: Usage, todo: seq<ToolCall>, end: seq<Message>)
    requires OnPath(w, sys, usr, msgs) && !Final(msgs) && todo == Unanswered(msgs) && todo != [] && OnPath(w, sys, usr, end) && Final(end)
    ensures Advances(w, sys, usr, Call(w, p, true, log, msgs, u, todo), |msgs|, end)
  {
    if w.tool(todo[0]).Done? {
      var m := ToolMessage(todo[0].callId, w.tool(todo[0]).result);
      NextIs(w, sys, usr, msgs, m, end);
      assert !Final(msgs + [m]);
    }
  }

  /** Whatever message follows is the one `end` has there, and it is the last one if it is final. */
  lemma NextIs(w: World, sys: string, usr: string, msgs: seq<Message>, m: Message, end: seq<Message>)
    requires OnPath(w, sys, usr, msgs) && Follows(w, msgs, m) && OnPath(w, sys, usr, end) && Final(end)
    ensures |msgs| < |end| && end[|msgs|] == m && OnPath(w, sys, usr, msgs + [m])
    ensures Unanswered(msgs + [m]) == if m.Assistant? then m.calls else Unanswered(msgs)[1..]
    ensures Final(msgs + [m]) ==> |end| == |msgs| + 1
  {
    PathStep(w, sys, usr, msgs, m);
    PathEnd(w, sys, usr, end, msgs + [m]);
    PathPrefix(w, sys, usr, msgs + [m], end);
    assert (msgs + [m])[|msgs|] == m;
    if Final(msgs + [m]) {
      PathEnd(w, sys, usr, msgs + [m], end);
    }
  }

  /** The path ends within the policy, and clear of busy tools from the `n`th message on. */
  ghost predicate AffordableClear(w: World, sys: string, usr: string, p: Policy, lost: int, n: nat) {
    exists end :: Pays(w, sys, usr, p, lost, end) && Clear(n, end)
  }

  lemma ResumeExactly(w: World, sys: string, usr: string, p: Policy, log: seq<Event>, lost: int)
    requires Open(w, sys, usr, log) && lost == Requests(log) - Responses(log)
    ensures Resume(w, p, log).1.Answer? <==> AffordableClear(w, sys, usr, p, lost, |Replay(log).value.messages|)
  {
    var s, u := Replay(log).value, Usage(IterationsUsed(log), IdsUsed(log));
    OpenPoint(w, sys, usr, log);
    ResumeIsDrive(w, p, log, s, u);
    PointExactly(w, sys, usr, p, log, s.messages, u, s.pending, lost);
  }

  lemma PointExactly(w: World, sys: string, usr: string, p: Policy, log: seq<Event>, msgs: seq<Message>, u: Usage, todo: seq<ToolCall>, lost: int)
    requires OnPath(w, sys, usr, msgs) && !Final(msgs) && Charges(u, msgs, todo, lost)
    ensures u.iterations <= p.maxIterations && |u.seen| <= p.maxToolCalls && Drive(w, p, true, log, msgs, u, todo).1.Answer? <==>
            AffordableClear(w, sys, usr, p, lost, |msgs|)
  {
    if AffordableClear(w, sys, usr, p, lost, |msgs|) {
      var end :| Pays(w, sys, usr, p, lost, end) && Clear(|msgs|, end);
      BeforeEnd(w, sys, usr, msgs, end);
      StillFits(w, sys, usr, p, msgs, u, todo, lost, end);
      DriveEnough(w, sys, usr, p, true, log, msgs, u, todo, lost, end);
    } else if |u.seen| <= p.maxToolCalls && Drive(w, p, true, log, msgs, u, todo).1.Answer? {
      DriveNeeds(w, sys, usr, p, true, log, msgs, u, todo, lost);
      var end :| Pays(w, sys, usr, p, lost, end);
      DriveClear(w, sys, usr, p, log, msgs, u, todo, end);
    }
  }

  /** What is left of a policy once the requests whose responses were lost are paid for. */
  function Reduced(p: Policy, lost: int): Policy
    requires lost <= p.maxIterations
  {
    Policy(p.maxIterations - lost, p.maxToolCalls)
  }

  lemma ReducedExactly(w: World, sys: string, usr: string, p: Policy, lost: int)
    ensures Affordable(w, sys, usr, p, lost) <==> lost <= p.maxIterations && Affordable(w, sys, usr, Reduced(p, lost), 0)
  {
    if Affordable(w, sys, usr, p, lost) {
      var end :| Pays(w, sys, usr, p, lost, end);
      assert Pays(w, sys, usr, Reduced(p, lost), 0, end);
    } else if lost <= p.maxIterations && Affordable(w, sys, usr, Reduced(p, lost), 0) {
      var end :| Pays(w, sys, usr, Reduced(p, lost), 0, end);
      assert Pays(w, sys, usr, p, lost, end);
    }
  }

  /** The sum of two policies bounds both. */
  function Cover(a: Policy, b: Policy): Policy {
    Policy(a.maxIterations + b.maxIterations, a.maxToolCalls + b.maxToolCalls)
  }

  function CoverAll(first: Attempt, more: seq<Attempt>): Policy {
    if more == [] then first.policy else Cover(CoverAll(first, more[1..]), more[0].policy)
  }

  lemma {:induction false} CoverBounds(first: Attempt, more: seq<Attempt>)
    ensures Within(first.policy, CoverAll(first, more)) && forall a :: a in more ==> Within(a.policy, CoverAll(first, more))
  {
    if more != [] {
      CoverBounds(first, more[1..]);
      forall a | a in more ensures Within(a.policy, CoverAll(first, more)) {
        assert a == more[0] || a in more[1..];
      }
    }
  }

  /** From the `n`th message on the whole run meets no busy tool. */
  ghost predicate ClearRun(n: nat, whole: (seq<Event>, Outcome)) { Replay(whole.0).Some? && Clear(n, Replay(whole.0).value.messages) }

  /** No tool still to be run after what `log` holds answers, in the whole run, that it is busy. */
  ghost predicate Untroubled(log: seq<Event>, whole: (seq<Event>, Outcome)) {
    Replay(log).Some? && ClearRun(|Replay(log).value.messages|, whole)
  }

  ghost predicate AnswersAt(w: World, sys: string, usr: string, p: Policy, lost: int, n: nat) {
    lost <= p.maxIterations && Run(w, Reduced(p, lost), sys, usr).1.Answer? && ClearRun(n, Run(w, Reduced(p, lost), sys, usr))
  }

  /** A resume answers if and only if the uninterrupted run would answer on what is left of the policy after the
      requests whose responses were lost, and no tool still to be run is busy in that run. */
  ghost predicate AnswersExactly(w: World, sys: string, usr: string, p: Policy, log: seq<Event>)
    requires Replay(log).Some?
  {
    && Requests(log) >= Responses(log)
    && (Resume(w, p, log).1.Answer? <==> AnswersAt(w, sys, usr, p, Requests(log) - Responses(log), |Replay(log).value.messages|))
  }

  lemma OpenAnswersExactly(w: World, sys: string, usr: string, p: Policy, log: seq<Event>)
    requires Lawful(w) && Open(w, sys, usr, log)
    ensures AnswersExactly(w, sys, usr, p, log)
  {
    OpenAnswersAt(w, sys, usr, p, log, Requests(log) - Responses(log), |Replay(log).value.messages|);
  }

  lemma OpenAnswersAt(w: World, sys: string, usr: string, p: Policy, log: seq<Event>, lost: int, n: nat)
    requires Lawful(w) && Open(w, sys, usr, log) && lost == Requests(log) - Responses(log) && n == |Replay(log).value.messages|
    ensures Resume(w, p, log).1.Answer? <==> AnswersAt(w, sys, usr, p, lost, n)
  {
    ResumeExactly(w, sys, usr, p, log, lost);
    AnswersAtExactly(w, sys, usr, p, lost, n);
  }

  lemma AnswersAtExactly(w: World, sys: string, usr: string, p: Policy, lost: int, n: nat)
    requires Lawful(w)
    ensures AnswersAt(w, sys, usr, p, lost, n) <==> AffordableClear(w, sys, usr, p, lost, n)
  {
    AffordableInTime(w, sys, usr, p, lost, n);
    if lost <= p.maxIterations {
      ClearExactly(w, sys, usr, p, lost, n);
    }
  }

  lemma AffordableInTime(w: World, sys: string, usr: string, p: Policy, lost: int, n: nat)
    ensures AffordableClear(w, sys, usr, p, lost, n) ==> lost <= p.maxIterations
  {
  }

  /** The history of the run on the reduced policy is the one end of the path. */
  lemma ClearExactly(w: World, sys: string, usr: string, p: Policy, lost: int, n: nat)
    requires Lawful(w) && lost <= p.maxIterations
    ensures var whole := Run(w, Reduced(p, lost), sys, usr);
            AffordableClear(w, sys, usr, p, lost, n) <==> whole.1.Answer? && ClearRun(n, whole)
  {
    var whole := Run(w, Reduced(p, lost), sys, usr);
    ReducedExactly(w, sys, usr, p, lost);
    RunExactly(w, sys, usr, Reduced(p, lost));
    if Affordable(w, sys, usr, p, lost) {
      RunAnswer(w, Reduced(p, lost), sys, usr);
      var end :| Pays(w, sys, usr, p, lost, end);
      OneEnd(w, sys, usr, p, lost, n, end, Replay(whole.0).value.messages);
    }
  }

  lemma OneEnd(w: World, sys: string, usr: string, p: Policy, lost: int, n: nat, end: seq<Message>, msgs: seq<Message>)
    requires Pays(w, sys, usr, p, lost, end) && OnPath(w, sys, usr, msgs) && Final(msgs)
    ensures AffordableClear(w, sys, usr, p, lost, n) <==> Clear(n, msgs)
  {
    FinalUnique(w, sys, usr, end, msgs);
    if AffordableClear(w, sys, usr, p, lost, n) {
      var other :| Pays(w, sys, usr, p, lost, other) && Clear(n, other);
      FinalUnique(w, sys, usr, other, msgs);
    }
  }

  /** The log was left open by processes that died. */
  predicate Unfinished(log: seq<Event>) { log != [] && Replay(log).Some? && !Replay(log).value.state.Terminal() }

  lemma AfterOpen(w: World, sys: string, usr: string, first: Attempt, more: seq<Attempt>)
    requires Lawful(w) && Unfinished(After(w, sys, usr, first, more))
    ensures Open(w, sys, usr, After(w, sys, usr, first, more))
  {
    CoverBounds(first, more);
    AfterSound(w, sys, usr, first, more, CoverAll(first, more));
    assert Sound(w, sys, usr, CoverAll(first, more), After(w, sys, usr, first, more));
  }

  /** Exactly when a resume answers, after any attempts, each cut anywhere. */
  lemma ResumeAnswersExactly(w: World, sys: string, usr: string, first: Attempt, more: seq<Attempt>, p: Policy)
    requires Lawful(w) && Unfinished(After(w, sys, usr, first, more))
    ensures AnswersExactly(w, sys, usr, p, After(w, sys, usr, first, more))
  {
    AfterOpen(w, sys, usr, first, more);
    OpenAnswersExactly(w, sys, usr, p, After(w, sys, usr, first, more));
  }

  /** One more iteration for every response that was lost. */
  function Granted(p: Policy, log: seq<Event>): Policy
    requires Requests(log) >= Responses(log)
  {
    Policy(p.maxIterations + Requests(log) - Responses(log), p.maxToolCalls)
  }

  lemma GrantedAt(w: World, sys: string, usr: string, p: Policy, lost: nat, n: nat)
    requires Run(w, p, sys, usr).1.Answer? && ClearRun(n, Run(w, p, sys, usr))
    ensures AnswersAt(w, sys, usr, Policy(p.maxIterations + lost, p.maxToolCalls), lost, n)
  {
    assert Reduced(Policy(p.maxIterations + lost, p.maxToolCalls), lost) == p;
  }

  lemma GrantedAnswers(w: World, sys: string, usr: string, p: Policy, log: seq<Event>)
    requires Lawful(w) && Open(w, sys, usr, log) && Run(w, p, sys, usr).1.Answer? && Untroubled(log, Run(w, p, sys, usr))
    ensures Requests(log) >= Responses(log) && Resume(w, Granted(p, log), log).1.Answer?
  {
    OpenAnswersExactly(w, sys, usr, p, log);
    OpenAnswersExactly(w, sys, usr, Granted(p, log), log);
    GrantedAt(w, sys, usr, p, Requests(log) - Responses(log), |Replay(log).value.messages|);
  }

  /** Crash/resume refinement with its budget: a resume that is granted one more iteration for every lost response,
      and meets no busy tool, ends with the history and the answer of the uninterrupted run. */
  lemma ResumeEqualsRun(w: World, sys: string, usr: string, first: Attempt, more: seq<Attempt>, p: Policy)
    requires Lawful(w) && Run(w, p, sys, usr).1.Answer? && Unfinished(After(w, sys, usr, first, more))
    requires Untroubled(After(w, sys, usr, first, more), Run(w, p, sys, usr))
    ensures var log := After(w, sys, usr, first, more);
            Requests(log) >= Responses(log) && SameEnd(false, Resume(w, Granted(p, log), log), Run(w, p, sys, usr))
  {
    var log := After(w, sys, usr, first, more);
    AfterOpen(w, sys, usr, first, more);
    GrantedAnswers(w, sys, usr, p, log);
    CrashResumeRefines(w, sys, usr, first, more, Granted(p, log), p);
  }

  // -------------------------------------------------------------- the cached answer

  predicate Speaks(m: Message) { m.Assistant? && m.content.Some? && m.content.value != "" }

  /** The cached answer is the text of the last assistant message that has any; there is none exactly when nobody
      said anything. */
  lemma {:induction false} CachedIsLatest(msgs: seq<Message>) returns (k: nat)
    ensures if CachedAnswer(msgs).Some? then LatestSpeech(msgs, k) && CachedAnswer(msgs) == msgs[k].content
            else forall i :: 0 <= i < |msgs| ==> !Speaks(msgs[i])
  {
    k := 0;
    if msgs != [] {
      var n := |msgs| - 1;
      if Speaks(msgs[n]) {
        k := n;
      } else {
        k := CachedIsLatest(msgs[..n]);
        assert forall i :: 0 <= i < n ==> msgs[..n][i] == msgs[i];
      }
    }
  }

  predicate LatestSpeech(msgs: seq<Message>, k: nat) {
    k < |msgs| && Speaks(msgs[k]) && forall i :: k < i < |msgs| ==> !Speaks(msgs[i])
  }

  /** The cache is right unless the final text is empty, or absent while something was said earlier. */
  predicate CacheRight(msgs: seq<Message>)
    requires Final(msgs)
  {
    var content := msgs[|msgs| - 1].content;
    if content.Some? then content.value != ""
    else forall i :: 0 <= i < |msgs| - 1 ==> !Speaks(msgs[i])
  }

  lemma CacheExact(msgs: seq<Message>)
    requires Final(msgs)
    ensures CachedAnswer(msgs) == msgs[|msgs| - 1].content <==> CacheRight(msgs)
  {
    var k := CachedIsLatest(msgs);
  }

  /** Resuming a completed log appends nothing, and gives the answer of `whole` exactly when the cache is right. */
  ghost predicate CacheDecides(w: World, p: Policy, log: seq<Event>, whole: (seq<Event>, Outcome)) {
    && Replay(whole.0).Some? && Final(Replay(whole.0).value.messages)
    && Resume(w, p, log).0 == log
    && (Resume(w, p, log).1 == whole.1 <==> CacheRight(Replay(whole.0).value.messages))
  }

  lemma CompleteDecides(w: World, sys: string, usr: string, p: Policy, log: seq<Event>, whole: (seq<Event>, Outcome))
    requires log != [] && Faithful(w, sys, usr, log) && Complete(log) && EndsPath(w, sys, usr, false, whole)
    ensures CacheDecides(w, p, log, whole)
  {
    CompleteMatches(w, sys, usr, log, whole);
    DecidedBy(w, p, log, Replay(log).value, whole, Replay(whole.0).value);
  }

  /** The cache of `msgs` is the last word of `end` exactly when the cache of `end` is right. */
  ghost predicate CacheMatches(msgs: seq<Message>, end: seq<Message>)
    requires Final(end)
  {
    CachedAnswer(msgs) == end[|end| - 1].content <==> CacheRight(end)
  }

  lemma CompleteMatches(w: World, sys: string, usr: string, log: seq<Event>, whole: (seq<Event>, Outcome))
    requires Faithful(w, sys, usr, log) && Complete(log) && EndsPath(w, sys, usr, false, whole)
    ensures CacheMatches(Replay(log).value.messages, Replay(whole.0).value.messages)
  {
    PointEnds(w, sys, usr, Replay(log).value);
    CachedExactly(w, sys, usr, Replay(log).value.messages, Replay(whole.0).value.messages);
  }

  lemma DecidedBy(w: World, p: Policy, log: seq<Event>, s: Session, whole: (seq<Event>, Outcome), end: Session)
    requires log != [] && Replay(log) == Some(s) && s.state.Completed? && Replay(whole.0) == Some(end) && Final(end.messages)
    requires whole.1 == Answer(end.messages[|end.messages| - 1].content) && CacheMatches(s.messages, end.messages)
    ensures CacheDecides(w, p, log, whole)
  {
    CompleteResumes(w, p, log, s);
  }

  lemma CompleteResumes(w: World, p: Policy, log: seq<Event>, s: Session)
    requires log != [] && Replay(log) == Some(s) && s.state.Completed?
    ensures Resume(w, p, log) == (log, Answer(CachedAnswer(s.messages)))
  {
  }

  /** Resuming a log that already holds the final response gives the run's answer exactly when the cache is right. */
  lemma CachedResumeExactly(w: World, sys: string, usr: string, first: Attempt, more: seq<Attempt>, p: Policy, p0: Policy)
    requires Lawful(w) && Run(w, p0, sys, usr).1.Answer? && Complete(After(w, sys, usr, first, more))
    ensures CacheDecides(w, p, After(w, sys, usr, first, more), Run(w, p0, sys, usr))
  {
    AfterFaithful(w, sys, usr, first, more);
    RunAnswer(w, p0, sys, usr);
    assert !Complete([]);
    CompleteDecides(w, sys, usr, p, After(w, sys, usr, first, more), Run(w, p0, sys, usr));
  }

  lemma CachedExactly(w: World, sys: string, usr: string, msgs: seq<Message>, end: seq<Message>)
    requires OnPath(w, sys, usr, msgs) && OnPath(w, sys, usr, end) && Final(msgs) && Final(end)
    ensures CacheMatches(msgs, end)
  {
    FinalUnique(w, sys, usr, msgs, end);
    CacheExact(end);
  }

  // ----------------------------------------------------------------- three limits

  /** An environment whose model answers at once. */
  function Terse(text: string): World {
    World((m: seq<Message>) => Reply(Response(Some(text), [])), (c: ToolCall) => ExecutorStateError, (l: seq<Event>, c: ToolCall) => [])
  }

  lemma TerseRun(text: string, n: nat)
    requires n >= 1
    ensures Lawful(Terse(text))
    ensures Run(Terse(text), Policy(n, 0), "", "") ==
            ([RunStarted("", ""), LlmRequested(1), LlmResponded(1, Some(text), []), LlmFinalResponse(Some(text)), RunCompleted], Answer(Some(text)))
  {
    var w, start := Terse(text), [RunStarted("", "")];
    var g := Ask(w, Policy(n, 0), start, [System(""), User("")], Usage(0, {}));
    assert g == End(start + [LlmRequested(1)] + [LlmResponded(1, Some(text), [])] + [LlmFinalResponse(Some(text))] + [RunCompleted], Answer(Some(text)));
    assert g.log == [RunStarted("", ""), LlmRequested(1), LlmResponded(1, Some(text), []), LlmFinalResponse(Some(text)), RunCompleted];
  }

  /** A crash between request and response makes the same policy halt where the uninterrupted run answers. */
  lemma LostRequestHalts()
    ensures var w, p := Terse("ok"), Policy(1, 0);
            && Run(w, p, "", "").1 == Answer(Some("ok"))
            && Resume(w, p, After(w, "", "", Attempt(p, 2), [])).1 == Stopped
  {
    var w, p := Terse("ok"), Policy(1, 0);
    TerseRun("ok", 1);
    var log := After(w, "", "", Attempt(p, 2), []);
    assert log == [RunStarted("", ""), LlmRequested(1)];
    AskedOnce(log);
    assert Ask(w, p, log, [System(""), User("")], Usage(1, {})) == End(log + [RunHalted("MAX_ITERATIONS_REACHED")], Stopped);
  }

  lemma AskedOnce(log: seq<Event>)
    requires log == [RunStarted("", ""), LlmRequested(1)]
    ensures Replay(log) == Some(Session([System(""), User("")], [], LlmWaiting)) && IterationsUsed(log) == 1 && IdsUsed(log) == {}
  {
    var start := [RunStarted("", "")];
    assert [] + [RunStarted("", "")] == start && start + [LlmRequested(1)] == log;
    ReplayAppend([], RunStarted("", ""));
    ReplayAppend(start, LlmRequested(1));
    UsageAppend([], RunStarted("", ""));
    UsageAppend(start, LlmRequested(1));
  }

  /** An empty final answer is not what resuming the completed run returns. */
  lemma EmptyAnswerNotCached()
    ensures var w, p := Terse(""), Policy(1, 0);
            && Run(w, p, "", "").1 == Answer(Some(""))
            && Resume(w, p, After(w, "", "", Attempt(p, 5), [])).1 != Answer(Some(""))
  {
    var w, p := Terse(""), Policy(1, 0);
    TerseRun("", 1);
    RunAnswer(w, p, "", "");
    FaithfulKept(w, p, "", "");
    RunKeeps(w, p, IsFaithful(w, "", ""), "", "");
    CachedResumeExactly(w, "", "", Attempt(p, 5), [], p, p);
  }

  const BUSY_CALL := ToolCall("c", "t", "")
  const BUSY_RESULT := ToolResult("t", "ERROR", "null", Some(ToolFault("IDEMPOTENCY_IN_PROGRESS", "")))

  /** An environment that asks for one tool, which is busy, and then answers. */
  function Contended(): World {
    World((m: seq<Message>) => if |m| == 2 then Reply(Response(None, [BUSY_CALL])) else Reply(Response(Some("ok"), [])),
          (c: ToolCall) => Done(BUSY_RESULT.(toolName := c.name)), (l: seq<Event>, c: ToolCall) => [])
  }

  const ASKED := [RunStarted("", ""), LlmRequested(1), LlmResponded(1, None, [BUSY_CALL])]

  lemma ContendedRun()
    ensures Lawful(Contended())
    ensures var r := Run(Contended(), Policy(10, 10), "", ""); ASKED <= r.0 && r.1 == Answer(Some("ok"))
  {
    var w, p := Contended(), Policy(10, 10);
    var start, opening := [RunStarted("", "")], [System(""), User("")];
    var asked := opening + [Assistant(None, [BUSY_CALL])];
    assert Ask(w, p, start, opening, Usage(0, {})) == Next(ASKED, asked, Usage(1, {}), [BUSY_CALL]);
    var told := ASKED + [] + [ResultEvent(BUSY_CALL, BUSY_RESULT, true)];
    var answered := asked + [ToolMessage("c", BUSY_RESULT)];
    assert Call(w, p, false, ASKED, asked, Usage(1, {}), [BUSY_CALL]) == Next(told, answered, Usage(1, {} + {"c"}), []);
    assert Ask(w, p, told, answered, Usage(1, {} + {"c"})).outcome == Answer(Some("ok"));
    DriveExtends(w, p, false, ASKED, asked, Usage(1, {}), [BUSY_CALL]);
  }

  lemma AskedReplays()
    ensures Replay(ASKED) == Some(Session([System(""), User(""), Assistant(None, [BUSY_CALL])], [BUSY_CALL], ToolExecuting))
  {
    var log := [RunStarted("", ""), LlmRequested(1)];
    AskedOnce(log);
    assert log + [LlmResponded(1, None, [BUSY_CALL])] == ASKED;
    ReplayAppend(log, LlmResponded(1, None, [BUSY_CALL]));
    assert [System(""), User("")] + [Assistant(None, [BUSY_CALL])] == [System(""), User(""), Assistant(None, [BUSY_CALL])];
    PutAllEmpty([BUSY_CALL]);
  }

  /** A process that dies before the busy call's result is logged: the uninterrupted run answers, and no resume ever
      does, whatever its policy. */
  lemma BusyToolStopsResume(p: Policy)
    ensures var w := Contended();
            && Lawful(w) && Run(w, Policy(10, 10), "", "").1 == Answer(Some("ok"))
            && var log := After(w, "", "", Attempt(Policy(10, 10), 3), []);
               Unfinished(log) && !Resume(w, p, log).1.Answer?
  {
    var w := Contended();
    ContendedRun();
    AskedReplays();
    assert After(w, "", "", Attempt(Policy(10, 10), 3), []) == ASKED;
    BusyStops(p, Replay(ASKED).value);
  }

  lemma BusyStops(p: Policy, s: Session)
    requires Replay(ASKED) == Some(s) && s.pending == [BUSY_CALL] && s.state.ToolExecuting?
    ensures !Resume(Contended(), p, ASKED).1.Answer?
  {
    var u := Usage(IterationsUsed(ASKED), IdsUsed(ASKED));
    assert Call(Contended(), p, true, ASKED, s.messages, u, s.pending).End?;
  }
}
