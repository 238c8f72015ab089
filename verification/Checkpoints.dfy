/** The durable checkpoint log of one agent run: its events, the run-state
    machine that guards every append, and the replay that folds a log back
    into a session. */
module Checkpoints {

  import opened Options

  datatype ToolCall = ToolCall(callId: string, name: string, arguments: string)

  datatype ToolFault = ToolFault(code: string, message: string)

  datatype ToolResult = ToolResult(toolName: string, status: string, data: string, error: Option<ToolFault>)

  datatype Message =
    | System(text: string)
    | User(text: string)
    | Assistant(content: Option<string>, calls: seq<ToolCall>)
    | Tool(status: string, data: string, error: Option<ToolFault>, callId: string, toolName: string)

  datatype Event =
    | TaskStart(context: string)
    | RunStarted(systemPrompt: string, userPrompt: string)
    | LlmRequested(iteration: nat)
    | LlmResponded(iteration: nat, content: Option<string>, calls: seq<ToolCall>)
    | ToolCallCreated(callId: string)
    | ToolAttemptStarted(callId: string)
    | ToolAttemptEnded(callId: string)
    | RetryScheduled(callId: string)
    | ToolCallRejected(callId: string)
    | ToolResultReceived(callId: string, toolName: string, status: string, result: Option<ToolResult>, iterationComplete: bool)
    | LlmFinalResponse(content: Option<string>)
    | RunCompleted
    | RunFailed
    | RunHalted(reason: string)
    | TaskEnd(success: bool)

  datatype RunState = Pending | Running | LlmWaiting | ToolExecuting | Completed | Failed | Halted
  {
    predicate Terminal() { Completed? || Failed? || Halted? }
  }

  /** The checkpoint state machine; None is an illegal transition. */
  function NextState(s: RunState, e: Event): Option<RunState> {
    if s.Completed? then (if e.RunCompleted? || e.LlmFinalResponse? || e.TaskEnd? then Some(Completed) else None)
    else if s.Failed? then (if e.RunFailed? || e.TaskEnd? then Some(Failed) else None)
    else if s.Halted? then (if e.RunHalted? then Some(Halted) else None)
    else if e.RunCompleted? || e.LlmFinalResponse? then Some(Completed)
    else if e.RunFailed? then Some(Failed)
    else if e.RunHalted? then Some(Halted)
    else if e.TaskEnd? then Some(if e.success then Completed else Failed)
    else if s.Pending? then
      if e.TaskStart? || e.RunStarted? then Some(Running)
      else if e.ToolCallCreated? || e.ToolAttemptStarted? then Some(ToolExecuting)
      else None
    else if s.Running? then
      if e.TaskStart? || e.RunStarted? || e.RetryScheduled? then Some(Running)
      else if e.LlmRequested? then Some(LlmWaiting)
      else if e.ToolCallCreated? || e.ToolAttemptStarted? then Some(ToolExecuting)
      else None
    else if s.LlmWaiting? then
      if e.LlmRequested? then Some(LlmWaiting)
      else if e.LlmResponded? then Some(if e.calls != [] then ToolExecuting else Completed)
      else if e.ToolCallCreated? || e.ToolAttemptStarted? then Some(ToolExecuting)
      else None
    else if IsTrace(e) then Some(ToolExecuting)
    else if e.ToolResultReceived? then Some(if e.iterationComplete then LlmWaiting else ToolExecuting)
    else None
  }

  /** The events a tool executor writes while a call is under way. */
  predicate IsTrace(e: Event) {
    e.ToolCallCreated? || e.ToolAttemptStarted? || e.ToolAttemptEnded? || e.RetryScheduled? || e.ToolCallRejected?
  }

  /** What replay rebuilds. `pending` is the insertion-ordered dictionary of unanswered calls. */
  datatype Session = Session(messages: seq<Message>, pending: seq<ToolCall>, state: RunState)

  const EMPTY_SESSION := Session([], [], Pending)

  predicate HasId(calls: seq<ToolCall>, id: string) { exists i :: 0 <= i < |calls| && calls[i].callId == id }

  /** Dictionary assignment: an existing key keeps its place. */
  function PutPending(pending: seq<ToolCall>, c: ToolCall): seq<ToolCall> {
    if pending == [] then [c]
    else if pending[0].callId == c.callId then [c] + pending[1..]
    else [pending[0]] + PutPending(pending[1..], c)
  }

  function PutAll(pending: seq<ToolCall>, calls: seq<ToolCall>): seq<ToolCall>
    decreases calls
  {
    if calls == [] then pending else PutAll(PutPending(pending, calls[0]), calls[1..])
  }

  /** Dictionary `pop(key, None)`. */
  function PopPending(pending: seq<ToolCall>, id: string): seq<ToolCall> {
    if pending == [] then []
    else if pending[0].callId == id then pending[1..]
    else [pending[0]] + PopPending(pending[1..], id)
  }

  function ToolMessage(callId: string, r: ToolResult): Message {
    Tool(r.status, r.data, r.error, callId, r.toolName)
  }

  /** One iteration of the replay loop. */
  function ApplyEvent(s: Session, e: Event): Option<Session> {
    match NextState(s.state, e)
    case None => None
    case Some(st) =>
      var t := s.(state := st);
      match e
      case TaskStart(c) => Some(t.(messages := [System(c), User("")]))
      case RunStarted(sp, up) => Some(t.(messages := [System(sp), User(up)]))
      case LlmResponded(_, content, calls) =>
        Some(t.(messages := s.messages + [Assistant(content, calls)], pending := PutAll(s.pending, calls)))
      case ToolResultReceived(id, name, status, result, _) =>
        var r := if result.Some? then result.value else ToolResult(name, status, "null", None);
        Some(t.(messages := s.messages + [ToolMessage(id, r)], pending := PopPending(s.pending, id)))
      case _ => Some(t)
  }

  function Replay(log: seq<Event>): Option<Session> {
    if log == [] then Some(EMPTY_SESSION)
    else match Replay(log[..|log| - 1])
         case None => None
         case Some(s) => ApplyEvent(s, log[|log| - 1])
  }

  lemma ReplayAppend(log: seq<Event>, e: Event)
    ensures Replay(log + [e]) == match Replay(log) case None => None case Some(s) => ApplyEvent(s, e)
  {
    assert (log + [e])[..|log|] == log;
  }

  lemma {:induction false} ReplayPrefix(log: seq<Event>, n: nat)
    requires n <= |log| && Replay(log).Some?
    ensures Replay(log[..n]).Some?
  {
    if n == |log| {
      assert log[..n] == log;
    } else {
      ReplayPrefix(log[..|log| - 1], n);
      assert log[..|log| - 1][..n] == log[..n];
    }
  }

  /** `reconstruct_session` as the source runs it: one pass that stops at the first illegal event. */
  method ReconstructSession(log: seq<Event>) returns (r: Option<Session>)
    ensures r == Replay(log)
  {
    var s := EMPTY_SESSION;
    for i := 0 to |log|
      invariant Replay(log[..i]) == Some(s)
    {
      assert log[..i + 1] == log[..i] + [log[i]];
      ReplayAppend(log[..i], log[i]);
      match ApplyEvent(s, log[i]) {
        case None =>
          if Replay(log).Some? {
            ReplayPrefix(log, i + 1);
          }
          return None;
        case Some(t) => s := t;
      }
    }
    assert log[..|log|] == log;
    return Some(s);
  }

  /** `reconstruct_usage`: the highest iteration number and every logical call id the log mentions. */
  function IterationsUsed(log: seq<Event>): nat {
    if log == [] then 0
    else
      var rest := IterationsUsed(log[..|log| - 1]);
      var e := log[|log| - 1];
      if (e.LlmRequested? || e.LlmResponded?) && e.iteration > rest then e.iteration else rest
  }

  function CallIds(calls: seq<ToolCall>): set<string> { set i | 0 <= i < |calls| :: calls[i].callId }

  function EventIds(e: Event): set<string> {
    match e
    case LlmResponded(_, _, calls) => CallIds(calls)
    case ToolAttemptStarted(id) => {id}
    case ToolAttemptEnded(id) => {id}
    case ToolResultReceived(id, _, _, _, _) => {id}
    case _ => {}
  }

  function IdsUsed(log: seq<Event>): set<string> {
    if log == [] then {} else IdsUsed(log[..|log| - 1]) + EventIds(log[|log| - 1])
  }

  lemma UsageAppend(log: seq<Event>, e: Event)
    ensures IdsUsed(log + [e]) == IdsUsed(log) + EventIds(e)
    ensures IterationsUsed(log + [e]) ==
            if (e.LlmRequested? || e.LlmResponded?) && e.iteration > IterationsUsed(log) then e.iteration else IterationsUsed(log)
  {
    assert (log + [e])[..|log|] == log;
  }

  method ReconstructUsage(log: seq<Event>) returns (iterations: nat, ids: set<string>)
    ensures iterations == IterationsUsed(log) && ids == IdsUsed(log)
  {
    iterations, ids := 0, {};
    for i := 0 to |log|
      invariant iterations == IterationsUsed(log[..i]) && ids == IdsUsed(log[..i])
    {
      var e := log[i];
      assert log[..i + 1] == log[..i] + [e];
      UsageAppend(log[..i], e);
      if (e.LlmRequested? || e.LlmResponded?) && e.iteration > iterations {
        iterations := e.iteration;
      }
      ids := ids + EventIds(e);
    }
    assert log[..|log|] == log;
  }
}
