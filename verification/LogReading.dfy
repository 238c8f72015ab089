/** What replay and the usage reader say about a log, read off its lines: which events a state
    admits, the message each event leaves, the calls that stay open, and the usage it shows. */
module LogReading {
  import opened Options
  import opened Checkpoints
  import opened AgentLoop

  // ------------------------------------------------------------- the state machine

  /** Event by event: the states it may come in, and the one it leads to. */
  lemma Admits(s: RunState, e: Event)
    ensures match e
            case TaskStart(_) => NextState(s, e) == if s == Pending || s == Running then Some(Running) else None
            case RunStarted(_, _) => NextState(s, e) == if s == Pending || s == Running then Some(Running) else None
            case LlmRequested(_) => NextState(s, e) == if s == Running || s == LlmWaiting then Some(LlmWaiting) else None
            case LlmResponded(_, _, calls) =>
              NextState(s, e) == if s != LlmWaiting then None else if |calls| > 0 then Some(ToolExecuting) else Some(Completed)
            case ToolCallCreated(_) => NextState(s, e) == if s in {Completed, Failed, Halted} then None else Some(ToolExecuting)
            case ToolAttemptStarted(_) => NextState(s, e) == if s in {Completed, Failed, Halted} then None else Some(ToolExecuting)
            case ToolAttemptEnded(_) => NextState(s, e) == if s == ToolExecuting then Some(ToolExecuting) else None
            case ToolCallRejected(_) => NextState(s, e) == if s == ToolExecuting then Some(ToolExecuting) else None
            case RetryScheduled(_) => NextState(s, e) == if s == Running || s == ToolExecuting then Some(s) else None
            case ToolResultReceived(_, _, _, _, last) =>
              NextState(s, e) == if s != ToolExecuting then None else if last then Some(LlmWaiting) else Some(ToolExecuting)
            case LlmFinalResponse(_) => NextState(s, e) == if s in {Failed, Halted} then None else Some(Completed)
            case RunCompleted => NextState(s, e) == if s in {Failed, Halted} then None else Some(Completed)
            case RunFailed => NextState(s, e) == if s in {Completed, Halted} then None else Some(Failed)
            case RunHalted(_) => NextState(s, e) == if s in {Completed, Failed} then None else Some(Halted)
            case TaskEnd(success) =>
              NextState(s, e) == if s == Halted then None
                                 else if s == Completed || s == Failed then Some(s)
                                 else if success then Some(Completed) else Some(Failed)
  {
  }

  /** An event that may still follow the end of a run. */
  predicate Closing(s: RunState, e: Event) {
    match s
    case Completed => e.RunCompleted? || e.LlmFinalResponse? || e.TaskEnd?
    case Failed => e.RunFailed? || e.TaskEnd?
    case Halted => e.RunHalted?
    case _ => false
  }

  lemma ClosedStep(s: Session, e: Event)
    requires s.state in {Completed, Failed, Halted}
    ensures ApplyEvent(s, e) == if Closing(s.state, e) then Some(s) else None
  {
  }

  predicate AllClosing(s: RunState, more: seq<Event>) { forall i :: 0 <= i < |more| ==> Closing(s, more[i]) }

  lemma ClosingAppend(s: RunState, more: seq<Event>, e: Event)
    ensures AllClosing(s, more + [e]) <==> AllClosing(s, more) && Closing(s, e)
  {
    assert (more + [e])[|more|] == e && forall i :: 0 <= i < |more| ==> (more + [e])[i] == more[i];
  }

  /** A run that has ended stays as it is: a log continues legally with closing events of the same kind and no
      others, and they change nothing of what replay gives. */
  lemma {:induction false} EndIsFinal(log: seq<Event>, more: seq<Event>)
    requires Replay(log).Some? && Replay(log).value.state in {Completed, Failed, Halted}
    ensures Replay(log + more) == if AllClosing(Replay(log).value.state, more) then Replay(log) else None
  {
    if more == [] {
      assert log + more == log;
    } else {
      var n := |more| - 1;
      var init, e := more[..n], more[n];
      assert more == init + [e] && log + more == log + init + [e];
      EndIsFinal(log, init);
      ClosingAppend(Replay(log).value.state, init, e);
      ReplayAppend(log + init, e);
      ClosedStep(Replay(log).value, e);
    }
  }

  // ------------------------------------------------------------------ the messages

  /** A logged result becomes a tool message with that result's status, data, error and tool, under the id of the call. */
  lemma ResultReplays(log: seq<Event>, id: string, name: string, status: string, r: ToolResult, last: bool)
    requires Replay(log + [ToolResultReceived(id, name, status, Some(r), last)]).Some?
    ensures var msgs := Replay(log + [ToolResultReceived(id, name, status, Some(r), last)]).value.messages;
            && Replay(log).Some? && |msgs| == |Replay(log).value.messages| + 1 && msgs[..|msgs| - 1] == Replay(log).value.messages
            && var m := msgs[|msgs| - 1];
               m.Tool? && m.status == r.status && m.data == r.data && m.error == r.error && m.callId == id && m.toolName == r.toolName
  {
    ReplayAppend(log, ToolResultReceived(id, name, status, Some(r), last));
  }

  /** A result line without the result itself is replayed from its own status and tool name, with no data and no error. */
  lemma BareResultReplays(log: seq<Event>, id: string, name: string, status: string, last: bool)
    requires Replay(log + [ToolResultReceived(id, name, status, None, last)]).Some?
    ensures var msgs := Replay(log + [ToolResultReceived(id, name, status, None, last)]).value.messages;
            && Replay(log).Some? && |msgs| == |Replay(log).value.messages| + 1 && msgs[..|msgs| - 1] == Replay(log).value.messages
            && var m := msgs[|msgs| - 1];
               m.Tool? && m.status == status && m.data == "null" && m.error == None && m.callId == id && m.toolName == name
  {
    ReplayAppend(log, ToolResultReceived(id, name, status, None, last));
  }

  /** The start gives both prompts, a response one assistant message with its text and calls, and no other event but a
      result says anything. */
  lemma OthersReplay(log: seq<Event>, e: Event)
    requires Replay(log + [e]).Some? && !e.ToolResultReceived?
    ensures Replay(log).Some?
    ensures var was, now := Replay(log).value.messages, Replay(log + [e]).value.messages;
            match e
            case TaskStart(context) => now == [System(context), User("")]
            case RunStarted(sys, usr) => now == [System(sys), User(usr)]
            case LlmResponded(_, content, calls) =>
              |now| == |was| + 1 && now[..|was|] == was
              && now[|was|].Assistant? && now[|was|].content == content && now[|was|].calls == calls
            case _ => now == was
  {
    ReplayAppend(log, e);
  }

  // ------------------------------------------------------------------ the open calls

  /** The last call a response makes under its id is `c`. */
  predicate Makes(calls: seq<ToolCall>, c: ToolCall) {
    exists k :: 0 <= k < |calls| && calls[k] == c && !HasId(calls[k + 1..], c.callId)
  }

  predicate Touches(e: Event, id: string) {
    (e.LlmResponded? && HasId(e.calls, id)) || (e.ToolResultReceived? && e.callId == id)
  }

  /** Line `i` asks for `c`, and no later line asks for that id again or answers it. */
  predicate Asked(log: seq<Event>, i: nat, c: ToolCall) {
    i < |log| && log[i].LlmResponded? && Makes(log[i].calls, c) && forall j :: i < j < |log| ==> !Touches(log[j], c.callId)
  }

  lemma {:induction false} PutHas(pending: seq<ToolCall>, d: ToolCall, c: ToolCall)
    requires DistinctIds(pending)
    ensures c in PutPending(pending, d) <==> c == d || (c in pending && c.callId != d.callId)
    ensures HasId(PutPending(pending, d), c.callId) <==> c.callId == d.callId || HasId(pending, c.callId)
  {
    if pending == [] {
      HasSplit(d, [], c.callId);
      assert [d] + [] == [d];
    } else {
      var rest := pending[1..];
      assert pending == [pending[0]] + rest && forall i :: 0 <= i < |rest| ==> rest[i] == pending[i + 1];
      if pending[0].callId == d.callId {
        HasSplit(d, rest, c.callId);
        HasSplit(pending[0], rest, c.callId);
      } else {
        PutHas(rest, d, c);
        HasSplit(pending[0], rest, c.callId);
        HasSplit(pending[0], PutPending(rest, d), c.callId);
      }
    }
  }

  lemma HasSplit(d: ToolCall, rest: seq<ToolCall>, id: string)
    ensures HasId([d] + rest, id) <==> d.callId == id || HasId(rest, id)
  {
    if d.callId == id {
      assert ([d] + rest)[0] == d;
    }
    if HasId(rest, id) {
      var i :| 0 <= i < |rest| && rest[i].callId == id;
      assert ([d] + rest)[i + 1] == rest[i];
    }
  }

  lemma HeadDistinct(d: ToolCall, rest: seq<ToolCall>)
    ensures DistinctIds([d] + rest) <==> DistinctIds(rest) && !HasId(rest, d.callId)
  {
    var all := [d] + rest;
    assert all[0] == d && forall i :: 0 <= i < |rest| ==> all[i + 1] == rest[i];
    if DistinctIds(all) {
      forall i, j | 0 <= i < j < |rest| ensures rest[i].callId != rest[j].callId {
        assert all[i + 1].callId != all[j + 1].callId;
      }
    }
  }

  /** A call that is pending already keeps its place. */
  lemma {:induction false} PutKeepsPlace(pending: seq<ToolCall>, d: ToolCall)
    requires HasId(pending, d.callId)
    ensures |PutPending(pending, d)| == |pending|
    ensures forall i :: 0 <= i < |pending| ==> PutPending(pending, d)[i].callId == pending[i].callId
  {
    if pending[0].callId != d.callId {
      HasSplit(pending[0], pending[1..], d.callId);
      assert pending == [pending[0]] + pending[1..];
      PutKeepsPlace(pending[1..], d);
    }
  }

  lemma {:induction false} PutDistinct(pending: seq<ToolCall>, d: ToolCall)
    requires DistinctIds(pending)
    ensures DistinctIds(PutPending(pending, d))
  {
    if pending != [] {
      var rest := pending[1..];
      assert pending == [pending[0]] + rest;
      HeadDistinct(pending[0], rest);
      if pending[0].callId == d.callId {
        HeadDistinct(d, rest);
      } else {
        PutDistinct(rest, d);
        PutHas(rest, d, pending[0]);
        HeadDistinct(pending[0], PutPending(rest, d));
      }
    }
  }

  lemma {:induction false} PutAllHas(pending: seq<ToolCall>, calls: seq<ToolCall>, c: ToolCall)
    requires DistinctIds(pending)
    ensures DistinctIds(PutAll(pending, calls))
    ensures c in PutAll(pending, calls) <==> Makes(calls, c) || (c in pending && !HasId(calls, c.callId))
    decreases calls
  {
    if calls != [] {
      var d, rest := calls[0], calls[1..];
      assert calls == [d] + rest;
      PutDistinct(pending, d);
      PutAllHas(PutPending(pending, d), rest, c);
      PutHas(pending, d, c);
      HasSplit(d, rest, c.callId);
      MakesSplit(d, rest, c);
    }
  }

  lemma MakesSplit(d: ToolCall, rest: seq<ToolCall>, c: ToolCall)
    ensures Makes([d] + rest, c) <==> Makes(rest, c) || (c == d && !HasId(rest, c.callId))
  {
    var all := [d] + rest;
    assert forall k :: 0 <= k < |rest| ==> all[k + 1] == rest[k] && all[k + 2..] == rest[k + 1..];
    assert all[0] == d && all[1..] == rest;
    if Makes(rest, c) {
      var k :| 0 <= k < |rest| && rest[k] == c && !HasId(rest[k + 1..], c.callId);
      assert all[k + 1] == c && all[(k + 1) + 1..] == rest[k + 1..];
    }
    if Makes(all, c) {
      var k :| 0 <= k < |all| && all[k] == c && !HasId(all[k + 1..], c.callId);
      if k > 0 {
        assert rest[k - 1] == c && all[k + 1..] == rest[(k - 1) + 1..];
      }
    }
  }

  lemma {:induction false} PopHas(pending: seq<ToolCall>, id: string, c: ToolCall)
    requires DistinctIds(pending)
    ensures DistinctIds(PopPending(pending, id))
    ensures c in PopPending(pending, id) <==> c in pending && c.callId != id
    ensures HasId(PopPending(pending, id), c.callId) ==> HasId(pending, c.callId)
  {
    if pending != [] {
      var d, rest := pending[0], pending[1..];
      assert pending == [d] + rest;
      HeadDistinct(d, rest);
      HasSplit(d, rest, c.callId);
      if d.callId != id {
        PopHas(rest, id, c);
        PopHas(rest, id, d);
        HasSplit(d, PopPending(rest, id), c.callId);
        HeadDistinct(d, PopPending(rest, id));
      } else {
        assert c in rest ==> HasId(rest, c.callId);
      }
    }
  }

  /** What one event does to the open calls. */
  lemma PendingStep(s: Session, e: Event, c: ToolCall)
    requires ApplyEvent(s, e).Some? && DistinctIds(s.pending)
    ensures var t := ApplyEvent(s, e).value;
            && DistinctIds(t.pending)
            && (c in t.pending <==> (e.LlmResponded? && Makes(e.calls, c)) || (c in s.pending && !Touches(e, c.callId)))
  {
    if e.LlmResponded? {
      PutAllHas(s.pending, e.calls, c);
    } else if e.ToolResultReceived? {
      PopHas(s.pending, e.callId, c);
    }
  }

  ghost predicate Open(log: seq<Event>, c: ToolCall) { exists i: nat :: Asked(log, i, c) }

  /** Of every legal log the pending calls are exactly those asked for and neither answered nor asked for again since. */
  lemma {:induction false} PendingExactly(log: seq<Event>, c: ToolCall)
    requires Replay(log).Some?
    ensures DistinctIds(Replay(log).value.pending)
    ensures c in Replay(log).value.pending <==> Open(log, c)
  {
    if log != [] {
      var before, e := log[..|log| - 1], log[|log| - 1];
      assert log == before + [e];
      ReplayAppend(before, e);
      PendingExactly(before, c);
      PendingStep(Replay(before).value, e, c);
      AskedAppend(before, e, c);
    }
  }

  lemma AskedAppend(log: seq<Event>, e: Event, c: ToolCall)
    ensures Open(log + [e], c) <==>
            (e.LlmResponded? && Makes(e.calls, c)) || (Open(log, c) && !Touches(e, c.callId))
  {
    var all := log + [e];
    assert all[|log|] == e && forall j :: 0 <= j < |log| ==> all[j] == log[j];
    if e.LlmResponded? && Makes(e.calls, c) {
      assert Asked(all, |log|, c);
    }
    if Open(all, c) {
      var i: nat :| Asked(all, i, c);
      if i < |log| {
        assert !Touches(all[|log|], c.callId);
        assert Asked(log, i, c);
      }
    }
    if Open(log, c) && !Touches(e, c.callId) {
      var i: nat :| Asked(log, i, c);
      assert Asked(all, i, c);
    }
  }

  // ----------------------------------------------------------------------- the usage

  predicate Mentions(e: Event, id: string) {
    || (e.LlmResponded? && HasId(e.calls, id))
    || (e.ToolAttemptStarted? && e.callId == id)
    || (e.ToolAttemptEnded? && e.callId == id)
    || (e.ToolResultReceived? && e.callId == id)
  }

  /** The iterations charged are the highest number any request or response carries. */
  lemma {:induction false} IterationsExactly(log: seq<Event>)
    ensures forall i :: 0 <= i < |log| && (log[i].LlmRequested? || log[i].LlmResponded?) ==> log[i].iteration <= IterationsUsed(log)
    ensures IterationsUsed(log) > 0 ==>
              exists i :: 0 <= i < |log| && (log[i].LlmRequested? || log[i].LlmResponded?) && log[i].iteration == IterationsUsed(log)
  {
    if log != [] {
      IterationsExactly(log[..|log| - 1]);
      assert forall i :: 0 <= i < |log| - 1 ==> log[..|log| - 1][i] == log[i];
    }
  }

  /** The ids charged are those that some response, attempt or result mentions. */
  lemma {:induction false} IdsExactly(log: seq<Event>, id: string)
    ensures id in IdsUsed(log) <==> exists i :: 0 <= i < |log| && Mentions(log[i], id)
  {
    if log != [] {
      IdsExactly(log[..|log| - 1], id);
      assert forall i :: 0 <= i < |log| - 1 ==> log[..|log| - 1][i] == log[i];
      assert id in EventIds(log[|log| - 1]) <==> Mentions(log[|log| - 1], id);
    }
  }
}
