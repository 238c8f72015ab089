/** Authorizing a run, and undoing it when the executor provably never started: the
    rollback is the inverse of the activation, or it raises. */
module PreStartRollback {
  import opened Options
  import opened LeaseProtocol
  import opened Authority

  datatype RollbackIo = RollbackIo(release: bool, auth: Write, readable: bool, state: Write, stateReadable: bool)

  /** The earlier record without its own nested backup. */
  function Stripped(a: Option<Auth>): Option<Auth> {
    if a.Some? then Some(a.value.(prior := NoPrior)) else None
  }

  function AsNested(a: Option<Auth>): Nested { if a.Some? then Prior(a.value) else NoPrior }

  /** The record a rollback has to bring back; a malformed one cannot be. */
  function Former(n: Nested): Option<Auth> { if n.Prior? then Some(n.auth) else None }

  function LeaseOf(fp: Lease -> string, active: Auth, expected: Option<Lease>): Option<Lease> {
    if expected.Some? then expected else Reconstruct(fp, active)
  }

  /** Each of the three restorations goes through. */
  predicate Proven(fp: Lease -> string, s: Snapshot, active: Auth, expected: Option<Lease>, io: RollbackIo) {
    && LeaseOf(fp, active, expected).Some? && s.slot == Live(LeaseOf(fp, active, expected).value) && io.release
    && !active.prior.Malformed? && (active.prior.Prior? ==> active.prior.auth.status != ACTIVE && io.readable)
    && io.auth.Fine? && io.state.Fine? && (active.priorState.Some? ==> io.stateReadable)
  }

  /** That is: the slot held the very lease that was taken, or that the record names; the record before it was not ACTIVE,
      or there was none; and every write was made and read back. */
  lemma ProvenExactly(fp: Lease -> string, s: Snapshot, active: Auth, expected: Option<Lease>, io: RollbackIo)
    ensures Proven(fp, s, active, expected, io) <==>
            && s.slot.Live? && io.release && io.auth.Fine? && io.state.Fine?
            && (if expected.None? then Reconstruct(fp, active) == Some(s.slot.lease) else expected.value == s.slot.lease)
            && (match active.prior
                case NoPrior => Former(active.prior) == None
                case Malformed => false
                case Prior(a) => Former(active.prior) == Some(a) && a.status != "ACTIVE" && io.readable)
            && (active.priorState.None? || io.stateReadable)
  {
  }

  /** `_rollback_proven_pre_start_failure`; `clean` is a normal return, otherwise it raises. */
  method Rollback(d: Desk, fp: Lease -> string, task: string, active: Auth, expected: Option<Lease>, io: RollbackIo) returns (clean: bool)
    modifies d
    ensures clean <==> Proven(fp, old(d.Now()), active, expected, io)
    ensures clean ==> d.slot == Empty && d.auth == Former(active.prior)
    ensures clean && active.priorState.Some? ==> d.state == active.priorState.value
    ensures clean && active.priorState.None? ==> d.state.Some? && d.state.value.status == "PENDING_APPROVAL"
    ensures !clean && io.state.Fine? && (active.priorState.Some? ==> io.stateReadable) ==> d.state.Some? && d.state.value.status == "RECOVERY_REQUIRED"
    // both restorations are tried, whatever becomes of the other
    ensures d.slot == if LeaseOf(fp, active, expected).Some? && old(d.slot) == Live(LeaseOf(fp, active, expected).value) && io.release then Empty
                      else old(d.slot)
    ensures !io.auth.Lost? && !active.prior.Malformed? && (active.prior.Prior? ==> active.prior.auth.status != "ACTIVE") ==> d.auth == Former(active.prior)
    ensures d.auth == old(d.auth) || (d.auth == Former(active.prior) && (d.auth.Some? ==> d.auth.value.status != ACTIVE))
    ensures d.alarms == old(d.alarms)
    ensures clean ==> var free := old(d.Now()).(slot := Empty); d.trail == old(d.trail) + [free, free.(auth := d.auth), d.Now()]
  {
    var lease := LeaseOf(fp, active, expected);
    var released := false;
    if lease.Some? {
      released := d.Release(lease.value, io.release);
    }
    var restored := false;
    if active.prior.NoPrior? {
      restored := d.DropAuth(io.auth);
      restored := restored && d.auth.None?;
    } else if active.prior.Prior? && active.prior.auth.status != ACTIVE {
      restored := d.RestoreAuth(active.prior.auth, io.auth, io.readable);
    }
    clean := released && restored;
    var wrote;
    if clean && active.priorState.Some? {
      wrote := d.RestoreState(active.priorState.value, io.state, io.stateReadable);
    } else {
      wrote := d.UpdateState(task, if clean then "PENDING_APPROVAL" else RECOVERY_REQUIRED, "PRE_START_FAILURE", io.state);
    }
    clean := clean && wrote;
  }

  datatype Exit = Refused | Started | RolledBack | Alarmed

  datatype RunIo = RunIo(ready: bool, grab: Grab, save: Write, state: Write, context: bool, rollback: RollbackIo, alarm: Write)

  /** The record a run is authorized by: it carries what a rollback has to bring back. */
  function RunAuth(fp: Lease -> string, l: Lease, branch: string, path: string, blob: string, now: string,
                   prior: Option<Auth>, state: Option<StateFile>): Auth {
    Auth(ACTIVE, "RUN", l.taskId, branch, l.workspaceId, path, blob, l.executorId, l.leaseId, fp(l), l.execution, now,
         false, None, AsNested(Stripped(prior)), Some(state))
  }

  /** An ACTIVE record of a run under this lease, with no failover and no handoff; it carries the record before it, less
      that one's own backup, and the state before it. */
  predicate Authorizes(a: Option<Auth>, l: Lease, fp: string, branch: string, path: string, blob: string, now: string,
                       prior: Option<Auth>, state: Option<StateFile>) {
    && a.Some?
    && var r := a.value;
       && r.status == "ACTIVE" && r.action == "RUN" && r.taskId == l.taskId && r.workspaceId == l.workspaceId
       && r.executorId == l.executorId && r.leaseId == l.leaseId && r.leaseFingerprint == fp && r.execution == l.execution
       && r.branch == branch && r.artifactPath == path && r.artifactBlob == blob && r.approvedAt == now
       && !r.failover && r.handoff == None && r.priorState == Some(state)
       && (if prior.None? then r.prior == NoPrior else r.prior == Prior(prior.value.(prior := NoPrior)))
  }

  /** A started run puts the holder of the lease in charge, as long as none of the lease's names is blank. */
  lemma StartGivesCharge(fp: Lease -> string, s: Snapshot, l: Lease, branch: string, path: string, blob: string, now: string,
                         prior: Option<Auth>, state: Option<StateFile>)
    requires s.slot == Live(l) && Authorizes(s.auth, l, fp(l), branch, path, blob, now, prior, state)
    requires l.operation == "RUN" && NonBlank(fp(l))
    ensures InCharge(fp, s) == Some(l) <==>
            NonBlank(l.leaseId) && NonBlank(l.taskId) && NonBlank(l.workspaceId) && NonBlank(l.executorId) && NonBlank(l.execution)
  {
  }

  /** Everything is as before, less the record's own nested backup. */
  predicate Undone(a: Snapshot, b: Snapshot) {
    && b.slot == a.slot && b.state == a.state && b.alarms == a.alarms
    && (if a.auth.None? then b.auth == None else b.auth == Some(a.auth.value.(prior := NoPrior)))
  }

  /** The RUN branch of a handoff: take the lease, record the authorization, hand out the context. */
  method AuthorizeRun(d: Desk, fp: Lease -> string, l: Lease, branch: string, path: string, blob: string, now: string, io: RunIo)
    returns (exit: Exit)
    modifies d
    ensures exit.Refused? <==> !(io.ready && old(d.slot).Empty? && io.grab.Taken?)
    ensures exit.Started? <==> io.ready && old(d.slot).Empty? && io.grab.Taken? && io.save.Fine? && io.state.Fine? && io.context
    ensures exit.Refused? ==> d.auth == old(d.auth) && d.state == old(d.state)
                              && (d.slot == old(d.slot) <==> !(io.ready && old(d.slot).Empty? && io.grab.Dirty?))
    ensures exit.Started? ==> d.state.Some? && d.state.value.status == "IN_PROGRESS" && d.state.value.activeTask == l.taskId
    ensures exit.Started? ==> d.slot == Live(l) && d.auth == Some(RunAuth(fp, l, branch, path, blob, now, old(d.auth), old(d.state)))
    ensures exit.Started? ==> Authorizes(d.auth, l, fp(l), branch, path, blob, now, old(d.auth), old(d.state))
    ensures exit.Started? ==> var held := old(d.Now()).(slot := Live(l)); d.trail == old(d.trail) + [held, held.(auth := d.auth), d.Now()]
    // the rollback is an inverse
    ensures exit.RolledBack? ==> Undone(old(d.Now()), d.Now()) && (old(d.auth).Some? ==> old(d.auth).value.status != "ACTIVE")
    // and where it is not proven, recovery is recorded
    ensures exit.Alarmed? ==> d.alarms == old(d.alarms) + 1
    ensures exit.Alarmed? <==> && io.ready && old(d.slot).Empty? && io.grab.Taken? && !(io.save.Fine? && io.state.Fine? && io.context)
                               && !(&& io.rollback.release && io.rollback.auth.Fine? && io.rollback.state.Fine? && io.rollback.stateReadable
                                    && (old(d.auth).Some? ==> old(d.auth).value.status != ACTIVE && io.rollback.readable))
  {
    if !io.ready {
      return Refused;
    }
    var prior, priorState := d.auth, d.state;
    var ok := d.Acquire(l, io.grab);
    if !ok {
      return Refused;
    }
    var record := RunAuth(fp, l, branch, path, blob, now, prior, priorState);
    ok := d.SaveAuth(record, io.save);
    if ok {
      ok := d.UpdateState(l.taskId, "IN_PROGRESS", l.executorId, io.state);
    }
    if ok && io.context {
      return Started;
    }
    var clean := Rollback(d, fp, l.taskId, record, Some(l), io.rollback);
    if clean {
      return RolledBack;
    }
    d.Alarm(l.taskId, "Handoff pre-start failure rollback failed", io.alarm);
    return Alarmed;
  }

  /** However many starts fail and roll back, all is as the first of them found it. */
  lemma {:induction false} AttemptsUndone(run: seq<Snapshot>)
    requires |run| > 1 && forall i :: 0 <= i < |run| - 1 ==> Undone(run[i], run[i + 1])
    ensures Undone(run[0], run[|run| - 1])
  {
    var n := |run| - 1;
    if n > 1 {
      AttemptsUndone(run[..n]);
      assert Undone(run[0], run[..n][n - 1]);
    }
    assert Undone(run[n - 1], run[n - 1 + 1]);
  }
}
