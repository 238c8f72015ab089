/** Hot handoff: the source executor gives up its lease (prepare), a different executor takes
    over (activate). Each command is a two-phase update with compensation. */
module HotHandoff {
  import opened Options
  import opened LeaseProtocol
  import opened Authority

  /** How a command ends: before any change, as asked, undone, or with recovery recording attempted. */
  datatype Exit = Refused | Done | RolledBack | Alarmed

  /** What the environment answers to the checks of a command. A failed fetch or capture is None or false. */
  datatype Checks = Checks(task: string, branch: string, workspace: string, onBranch: bool, blob: Option<string>,
                           checkpoint: Option<string>, verified: bool, verifiedAgain: bool, now: string)

  datatype PrepareIo = PrepareIo(confirmed: bool, release: bool, save: Write, state: Write,
                                 regrab: Grab, recheck: bool, restore: Write, readable: bool, restoreState: Write, alarm: Write)

  function PreparedAuth(a: Auth, source: Lease, fp: string, c: Checks): Auth
    requires c.checkpoint.Some?
  {
    a.(status := HANDOFF_PREPARED,
       handoff := Some(Handoff(c.checkpoint.value, source.executorId, source.leaseId, fp, source.execution,
                               a.artifactPath, a.artifactBlob, c.now, None, "")))
  }

  function ExecutionState(action: string): string { if action == "RUN" then "IN_PROGRESS" else "CHANGES_REQUIRED" }

  /** The status of work that goes on under this record: a run is in progress, a fix is still asked for. */
  predicate Resumes(a: Option<Auth>, status: string) {
    && a.Some? && (a.value.action == "RUN" || a.value.action == "FIX")
    && (a.value.action == "RUN" ==> status == "IN_PROGRESS")
    && (a.value.action == "FIX" ==> status == "CHANGES_REQUIRED")
  }

  /** Everything prepare demands before it touches anything. */
  predicate PrepareReady(fp: Lease -> string, s: Snapshot, c: Checks, confirmed: bool) {
    && confirmed && c.onBranch && InCharge(fp, s).Some?
    && var a := s.auth.value;
       && !a.failover && a.taskId == c.task && a.branch == c.branch && a.workspaceId == c.workspace
       && a.artifactPath != "" && a.artifactBlob != "" && c.blob == Some(a.artifactBlob)
       && c.checkpoint.Some? && c.verified
  }

  /** What prepare may leave behind. */
  ghost predicate PrepareLeaves(fp: Lease -> string, old_: Snapshot, now_: Snapshot, c: Checks, exit: Exit) {
    if exit.Refused? then now_ == old_
    else
      && InCharge(fp, old_).Some? && c.checkpoint.Some?
      && var source := InCharge(fp, old_).value;
         var prepared := PreparedAuth(old_.auth.value, source, fp(source), c);
         match exit
         case Done => now_.slot == Empty && now_.auth == Some(prepared) && now_.alarms == old_.alarms
                      && now_.state.Some? && now_.state.value.status == "HANDOFF_PREPARED" && now_.state.value.activeTask == c.task
         case RolledBack => now_.slot == old_.slot && now_.auth == old_.auth && now_.alarms == old_.alarms
                            && now_.state.Some? && Resumes(old_.auth, now_.state.value.status) && now_.state.value.activeTask == c.task
         case _ => now_.alarms == old_.alarms + 1
                   && (now_.slot == old_.slot || now_.slot == Empty || now_.slot == Broken)
                   && (now_.auth == old_.auth || now_.auth == Some(prepared))
  }

  /** The authority holds this lease, nothing, or rubbish in the slot, and one of two records. */
  predicate Among(s: Snapshot, l: Lease, a: Option<Auth>, b: Option<Auth>) {
    (s.slot == Live(l) || s.slot == Empty || s.slot == Broken) && (s.auth == a || s.auth == b)
  }

  /** What a prepare leaves if it dies after any of its writes. */
  ghost predicate PrepareCut(fp: Lease -> string, old_: Snapshot, now_: Snapshot, c: Checks) {
    || SameAuthority(old_, now_)
    || (&& InCharge(fp, old_).Some? && c.checkpoint.Some?
        && var source := InCharge(fp, old_).value;
           Among(now_, source, old_.auth, Some(PreparedAuth(old_.auth.value, source, fp(source), c))))
  }

  /** The checks of prepare, in its order. */
  method CheckPrepare(d: Desk, fp: Lease -> string, c: Checks, confirmed: bool) returns (ok: bool)
    ensures ok == PrepareReady(fp, d.Now(), c, confirmed)
  {
    if !confirmed || !c.onBranch || d.auth.None? || d.auth.value.status != ACTIVE || d.auth.value.failover {
      return false;
    }
    var auth := d.auth.value;
    var lease := Reconstruct(fp, auth);
    if lease.None? || d.slot != Live(lease.value) {
      return false;
    }
    if auth.taskId != c.task || auth.branch != c.branch || auth.workspaceId != c.workspace || !ValidAction(auth.action) {
      return false;
    }
    return auth.artifactPath != "" && auth.artifactBlob != "" && c.blob == Some(auth.artifactBlob) && c.checkpoint.Some? && c.verified;
  }

  /** `cmd_hot_handoff_prepare`. */
  method Prepare(d: Desk, fp: Lease -> string, c: Checks, io: PrepareIo) returns (exit: Exit)
    modifies d
    ensures PrepareLeaves(fp, old(d.Now()), d.Now(), c, exit)
    ensures exit.Refused? <==> !(PrepareReady(fp, old(d.Now()), c, io.confirmed) && io.release)
    ensures exit.Done? <==> PrepareReady(fp, old(d.Now()), c, io.confirmed) && io.release && c.verifiedAgain && io.save.Fine? && io.state.Fine?
    // both restorations are tried, whatever becomes of the other
    ensures exit.Alarmed? ==> Grabs(Empty, d.slot, InCharge(fp, old(d.Now())).value, io.regrab, io.regrab.Taken?)
    ensures exit.Alarmed? && !io.restore.Lost? ==> d.auth == old(d.auth)
    ensures exit.Alarmed? ==> !(io.regrab.Taken? && io.recheck && io.restore.Fine? && io.readable && io.restoreState.Fine?)
    ensures exit.Alarmed? && io.alarm.Fine? ==> d.state.Some? && d.state.value.status == "RECOVERY_REQUIRED"
    // wherever it dies
    ensures old(d.trail) <= d.trail
    ensures forall i :: |old(d.trail)| <= i < |d.trail| ==> PrepareCut(fp, old(d.Now()), d.trail[i], c)
    ensures !exit.Refused? ==> |old(d.trail)| < |d.trail| && d.trail[|old(d.trail)|] == old(d.Now()).(slot := Empty)
    ensures !c.verifiedAgain ==> forall i :: |old(d.trail)| <= i < |d.trail| ==> d.trail[i].auth == old(d.auth)
    ensures exit.Done? ==>
              var free := old(d.Now()).(slot := Empty); d.trail == old(d.trail) + [free, free.(auth := d.auth), d.Now()]
  {
    var ready := CheckPrepare(d, fp, c, io.confirmed);
    if !ready {
      return Refused;
    }
    var auth := d.auth.value;
    var source := Reconstruct(fp, auth).value;
    var ok := d.Release(source, io.release);
    if !ok {
      return Refused;
    }
    ok := c.verifiedAgain;
    if ok {
      ok := d.SaveAuth(PreparedAuth(auth, source, fp(source), c), io.save);
    }
    if ok {
      ok := d.UpdateState(c.task, HANDOFF_PREPARED, c.checkpoint.value, io.state);
    }
    if ok {
      return Done;
    }
    exit := UndoPrepare(d, auth, source, c, io);
  }

  /** The compensation of prepare: both restores are tried, and only then is the state touched. */
  method UndoPrepare(d: Desk, auth: Auth, source: Lease, c: Checks, io: PrepareIo) returns (exit: Exit)
    requires d.slot.Empty? && ValidAction(auth.action)
    modifies d
    ensures exit.RolledBack? || exit.Alarmed?
    ensures exit.RolledBack? <==> io.regrab.Taken? && io.recheck && io.restore.Fine? && io.readable && io.restoreState.Fine?
    ensures exit.RolledBack? ==> d.slot == Live(source) && d.auth == Some(auth) && d.alarms == old(d.alarms)
                                 && d.state.Some? && Resumes(Some(auth), d.state.value.status) && d.state.value.activeTask == c.task
    ensures Grabs(Empty, d.slot, source, io.regrab, io.regrab.Taken?) && d.auth == if io.restore.Lost? then old(d.auth) else Some(auth)
    ensures Among(d.Now(), source, old(d.auth), Some(auth))
    ensures exit.Alarmed? ==> d.alarms == old(d.alarms) + 1 && (io.alarm.Fine? ==> d.state.Some? && d.state.value.status == "RECOVERY_REQUIRED")
    ensures exit.RolledBack? ==>
              var held := old(d.Now()).(slot := Live(source)); d.trail == old(d.trail) + [held, held.(auth := Some(auth)), d.Now()]
    ensures old(d.trail) <= d.trail
    ensures forall i :: |old(d.trail)| <= i < |d.trail| ==> Among(d.trail[i], source, old(d.auth), Some(auth))
  {
    var held := d.Acquire(source, io.regrab);
    held := held && io.recheck;
    var restored := d.RestoreAuth(auth, io.restore, io.readable);
    var clean := held && restored;
    if clean {
      clean := d.UpdateState(c.task, ExecutionState(auth.action), "rolled back", io.restoreState);
    }
    if !clean {
      d.Alarm(c.task, "rollback unproven", io.alarm);
      return Alarmed;
    }
    return RolledBack;
  }

  // ------------------------------------------------------------------ activation

  /** What activation is asked for: a validated executor, a checkpoint, and a fresh lease id with its
      execution fingerprint. */
  datatype Request = Request(executor: Option<string>, checkpoint: string, leaseId: string, execution: string)

  datatype ActivateIo = ActivateIo(grab: Grab, save: Write, state: Write,
                                   release: bool, reread: bool, restore: Write, readable: bool, restoreState: Write, alarm: Write)

  predicate WellFormed(m: Handoff) {
    m.sourceExecutor != "" && m.sourceLeaseId != "" && m.artifactPath != "" && m.artifactBlob != "" && m.preparedAt != "" && m.checkpoint != ""
  }

  predicate SameSource(m: Handoff, l: Lease, fp: string) {
    m.sourceExecutor == l.executorId && m.sourceLeaseId == l.leaseId && m.sourceLeaseFp == fp && m.sourceExecution == l.execution
  }

  function Replacement(a: Auth, r: Request): Lease
    requires r.executor.Some?
  {
    Lease(r.leaseId, a.taskId, a.workspaceId, r.executor.value, a.action, r.execution)
  }

  function ActiveAuth(a: Auth, l: Lease, fp: string, now: string): Auth
    requires a.handoff.Some?
  {
    a.(status := ACTIVE, executorId := l.executorId, leaseId := l.leaseId, leaseFingerprint := fp, execution := l.execution,
       approvedAt := now, handoff := Some(a.handoff.value.(replacement := Some(l), activatedAt := now)))
  }

  /** Everything activate demands before it takes the lease. */
  predicate ActivateReady(fp: Lease -> string, s: Snapshot, c: Checks, r: Request) {
    && r.executor.Some? && c.onBranch && s.auth.Some? && s.auth.value.status == HANDOFF_PREPARED && s.auth.value.handoff.Some?
    && s.slot.Empty?
    && var a := s.auth.value;
       var m := a.handoff.value;
       && WellFormed(m) && r.checkpoint == m.checkpoint && r.executor.value != m.sourceExecutor
       && a.taskId == c.task && a.branch == c.branch && a.workspaceId == c.workspace
       && a.artifactPath == m.artifactPath && a.artifactBlob == m.artifactBlob && ValidAction(a.action)
       && Reconstruct(fp, a).Some? && SameSource(m, Reconstruct(fp, a).value, fp(Reconstruct(fp, a).value))
       && c.blob == Some(a.artifactBlob) && c.checkpoint == Some(r.checkpoint) && c.verified
  }

  /** The one flaw: the acquire fails and cannot clean up, and nothing is recorded. */
  predicate LeavesDebris(fp: Lease -> string, s: Snapshot, c: Checks, r: Request, grab: Grab) {
    ActivateReady(fp, s, c, r) && grab.Dirty?
  }

  /** What activate may leave behind. */
  ghost predicate ActivateLeaves(fp: Lease -> string, old_: Snapshot, now_: Snapshot, c: Checks, r: Request, exit: Exit) {
    if exit.Refused? then
      && now_ == old_.(slot := now_.slot)
      && (now_.slot == old_.slot || (ActivateReady(fp, old_, c, r) && now_.slot in {Live(Replacement(old_.auth.value, r)), Broken}))
    else
      && ActivateReady(fp, old_, c, r)
      && var l := Replacement(old_.auth.value, r);
         var active := ActiveAuth(old_.auth.value, l, fp(l), c.now);
         match exit
         case Done => now_.slot == Live(l) && now_.auth == Some(active) && now_.alarms == old_.alarms
                      && now_.state.Some? && Resumes(old_.auth, now_.state.value.status) && now_.state.value.activeTask == c.task
         case RolledBack => now_.slot == Empty && now_.auth == old_.auth && now_.alarms == old_.alarms
                            && now_.state.Some? && now_.state.value.status == "HANDOFF_PREPARED" && now_.state.value.activeTask == c.task
         case _ => now_.alarms == old_.alarms + 1 && (now_.slot == Live(l) || now_.slot == Empty)
                   && (now_.auth == old_.auth || now_.auth == Some(active))
  }

  /** What an activation leaves if it dies after any of its writes. */
  ghost predicate ActivateCut(fp: Lease -> string, old_: Snapshot, now_: Snapshot, c: Checks, r: Request) {
    || SameAuthority(old_, now_)
    || (&& ActivateReady(fp, old_, c, r)
        && var l := Replacement(old_.auth.value, r);
           Among(now_, l, old_.auth, Some(ActiveAuth(old_.auth.value, l, fp(l), c.now))))
  }

  /** The checks of activate, in its order. */
  method CheckActivate(d: Desk, fp: Lease -> string, c: Checks, r: Request) returns (ok: bool)
    ensures ok == ActivateReady(fp, d.Now(), c, r)
  {
    if r.executor.None? || !c.onBranch || d.auth.None? || d.auth.value.status != HANDOFF_PREPARED {
      return false;
    }
    var auth := d.auth.value;
    if auth.handoff.None? || !WellFormed(auth.handoff.value) {
      return false;
    }
    var m := auth.handoff.value;
    if r.checkpoint != m.checkpoint || r.executor.value == m.sourceExecutor {
      return false;
    }
    if auth.taskId != c.task || auth.branch != c.branch || auth.workspaceId != c.workspace
       || auth.artifactPath != m.artifactPath || auth.artifactBlob != m.artifactBlob || !ValidAction(auth.action) {
      return false;
    }
    var source := Reconstruct(fp, auth);
    if source.None? || !SameSource(m, source.value, fp(source.value)) || !d.slot.Empty? {
      return false;
    }
    return c.blob == Some(auth.artifactBlob) && c.checkpoint == Some(r.checkpoint) && c.verified;
  }

  /** `cmd_hot_handoff_activate`. */
  method Activate(d: Desk, fp: Lease -> string, c: Checks, r: Request, io: ActivateIo) returns (exit: Exit)
    modifies d
    ensures ActivateLeaves(fp, old(d.Now()), d.Now(), c, r, exit)
    ensures exit.Refused? <==> !(ActivateReady(fp, old(d.Now()), c, r) && io.grab.Taken?)
    ensures exit.Done? <==> ActivateReady(fp, old(d.Now()), c, r) && io.grab.Taken? && c.verifiedAgain && io.save.Fine? && io.state.Fine?
    ensures exit.Refused? ==> (d.Now() == old(d.Now()) <==> !LeavesDebris(fp, old(d.Now()), c, r, io.grab))
    // both restorations are tried, whatever becomes of the other
    ensures exit.Alarmed? ==> (d.slot.Empty? <==> io.release) && (!io.restore.Lost? ==> d.auth == old(d.auth))
    ensures exit.Alarmed? ==> !(io.release && io.reread && io.restore.Fine? && io.readable && io.restoreState.Fine?)
    ensures exit.Alarmed? && io.alarm.Fine? ==> d.state.Some? && d.state.value.status == "RECOVERY_REQUIRED"
    // wherever it dies
    ensures old(d.trail) <= d.trail
    ensures forall i :: |old(d.trail)| <= i < |d.trail| ==> ActivateCut(fp, old(d.Now()), d.trail[i], c, r)
    ensures !exit.Refused? ==> |old(d.trail)| < |d.trail| && d.trail[|old(d.trail)|] == old(d.Now()).(slot := Live(Replacement(old(d.auth).value, r)))
    ensures !c.verifiedAgain ==> forall i :: |old(d.trail)| <= i < |d.trail| ==> d.trail[i].auth == old(d.auth)
    ensures exit.Done? ==>
              var held := old(d.Now()).(slot := d.slot); d.trail == old(d.trail) + [held, held.(auth := d.auth), d.Now()]
  {
    var ready := CheckActivate(d, fp, c, r);
    if !ready {
      return Refused;
    }
    var auth := d.auth.value;
    var lease := Replacement(auth, r);
    var ok := d.Acquire(lease, io.grab);
    if !ok {
      return Refused;
    }
    ok := RecordActive(d, ActiveAuth(auth, lease, fp(lease), c.now), lease, c, r, io);
    if ok {
      return Done;
    }
    exit := UndoActivate(d, auth, lease, c, io);
  }

  /** The second half of activate: verify again, save the ACTIVE record, move the state. */
  method RecordActive(d: Desk, active: Auth, lease: Lease, c: Checks, r: Request, io: ActivateIo) returns (ok: bool)
    requires d.slot == Live(lease) && ValidAction(active.action)
    modifies d
    ensures ok <==> c.verifiedAgain && io.save.Fine? && io.state.Fine?
    ensures d.slot == old(d.slot) && d.alarms == old(d.alarms) && (d.auth == old(d.auth) || d.auth == Some(active))
    ensures ok ==> d.auth == Some(active) && d.state.Some? && Resumes(Some(active), d.state.value.status) && d.state.value.activeTask == c.task
    ensures old(d.trail) <= d.trail && (!c.verifiedAgain ==> d.trail == old(d.trail) && d.Now() == old(d.Now()))
    ensures ok ==> d.trail == old(d.trail) + [old(d.Now()).(auth := d.auth), d.Now()]
    ensures forall i :: |old(d.trail)| <= i < |d.trail| ==> Among(d.trail[i], lease, old(d.auth), Some(active))
  {
    ok := c.verifiedAgain;
    if ok {
      ok := d.SaveAuth(active, io.save);
    }
    if ok {
      ok := d.UpdateState(c.task, ExecutionState(active.action), r.checkpoint, io.state);
    }
  }

  method UndoActivate(d: Desk, prepared: Auth, lease: Lease, c: Checks, io: ActivateIo) returns (exit: Exit)
    requires d.slot == Live(lease)
    modifies d
    ensures exit.RolledBack? || exit.Alarmed?
    ensures exit.RolledBack? <==> io.release && io.reread && io.restore.Fine? && io.readable && io.restoreState.Fine?
    ensures exit.RolledBack? ==> d.slot == Empty && d.auth == Some(prepared) && d.alarms == old(d.alarms)
                                 && d.state.Some? && d.state.value.status == "HANDOFF_PREPARED" && d.state.value.activeTask == c.task
    ensures d.slot == (if io.release then Empty else Live(lease)) && d.auth == if io.restore.Lost? then old(d.auth) else Some(prepared)
    ensures Among(d.Now(), lease, old(d.auth), Some(prepared)) && d.slot != Broken
    ensures exit.Alarmed? ==> d.alarms == old(d.alarms) + 1 && (io.alarm.Fine? ==> d.state.Some? && d.state.value.status == "RECOVERY_REQUIRED")
    ensures exit.RolledBack? ==>
              var free := old(d.Now()).(slot := Empty); d.trail == old(d.trail) + [free, free.(auth := Some(prepared)), d.Now()]
    ensures old(d.trail) <= d.trail
    ensures forall i :: |old(d.trail)| <= i < |d.trail| ==> Among(d.trail[i], lease, old(d.auth), Some(prepared))
  {
    var released := d.Release(lease, io.release);
    if released {
      released := io.reread && d.slot.Empty?;
    }
    var restored := d.RestoreAuth(prepared, io.restore, io.readable);
    var clean := released && restored;
    if clean {
      clean := d.UpdateState(c.task, HANDOFF_PREPARED, "rolled back", io.restoreState);
    }
    if !clean {
      d.Alarm(c.task, "rollback unproven", io.alarm);
      return Alarmed;
    }
    return RolledBack;
  }

  // ------------------------------------------------- what is demanded, and what is recorded

  /** Prepare goes ahead exactly when the human confirmed, an ACTIVE record without failover marks matches its live lease
      and names this task, branch and workspace, its artifact is still the authorized one, and the checkpoint was
      captured and verified. */
  lemma PrepareReadyExactly(fp: Lease -> string, s: Snapshot, c: Checks, confirmed: bool)
    ensures PrepareReady(fp, s, c, confirmed) <==>
            && confirmed && c.onBranch && c.verified && c.checkpoint.Some? && (exists l :: InCharge(fp, s) == Some(l))
            && (s.auth.Some? ==>
                  var a := s.auth.value;
                  && !a.failover && a.taskId == c.task && a.branch == c.branch && a.workspaceId == c.workspace
                  && |a.artifactPath| > 0 && |a.artifactBlob| > 0 && c.blob.Some? && c.blob.value == a.artifactBlob)
  {
  }

  /** Activation goes ahead exactly when the prepared record is one that a prepare left for this very source, the slot is
      empty, and somebody else asks for it with that checkpoint while artifact and work tree are unchanged. */
  lemma ActivateReadyExactly(fp: Lease -> string, s: Snapshot, c: Checks, r: Request)
    ensures ActivateReady(fp, s, c, r) <==>
            && s.slot == Empty && s.auth.Some? && s.auth.value.status == "HANDOFF_PREPARED" && s.auth.value.handoff.Some?
            && r.executor.Some? && c.onBranch && c.verified
            && var a, m := s.auth.value, s.auth.value.handoff.value;
               && (exists l :: Reconstruct(fp, a) == Some(l))
               && m.sourceExecutor == a.executorId && m.sourceLeaseId == a.leaseId && m.sourceLeaseFp == a.leaseFingerprint
               && m.sourceExecution == a.execution && m.artifactPath == a.artifactPath && m.artifactBlob == a.artifactBlob
               && |a.artifactPath| > 0 && |a.artifactBlob| > 0 && |m.preparedAt| > 0 && |m.checkpoint| > 0
               && r.executor.value != a.executorId && r.checkpoint == m.checkpoint
               && a.taskId == c.task && a.branch == c.branch && a.workspaceId == c.workspace
               && c.blob == Some(a.artifactBlob) && c.checkpoint == Some(m.checkpoint)
  {
    if s.auth.Some? && Reconstruct(fp, s.auth.value).Some? {
      assert NonBlank(s.auth.value.executorId) && NonBlank(s.auth.value.leaseId);
    }
  }

  /** What prepare records: the work as it was, and beside it the old holder, exactly as the record and the lease named
      it, the checkpoint, the artifact and the time. */
  lemma PreparedRecord(fp: Lease -> string, a: Snapshot, b: Snapshot, c: Checks)
    requires PrepareLeaves(fp, a, b, c, Done)
    ensures a.auth.Some? && b.auth.Some? && b.auth.value.handoff.Some? && c.checkpoint.Some?
    ensures b.slot == Empty && b.state.Some? && b.state.value.status == "HANDOFF_PREPARED"
    ensures var x, y := a.auth.value, b.auth.value;
            && y.status == "HANDOFF_PREPARED" && y == x.(status := y.status, handoff := y.handoff)
            && var m := y.handoff.value;
               && m.sourceExecutor == x.executorId && m.sourceLeaseId == x.leaseId && m.sourceLeaseFp == x.leaseFingerprint
               && m.sourceExecution == x.execution && m.artifactPath == x.artifactPath && m.artifactBlob == x.artifactBlob
               && m.checkpoint == c.checkpoint.value && m.preparedAt == c.now && m.replacement == None && m.activatedAt == ""
  {
  }

  /** What activation records: the same work under the new holder, whose lease is live in the slot, and beside it both
      holders. */
  lemma ActivatedRecord(fp: Lease -> string, a: Snapshot, b: Snapshot, c: Checks, r: Request)
    requires ActivateLeaves(fp, a, b, c, r, Done)
    ensures a.auth.Some? && b.auth.Some? && a.auth.value.handoff.Some? && b.auth.value.handoff.Some? && r.executor.Some? && b.slot.Live?
    ensures var x, y, l := a.auth.value, b.auth.value, b.slot.lease;
            && l.executorId == r.executor.value && l.leaseId == r.leaseId && l.execution == r.execution
            && l.taskId == x.taskId && l.workspaceId == x.workspaceId && l.operation == x.action
            && y.status == "ACTIVE" && y.executorId == r.executor.value && y.leaseId == r.leaseId && y.execution == r.execution
            && y.leaseFingerprint == fp(l) && y.approvedAt == c.now
            && y == x.(status := y.status, executorId := y.executorId, leaseId := y.leaseId, execution := y.execution,
                       leaseFingerprint := y.leaseFingerprint, approvedAt := y.approvedAt, handoff := y.handoff)
            && var m, n := x.handoff.value, y.handoff.value;
               n.replacement == Some(l) && n.activatedAt == c.now && n == m.(replacement := n.replacement, activatedAt := n.activatedAt)
    ensures b.state.Some? && Resumes(a.auth, b.state.value.status)
  {
  }

  /** The two commands fit: what a prepare left can be activated exactly by somebody else, with the checkpoint it
      captured, in the same workspace and branch, while the artifact is unchanged. */
  lemma PreparedIsActivatable(fp: Lease -> string, a: Snapshot, b: Snapshot, c: Checks, c2: Checks, r: Request)
    requires PrepareReady(fp, a, c, true) && PrepareLeaves(fp, a, b, c, Done)
    ensures ActivateReady(fp, b, c2, r) <==>
            && r.executor.Some? && r.executor.value != a.auth.value.executorId && r.checkpoint == c.checkpoint.value
            && c2.onBranch && c2.task == c.task && c2.branch == c.branch && c2.workspace == c.workspace
            && c2.blob == c.blob && c2.checkpoint == c.checkpoint && c2.verified
            && |c.checkpoint.value| > 0 && |c.now| > 0
  {
    var source, y := InCharge(fp, a).value, b.auth.value;
    assert Reconstruct(fp, y) == Some(source);
    assert NonBlank(y.executorId) && NonBlank(y.leaseId);
  }

  // -------------------------------------------------------------------- atomicity

  /** Every exit of prepare leaves the exact old authority, the exact new one, or a recorded attempt at recovery,
      and in each of them only the source can be in charge. */
  lemma PrepareAtomic(fp: Lease -> string, a: Snapshot, b: Snapshot, c: Checks, exit: Exit)
    requires PrepareLeaves(fp, a, b, c, exit)
    ensures || SameAuthority(a, b)
            || (&& InCharge(fp, a).Some? && c.checkpoint.Some? && b.slot == Empty
                && b.auth == Some(PreparedAuth(a.auth.value, a.slot.lease, fp(a.slot.lease), c)))
            || b.alarms == a.alarms + 1
    ensures InCharge(fp, b).None? || InCharge(fp, b) == InCharge(fp, a)
    ensures exit.Done? ==> InCharge(fp, b).None?
  {
  }

  /** Activation is atomic in the same sense exactly when its acquire does not leave debris. */
  lemma ActivateAtomicExactly(fp: Lease -> string, a: Snapshot, b: Snapshot, c: Checks, r: Request, grab: Grab, exit: Exit)
    requires ActivateLeaves(fp, a, b, c, r, exit)
    requires exit.Refused? <==> !(ActivateReady(fp, a, c, r) && grab.Taken?)
    requires exit.Refused? ==> (b == a <==> !LeavesDebris(fp, a, c, r, grab))
    ensures (|| SameAuthority(a, b)
             || (&& ActivateReady(fp, a, c, r)
                 && var l := Replacement(a.auth.value, r);
                    b.slot == Live(l) && b.auth == Some(ActiveAuth(a.auth.value, l, fp(l), c.now)))
             || b.alarms == a.alarms + 1)
            <==> !LeavesDebris(fp, a, c, r, grab)
    ensures InCharge(fp, b) == InCharge(fp, a)
            || (r.executor.Some? && InCharge(fp, b).Some? && InCharge(fp, b).value.executorId == r.executor.value)
  {
  }

  const SAMPLE_SOURCE := Lease("x", "x", "x", "x", "RUN", "x")

  /** The debris is real, whatever the fingerprint: a prepared task, every check passed, and an acquire that dies
      mid-write. */
  lemma DebrisExists(fp: Lease -> string)
    requires NonBlank(fp(SAMPLE_SOURCE))
    ensures exists s, c, r :: LeavesDebris(fp, s, c, r, Dirty(false))
  {
    var f := fp(SAMPLE_SOURCE);
    var m := Handoff("x", "x", "x", f, "x", "x", "x", "x", None, "");
    var a := Auth(HANDOFF_PREPARED, "RUN", "x", "x", "x", "x", "x", "x", "x", f, "x", "x", false, Some(m), NoPrior, None);
    var s := Snapshot(Empty, Some(a), None, 0);
    var c := Checks("x", "x", "x", true, Some("x"), Some("x"), true, true, "x");
    var r := Request(Some("y"), "x", "y", "y");
    assert NonBlank("x") by {
      assert "x"[0] == 'x';
    }
    assert Reconstruct(fp, a) == Some(SAMPLE_SOURCE);
    assert LeavesDebris(fp, s, c, r, Dirty(false));
  }

  // ------------------------------------------------------------------- whole runs

  /** One command that comes to an exit, with whatever answers and failures. */
  ghost predicate Activates(fp: Lease -> string, a: Snapshot, b: Snapshot) {
    exists c, r, exit :: ActivateLeaves(fp, a, b, c, r, exit)
  }

  ghost predicate Prepares(fp: Lease -> string, a: Snapshot, b: Snapshot) {
    exists c, exit :: PrepareLeaves(fp, a, b, c, exit)
  }

  /** One command that comes to an exit or dies after any of its writes. */
  ghost predicate MayActivate(fp: Lease -> string, a: Snapshot, b: Snapshot) { exists c, r :: ActivateCut(fp, a, b, c, r) }

  ghost predicate MayPrepare(fp: Lease -> string, a: Snapshot, b: Snapshot) { exists c :: PrepareCut(fp, a, b, c) }

  lemma ExitIsCut(fp: Lease -> string, a: Snapshot, b: Snapshot)
    ensures Activates(fp, a, b) ==> MayActivate(fp, a, b)
    ensures Prepares(fp, a, b) ==> MayPrepare(fp, a, b)
  {
    if Activates(fp, a, b) {
      var c, r, exit :| ActivateLeaves(fp, a, b, c, r, exit);
      assert ActivateCut(fp, a, b, c, r);
    }
    if Prepares(fp, a, b) {
      var c, exit :| PrepareLeaves(fp, a, b, c, exit);
      assert PrepareCut(fp, a, b, c);
    }
  }

  /** The source has handed over, and whoever has taken over is someone else. */
  predicate Handed(source: Lease, s: Snapshot) {
    && s.auth.Some? && s.auth.value.handoff.Some? && s.auth.value.handoff.value.sourceExecutor == source.executorId
    && (s.auth.value.status == HANDOFF_PREPARED || (s.auth.value.status == ACTIVE && s.auth.value.executorId != source.executorId))
  }

  lemma HandedKept(fp: Lease -> string, source: Lease, a: Snapshot, b: Snapshot)
    requires Handed(source, a) && MayActivate(fp, a, b)
    ensures Handed(source, b)
  {
    var c, r :| ActivateCut(fp, a, b, c, r);
  }

  /** After a successful prepare, through any number of activations, whatever fails in them and wherever they die, the
      source executor is never in charge. */
  lemma {:induction false} SourceStaysOut(fp: Lease -> string, a: Snapshot, c: Checks, run: seq<Snapshot>)
    requires run != [] && PrepareLeaves(fp, a, run[0], c, Done)
    requires forall i :: 0 <= i < |run| - 1 ==> MayActivate(fp, run[i], run[i + 1])
    ensures InCharge(fp, a).Some?
    ensures var last := InCharge(fp, run[|run| - 1]);
            last.Some? ==> last.value.executorId != InCharge(fp, a).value.executorId
    ensures Handed(InCharge(fp, a).value, run[|run| - 1])
  {
    if |run| > 1 {
      var n := |run| - 1;
      SourceStaysOut(fp, a, c, run[..n]);
      assert run[..n][n - 1] == run[n - 1];
      assert MayActivate(fp, run[n - 1], run[n - 1 + 1]);
      HandedKept(fp, InCharge(fp, a).value, run[n - 1], run[n]);
    }
  }

  /** Debris: a prepared task with something in its lease slot. */
  predicate Debris(s: Snapshot) { s.auth.Some? && s.auth.value.status == HANDOFF_PREPARED && !s.slot.Empty? }

  /** Debris gives nobody charge, and no prepare or activate ever changes it. */
  lemma {:induction false} DebrisStays(fp: Lease -> string, run: seq<Snapshot>)
    requires run != [] && Debris(run[0])
    requires forall i :: 0 <= i < |run| - 1 ==> Activates(fp, run[i], run[i + 1]) || Prepares(fp, run[i], run[i + 1])
    ensures run[|run| - 1] == run[0] && InCharge(fp, run[0]).None?
  {
    if |run| > 1 {
      var n := |run| - 1;
      DebrisStays(fp, run[..n]);
      assert run[..n][n - 1] == run[n - 1];
      assert Activates(fp, run[n - 1], run[n - 1 + 1]) || Prepares(fp, run[n - 1], run[n - 1 + 1]);
    }
  }

  /** Somebody is in charge, or the work is handed over and free to be taken. */
  predicate Settled(fp: Lease -> string, s: Snapshot) {
    InCharge(fp, s).Some? || (s.auth.Some? && s.auth.value.status == HANDOFF_PREPARED && s.slot.Empty?)
  }

  predicate Proper(r: Request) {
    r.executor.Some? ==> NonBlank(r.executor.value) && NonBlank(r.leaseId) && NonBlank(r.execution)
  }

  /** One command that records no alarm and leaves no debris. */
  ghost predicate Moves(fp: Lease -> string, a: Snapshot, b: Snapshot) {
    || (exists c, exit :: PrepareLeaves(fp, a, b, c, exit) && !exit.Alarmed?)
    || (exists c, r, exit :: ActivateLeaves(fp, a, b, c, r, exit) && Proper(r) && !exit.Alarmed? && (exit.Refused? ==> a == b))
  }

  lemma ActivationGivesCharge(fp: Lease -> string, a: Snapshot, b: Snapshot, c: Checks, r: Request)
    requires ActivateLeaves(fp, a, b, c, r, Done) && Proper(r) && forall l :: NonBlank(fp(l))
    ensures InCharge(fp, b) == Some(Replacement(a.auth.value, r))
  {
  }

  lemma MovesSettle(fp: Lease -> string, a: Snapshot, b: Snapshot)
    requires Settled(fp, a) && Moves(fp, a, b) && forall l :: NonBlank(fp(l))
    ensures Settled(fp, b)
  {
    if c, exit :| PrepareLeaves(fp, a, b, c, exit) && !exit.Alarmed? {
    } else {
      var c, r, exit :| ActivateLeaves(fp, a, b, c, r, exit) && Proper(r) && !exit.Alarmed? && (exit.Refused? ==> a == b);
      if exit.Done? {
        ActivationGivesCharge(fp, a, b, c, r);
      }
    }
  }

  /** Over every run of commands without alarm or debris a task stays settled: its authority is never lost
      between two executors. */
  lemma {:induction false} RunStaysSettled(fp: Lease -> string, run: seq<Snapshot>)
    requires run != [] && Settled(fp, run[0]) && forall l :: NonBlank(fp(l))
    requires forall i :: 0 <= i < |run| - 1 ==> Moves(fp, run[i], run[i + 1])
    ensures Settled(fp, run[|run| - 1])
  {
    if |run| > 1 {
      var n := |run| - 1;
      RunStaysSettled(fp, run[..n]);
      assert run[..n][n - 1] == run[n - 1];
      assert Moves(fp, run[n - 1], run[n - 1 + 1]);
      MovesSettle(fp, run[n - 1], run[n]);
    }
  }

  // ------------------------------------------------------------------ death between writes

  /** Wherever a command dies, nobody is in charge but the one who was, or the replacement. */
  lemma CutCharge(fp: Lease -> string, a: Snapshot, b: Snapshot, c: Checks, r: Request)
    ensures PrepareCut(fp, a, b, c) ==> InCharge(fp, b).None? || InCharge(fp, b) == InCharge(fp, a)
    ensures ActivateCut(fp, a, b, c, r) ==>
              || InCharge(fp, b).None? || InCharge(fp, b) == InCharge(fp, a)
              || (ActivateReady(fp, a, c, r) && InCharge(fp, b) == Some(Replacement(a.auth.value, r)))
  {
  }

  /** A prepare that dies leaves the task settled if and only if it leaves the whole old authority or the whole
      prepared one. */
  lemma PrepareCutSettled(fp: Lease -> string, a: Snapshot, b: Snapshot, c: Checks)
    requires PrepareCut(fp, a, b, c) && InCharge(fp, a).Some? && c.checkpoint.Some?
    ensures Settled(fp, b) <==>
            SameAuthority(a, b) || (b.slot == Empty && b.auth == Some(PreparedAuth(a.auth.value, a.slot.lease, fp(a.slot.lease), c)))
  {
  }

  /** The same for an activation: the whole prepared authority, or the whole active one. */
  lemma ActivateCutSettled(fp: Lease -> string, a: Snapshot, b: Snapshot, c: Checks, r: Request)
    requires ActivateCut(fp, a, b, c, r) && ActivateReady(fp, a, c, r) && Proper(r) && forall l :: NonBlank(fp(l))
    ensures var l := Replacement(a.auth.value, r);
            Settled(fp, b) <==> SameAuthority(a, b) || (b.slot == Live(l) && b.auth == Some(ActiveAuth(a.auth.value, l, fp(l), c.now)))
  {
  }

  /** Nobody is in charge, and neither command will touch it: a prepared record over an occupied slot, or an ACTIVE one
      that matches no live lease. */
  predicate Stuck(fp: Lease -> string, s: Snapshot) {
    && s.auth.Some?
    && if s.auth.value.status == HANDOFF_PREPARED then !s.slot.Empty? else s.auth.value.status == ACTIVE && InCharge(fp, s).None?
  }

  /** A prepare that dies right after its release, and an activation that dies right after its acquire, leave the task
      stuck; `Prepare` and `Activate` both pass through that state. */
  lemma FirstWriteSticks(fp: Lease -> string, a: Snapshot, c: Checks, r: Request)
    ensures InCharge(fp, a).Some? ==> Stuck(fp, a.(slot := Empty))
    ensures ActivateReady(fp, a, c, r) ==> Stuck(fp, a.(slot := Live(Replacement(a.auth.value, r))))
  {
  }

  /** A stuck task stays so, through any commands, whatever fails in them and wherever they die. */
  lemma {:induction false} StuckStays(fp: Lease -> string, run: seq<Snapshot>)
    requires run != [] && Stuck(fp, run[0])
    requires forall i :: 0 <= i < |run| - 1 ==> MayActivate(fp, run[i], run[i + 1]) || MayPrepare(fp, run[i], run[i + 1])
    ensures SameAuthority(run[0], run[|run| - 1]) && InCharge(fp, run[|run| - 1]).None?
  {
    if |run| > 1 {
      var n := |run| - 1;
      StuckStays(fp, run[..n]);
      assert run[..n][n - 1] == run[n - 1];
      assert MayActivate(fp, run[n - 1], run[n - 1 + 1]) || MayPrepare(fp, run[n - 1], run[n - 1 + 1]);
      StuckStep(fp, run[n - 1], run[n]);
    }
  }

  lemma StuckStep(fp: Lease -> string, a: Snapshot, b: Snapshot)
    requires Stuck(fp, a) && (MayActivate(fp, a, b) || MayPrepare(fp, a, b))
    ensures SameAuthority(a, b)
  {
    if MayActivate(fp, a, b) {
      var c, r :| ActivateCut(fp, a, b, c, r);
    } else {
      var c :| PrepareCut(fp, a, b, c);
    }
  }
}
