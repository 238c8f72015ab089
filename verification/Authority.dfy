/** Who may work on a task: the lease slot, the authorization record and the state file,
    with every write and read that can fail. A missing state file and an empty one read alike: None. */
module Authority {
  import opened Options
  import opened LeaseProtocol
  import opened LeaseStore
  import Text

  /** ACTIVE.json as its readers see it. `Broken` is a file that does not read as a lease. */
  datatype Slot = Empty | Live(lease: Lease) | Broken

  function SlotOf(c: Codec, file: Option<Bytes>): Slot {
    match Load(c, file)
    case Absent => Empty
    case Corrupt => Broken
    case Found(l) => Live(l)
  }

  /** What the lease store's methods leave in the file is what `Desk` says of the slot: a completed acquire is
      live, and what a failed one could not remove is the same lease or unreadable. */
  lemma StoreBacksSlot(c: Codec, file: Option<Bytes>, l: Lease)
    requires Lawful(c) && Owned(c, l) && PartOf(c, file, l)
    ensures SlotOf(c, Some(c.enc(l))) == Live(l) && SlotOf(c, None) == Empty
    ensures if file == Some(c.enc(l)) then SlotOf(c, file) == Live(l) else SlotOf(c, file) == Broken
  {
    var n :| 0 <= n <= |c.enc(l)| && file == Some(Head(c, l, n));
    NotEmpty(c, l);
  }

  datatype Handoff = Handoff(checkpoint: string, sourceExecutor: string, sourceLeaseId: string, sourceLeaseFp: string,
                             sourceExecution: string, artifactPath: string, artifactBlob: string, preparedAt: string,
                             replacement: Option<Lease>, activatedAt: string)

  datatype StateFile = StateFile(phase: string, activeTask: string, status: string, lastReview: string, nextStep: string)

  datatype Auth = Auth(status: string, action: string, taskId: string, branch: string, workspaceId: string,
                       artifactPath: string, artifactBlob: string, executorId: string, leaseId: string,
                       leaseFingerprint: string, execution: string, approvedAt: string,
                       failover: bool, handoff: Option<Handoff>,
                       prior: Nested, priorState: Option<Option<StateFile>>)

  /** The record an authorization keeps of the one before it, if that is a record at all. */
  datatype Nested = NoPrior | Malformed | Prior(auth: Auth)

  const ACTIVE := "ACTIVE"
  const HANDOFF_PREPARED := "HANDOFF_PREPARED"
  const RECOVERY_REQUIRED := "RECOVERY_REQUIRED"

  /** The statuses that mark a review as the latest one. */
  const REVIEW_STATUSES := ["CHANGES_REQUIRED", "APPROVED", "REVIEW_RECEIVED"]

  predicate ValidAction(a: string) { a == "RUN" || a == "FIX" }

  predicate NonBlank(s: string) { exists i :: 0 <= i < |s| && !Text.IsSpace(s[i]) }

  /** Stripping leaves something of it. */
  lemma NonBlankExactly(s: string)
    ensures NonBlank(s) <==> Text.Strip(s) != ""
  {
    var i, j := Text.StripExactly(s);
  }

  /** `reconstruct_expected_executor_lease`; `fp` is the lease fingerprint. */
  function Reconstruct(fp: Lease -> string, a: Auth): Option<Lease> {
    var l := Lease(a.leaseId, a.taskId, a.workspaceId, a.executorId, a.action, a.execution);
    if NonBlank(a.taskId) && ValidAction(a.action) && NonBlank(a.executorId) && NonBlank(a.leaseId)
       && NonBlank(a.leaseFingerprint) && NonBlank(a.workspaceId) && NonBlank(a.execution) && fp(l) == a.leaseFingerprint
    then Some(l) else None
  }

  /** Everything durable about one task. `alarms` counts attempts to record RECOVERY_REQUIRED. */
  datatype Snapshot = Snapshot(slot: Slot, auth: Option<Auth>, state: Option<StateFile>, alarms: nat)

  predicate SameAuthority(a: Snapshot, b: Snapshot) { a.slot == b.slot && a.auth == b.auth }

  /** The lease whose executor is authorized: an ACTIVE record that matches the live lease. */
  function InCharge(fp: Lease -> string, s: Snapshot): Option<Lease> {
    if s.auth.Some? && s.auth.value.status == ACTIVE && s.slot.Live? && Reconstruct(fp, s.auth.value) == Some(s.slot.lease)
    then Some(s.slot.lease) else None
  }

  /** Who is in charge, field by field: the record is ACTIVE, the slot holds a live lease, each of the two says what the
      other says, none of it is blank, and the fingerprint on record is the lease's own. */
  lemma InChargeExactly(fp: Lease -> string, s: Snapshot, l: Lease)
    ensures InCharge(fp, s) == Some(l) <==>
            && s.slot == Live(l) && s.auth.Some? && s.auth.value.status == "ACTIVE"
            && var a := s.auth.value;
               && a.leaseId == l.leaseId && a.taskId == l.taskId && a.workspaceId == l.workspaceId && a.executorId == l.executorId
               && a.action == l.operation && a.execution == l.execution && a.leaseFingerprint == fp(l)
               && (l.operation == "RUN" || l.operation == "FIX")
               && NonBlank(l.leaseId) && NonBlank(l.taskId) && NonBlank(l.workspaceId) && NonBlank(l.executorId)
               && NonBlank(l.execution) && NonBlank(fp(l))
  {
  }

  /** The review of TASK-017 is REVIEW-017. */
  function ReviewOf(task: string): string { if "TASK-" <= task then "REVIEW-" + task[5..] else "REVIEW-" + task }

  /** A save succeeds, fails without effect, or fails after its effect. */
  datatype Write = Fine | Lost | Late

  /** An acquire succeeds, fails and cleans up, or fails and leaves what it had written. */
  datatype Grab = Taken | Undone | Dirty(whole: bool)

  /** How an acquire moves the slot. */
  predicate Grabs(a: Slot, b: Slot, l: Lease, io: Grab, ok: bool) {
    && (ok <==> a.Empty? && io.Taken?)
    && b == if !a.Empty? || io.Undone? then a else if io.Taken? || io.whole then Live(l) else Broken
  }

  /** How a release moves the slot. */
  predicate Drops(a: Slot, b: Slot, l: Lease, io: bool, ok: bool) {
    (ok <==> a == Live(l) && io) && b == if ok then Empty else a
  }

  /** Whatever the lease store's `acquire` does to the file is one of the moves of the slot. */
  lemma StoreAcquireGrabs(c: Codec, before: Option<Bytes>, after: Option<Bytes>, l: Lease, ok: bool)
    requires Lawful(c) && Owned(c, l) && AcquireLeaves(c, before, after, l, ok)
    ensures exists io :: Grabs(SlotOf(c, before), SlotOf(c, after), l, io, ok)
  {
    assert SlotOf(c, None) == Empty;
    if ok {
      NotEmpty(c, l);
      assert after == Some(Head(c, l, |c.enc(l)|));
      StoreBacksSlot(c, after, l);
      assert Grabs(SlotOf(c, before), SlotOf(c, after), l, Taken, ok);
    } else if after == before {
      assert Grabs(SlotOf(c, before), SlotOf(c, after), l, Undone, ok);
    } else {
      StoreBacksSlot(c, after, l);
      assert Grabs(SlotOf(c, before), SlotOf(c, after), l, Dirty(after == Some(c.enc(l))), ok);
    }
  }

  /** And its `release` is the slot's compare-and-release. */
  lemma StoreReleaseDrops(c: Codec, before: Option<Bytes>, after: Option<Bytes>, l: Lease, ok: bool)
    requires ReleaseLeaves(c, before, after, l, ok)
    ensures exists io :: Drops(SlotOf(c, before), SlotOf(c, after), l, io, ok)
  {
    assert Drops(SlotOf(c, before), SlotOf(c, after), l, ok, ok);
  }

  /** The durable state, changed one write at a time. `trail` holds it as it was after every write, which is what a
      process that dies there leaves behind. */
  class Desk {
    var slot: Slot
    var auth: Option<Auth>
    var state: Option<StateFile>
    var alarms: nat
    ghost var trail: seq<Snapshot>

    constructor (s: Snapshot)
      ensures Now() == s && trail == []
    {
      slot, auth, state, alarms, trail := s.slot, s.auth, s.state, s.alarms, [];
    }

    function Now(): Snapshot
      reads this`slot, this`auth, this`state, this`alarms
    {
      Snapshot(slot, auth, state, alarms)
    }

    /** The store's `acquire`, as its callers may rely on it. */
    method Acquire(l: Lease, io: Grab) returns (ok: bool)
      modifies this`slot, this`trail
      ensures Grabs(old(slot), slot, l, io, ok) && trail == old(trail) + [Now()]
    {
      ok := slot.Empty? && io.Taken?;
      if slot.Empty? && !io.Undone? {
        slot := if io.Taken? || io.whole then Live(l) else Broken;
      }
      trail := trail + [Now()];
    }

    /** The store's compare-and-release. */
    method Release(l: Lease, io: bool) returns (ok: bool)
      modifies this`slot, this`trail
      ensures Drops(old(slot), slot, l, io, ok) && trail == old(trail) + [Now()]
    {
      ok := slot == Live(l) && io;
      if ok {
        slot := Empty;
      }
      trail := trail + [Now()];
    }

    method SaveAuth(a: Auth, io: Write) returns (ok: bool)
      modifies this`auth, this`trail
      ensures (ok <==> io.Fine?) && trail == old(trail) + [Now()]
      ensures auth == if io.Lost? then old(auth) else Some(a)
    {
      ok := io.Fine?;
      if !io.Lost? {
        auth := Some(a);
      }
      trail := trail + [Now()];
    }

    /** Save and read back; a failed read never looks like the record that was saved. */
    method RestoreAuth(a: Auth, io: Write, readable: bool) returns (ok: bool)
      modifies this`auth, this`trail
      ensures (ok <==> io.Fine? && readable) && trail == old(trail) + [Now()]
      ensures auth == if io.Lost? then old(auth) else Some(a)
    {
      ok := SaveAuth(a, io);
      if ok {
        var back := if readable then auth else None;
        ok := back == Some(a);
      }
    }

    /** `update_state`: rewrites the status line and keeps the rest of the file. */
    method UpdateState(task: string, status: string, next: string, io: Write) returns (ok: bool)
      modifies this`state, this`trail
      ensures (ok <==> io.Fine?) && trail == old(trail) + [Now()]
      ensures if io.Lost? then state == old(state)
              else && state.Some? && state.value.status == status && state.value.activeTask == task && state.value.nextStep == next
                   && (old(state).Some? ==> state.value.phase == old(state).value.phase)
                   && if status == "CHANGES_REQUIRED" || status == "APPROVED" || status == "REVIEW_RECEIVED"
                      then "TASK-" <= task ==> state.value.lastReview == "REVIEW-" + task[5..]
                      else old(state).Some? ==> state.value.lastReview == old(state).value.lastReview
    {
      var s := if state.Some? then state.value else StateFile("unset", "", "NOT_STARTED", "", "");
      s := s.(activeTask := task, status := status, nextStep := next);
      if status in REVIEW_STATUSES {
        s := s.(lastReview := ReviewOf(task));
      }
      ok := io.Fine?;
      if !io.Lost? {
        state := Some(s);
      }
      trail := trail + [Now()];
    }

    /** Remove the record; a failed removal raises, with or without its effect. */
    method DropAuth(io: Write) returns (ok: bool)
      modifies this`auth, this`trail
      ensures (ok <==> io.Fine?) && trail == old(trail) + [Now()]
      ensures auth == if io.Lost? then old(auth) else None
    {
      ok := io.Fine?;
      if !io.Lost? {
        auth := None;
      }
      trail := trail + [Now()];
    }

    /** Save a whole state file and read it back. */
    method RestoreState(s: Option<StateFile>, io: Write, readable: bool) returns (ok: bool)
      modifies this`state, this`trail
      ensures (ok <==> io.Fine? && readable) && trail == old(trail) + [Now()]
      ensures state == if io.Lost? then old(state) else s
    {
      if !io.Lost? {
        state := s;
      }
      trail := trail + [Now()];
      ok := io.Fine? && readable && state == s;
    }

    /** `_record_hot_handoff_recovery_required`: its own failure is swallowed. */
    method Alarm(task: string, why: string, io: Write)
      modifies this`state, this`alarms, this`trail
      ensures alarms == old(alarms) + 1 && trail == old(trail) + [Now()]
      ensures io.Fine? ==> state.Some? && state.value.status == "RECOVERY_REQUIRED"
    {
      alarms := alarms + 1;
      var ok := UpdateState(task, RECOVERY_REQUIRED, why, io);
    }
  }
}
