/** Certification jobs: their validity, their transitions, and what final state they allow. */
module CertificationJobs {
  import opened Options
  import Text

  datatype JobStatus = Pending | Running | Pass | Failed | Superseded

  /** The exact subject of one certification. */
  datatype Candidate = Candidate(task: string, head: string, fingerprint: string, profile: string, command: string)

  datatype Job = Job(candidate: Candidate, status: JobStatus, startedAt: Option<string>, completedAt: Option<string>,
                     digest: Option<string>, t2Count: int, exit: Option<int>, succeeded: Option<bool>, duration: Option<real>)

  /** The digest of the terminal facts: status, exit, success, duration, count. */
  type Digest = (JobStatus, int, bool, real, int) -> string

  predicate ResultBearing(s: JobStatus) { s.Pass? || s.Failed? }

  predicate BoundedExit(e: int) { -65535 <= e <= 65535 }
  predicate BoundedDuration(d: real) { 0.0 <= d <= 604800.0 }

  /** The job's own validation. */
  predicate ValidJob(j: Job) {
    && 0 <= j.t2Count <= 1
    && (j.exit.Some? ==> BoundedExit(j.exit.value)) && (j.duration.Some? ==> BoundedDuration(j.duration.value))
    && (j.status.Pending? ==> j.startedAt.None? && j.t2Count == 0)
    && (j.status.Running? ==> j.startedAt.Some? && j.t2Count == 1)
    && (ResultBearing(j.status) <==> j.digest.Some?)
    && if ResultBearing(j.status) then
         && j.startedAt.Some? && j.completedAt.Some? && j.t2Count == 1 && j.exit.Some? && j.succeeded.Some? && j.duration.Some?
         && (j.status.Pass? ==> j.succeeded.value) && ((j.exit.value == 0) == j.succeeded.value)
       else j.completedAt.None? && j.exit.None? && j.succeeded.None? && j.duration.None?
  }

  /** What a valid job of each status holds: nothing before T2 runs, its start while it runs, and afterwards the whole
      bounded evidence, PASS only for exit zero. */
  lemma JobExactly(j: Job)
    ensures ValidJob(j) <==>
            match j.status
            case Pending => j == Job(j.candidate, Pending, None, None, None, 0, None, None, None)
            case Running => j.startedAt.Some? && j == Job(j.candidate, Running, j.startedAt, None, None, 1, None, None, None)
            case Superseded =>
              j.t2Count in {0, 1} && j == Job(j.candidate, Superseded, j.startedAt, None, None, j.t2Count, None, None, None)
            case Pass =>
              && j.startedAt.Some? && j.completedAt.Some? && j.digest.Some? && j.t2Count == 1
              && j.exit == Some(0) && j.succeeded == Some(true) && j.duration.Some? && 0.0 <= j.duration.value <= 604800.0
            case Failed =>
              && j.startedAt.Some? && j.completedAt.Some? && j.digest.Some? && j.t2Count == 1
              && j.exit.Some? && -65535 <= j.exit.value <= 65535 && j.succeeded == Some(j.exit.value == 0)
              && j.duration.Some? && 0.0 <= j.duration.value <= 604800.0
  {
  }

  /** What loading demands of the persisted bytes: validity and a digest that matches the terminal facts. */
  predicate Loadable(digest: Digest, j: Job) {
    && ValidJob(j)
    && (ResultBearing(j.status) ==> j.digest == Some(digest(j.status, j.exit.value, j.succeeded.value, j.duration.value, j.t2Count)))
  }

  function NewJob(c: Candidate): Job { Job(c, Pending, None, None, None, 0, None, None, None) }

  function Validated(j: Job): Option<Job> { if ValidJob(j) then Some(j) else None }

  /** The transitions of `transition_certification_job` that the certify command takes; the result is validated. */
  function ToRunning(j: Job, now: string): Option<Job> {
    if j.status.Pending? then Validated(j.(status := Running, startedAt := Some(now), t2Count := 1)) else None
  }

  function ToSuperseded(j: Job): Option<Job> {
    if j.status.Pending? || j.status.Running? then Validated(j.(status := Superseded)) else None
  }

  function ToTerminal(digest: Digest, j: Job, exit: int, intact: bool, duration: real, now: string): Option<Job> {
    var ok := exit == 0;
    var to := if ok && intact then Pass else Failed;
    if !j.status.Running? || !BoundedExit(exit) || !BoundedDuration(duration) || j.t2Count != 1 then None
    else Validated(j.(status := to, completedAt := Some(now), digest := Some(digest(to, exit, ok, duration, 1)),
                      exit := Some(exit), succeeded := Some(ok), duration := Some(duration)))
  }

  function RunningJob(c: Candidate, now: string): Job { NewJob(c).(status := Running, startedAt := Some(now), t2Count := 1) }

  /** Every job the command builds passes the validation it is saved and reloaded under. */
  lemma PendingLoads(digest: Digest, c: Candidate, started: string)
    ensures Loadable(digest, NewJob(c)) && ToRunning(NewJob(c), started) == Some(RunningJob(c, started))
    ensures Loadable(digest, RunningJob(c, started))
    ensures NewJob(c).status == Pending && RunningJob(c, started).status == Running
    ensures NewJob(c).candidate == c == RunningJob(c, started).candidate && RunningJob(c, started).startedAt == Some(started)
  {
  }

  /** When T2 has exited: a job with exactly its facts, for a bounded exit and duration, and a PASS exactly for exit zero
      on an unchanged subject. */
  lemma TerminalLoads(digest: Digest, c: Candidate, started: string, exit: int, intact: bool, duration: real, completed: string)
    ensures var r := ToTerminal(digest, RunningJob(c, started), exit, intact, duration, completed);
            && (r.Some? <==> -65535 <= exit <= 65535 && 0.0 <= duration <= 604800.0)
            && (r.Some? ==>
                  && Loadable(digest, r.value) && r.value.candidate == c
                  && r.value.status == (if exit == 0 && intact then Pass else Failed)
                  && r.value.startedAt == Some(started) && r.value.completedAt == Some(completed) && r.value.t2Count == 1
                  && r.value.exit == Some(exit) && r.value.succeeded == Some(exit == 0) && r.value.duration == Some(duration)
                  && r.value.digest == Some(digest(r.value.status, exit, exit == 0, duration, 1)))
  {
  }

  /** The review facts a finalization needs. */
  datatype Review = Review(status: string, approved: bool, autoMerge: bool, head: string, base: string)

  const ACCEPTED_PENDING_T2 := "SEMANTICALLY_ACCEPTED_PENDING_T2"

  /** `derive_review_first_final_state`: FINAL_PASS from exact acceptance and an exact PASS, or an error. */
  predicate DerivesFinalPass(task: string, r: Review, job: Job, c: Candidate) {
    && r.status == ACCEPTED_PENDING_T2 && r.approved && r.autoMerge
    && job.candidate.task == task && c.command != "" && Text.Strip(c.command) == c.command
    && job.candidate.head == c.head && job.candidate.fingerprint == c.fingerprint
    && job.status.Pass?
    && job.candidate.profile == c.profile && job.candidate.command == c.command
  }

  datatype Reason =
    | ReviewNotPass | ReviewNotApproved | AutoMergeDisabled
    | RoadmapAuditMissing | RoadmapAuditNotPass | RoadmapIdentityMismatch | RoadmapMilestoneMismatch
    | RoadmapCapabilityMismatch | RoadmapBindingMismatch | RoadmapCurrentDrift
    | TaskHeadDrift | MainDrift | BranchBehindMain | NotFastForward | NoTaskDelta | PassEligible

  datatype RoadmapId = RoadmapId(id: string, version: string, blob: string, fingerprint: string)
  datatype Audit = Audit(result: string, roadmap: RoadmapId, milestone: string, capability: string, requirements: string)
  datatype Bound = Bound(roadmap: RoadmapId, milestone: string, capability: string, requirements: string)
  datatype Current = Current(locked: bool, roadmap: RoadmapId)

  /** The roadmap evidence of a merge: what the review audited, what the work was bound to, what is locked now. */
  datatype Roadmap = Roadmap(governed: bool, audit: Option<Audit>, bound: Option<Bound>, current: Option<Current>)

  function RoadmapGate(r: Roadmap): Option<Reason> {
    if !r.governed then None
    else if r.audit.None? then Some(RoadmapAuditMissing)
    else if r.audit.value.result != "PASS" then Some(RoadmapAuditNotPass)
    else if r.bound.None? || r.audit.value.roadmap != r.bound.value.roadmap then Some(RoadmapIdentityMismatch)
    else if r.audit.value.milestone != r.bound.value.milestone then Some(RoadmapMilestoneMismatch)
    else if r.audit.value.capability != r.bound.value.capability then Some(RoadmapCapabilityMismatch)
    else if r.audit.value.requirements != r.bound.value.requirements then Some(RoadmapBindingMismatch)
    else if r.current.None? || !r.current.value.locked || r.current.value.roadmap != r.bound.value.roadmap then Some(RoadmapCurrentDrift)
    else None
  }

  /** One roadmap, audited as PASS, bound, and locked now, with the same milestone, capability and requirements. */
  predicate OneRoadmap(r: Roadmap) {
    r.governed ==>
      && r.audit.Some? && r.bound.Some? && r.current.Some? && r.current.value.locked
      && r.audit.value == Audit("PASS", r.current.value.roadmap, r.bound.value.milestone, r.bound.value.capability, r.bound.value.requirements)
      && r.bound.value.roadmap == r.current.value.roadmap
  }

  datatype Refs = Refs(taskHead: string, main: string, mergeBase: string, aheadBy: int, behindBy: int)

  /** The reviewed head on the reviewed base, ahead of main and not behind it. */
  predicate FastForward(r: Review, refs: Refs) {
    refs.taskHead == r.head && refs.main == r.base == refs.mergeBase && refs.behindBy <= 0 && refs.aheadBy >= 1
  }

  /** `evaluate_merge_gate`, in the order of its checks. */
  function MergeGate(r: Review, refs: Refs, roadmap: Roadmap): Reason {
    if r.status != "PASS" then ReviewNotPass
    else if !r.approved then ReviewNotApproved
    else if !r.autoMerge then AutoMergeDisabled
    else if RoadmapGate(roadmap).Some? then RoadmapGate(roadmap).value
    else if refs.taskHead != r.head then TaskHeadDrift
    else if refs.main != r.base then MainDrift
    else if refs.behindBy > 0 then BranchBehindMain
    else if refs.mergeBase != refs.main then NotFastForward
    else if refs.aheadBy < 1 then NoTaskDelta
    else PassEligible
  }

  /** The gate is passed exactly by an approved PASS with auto-merge, of the reviewed head on the reviewed base, which is
      where main is and where the branch left it, with something to merge and nothing to catch up with; and, where a
      roadmap governs, one roadmap audited as PASS, bound, and locked now. */
  lemma EligibleExactly(r: Review, refs: Refs, roadmap: Roadmap)
    ensures MergeGate(r, refs, roadmap) == PassEligible <==>
            && r.status == "PASS" && r.approved && r.autoMerge
            && refs.taskHead == r.head && refs.main == r.base && refs.mergeBase == r.base && refs.behindBy <= 0 && refs.aheadBy > 0
            && (roadmap.governed ==>
                  && roadmap.audit.Some? && roadmap.bound.Some? && roadmap.current.Some?
                  && roadmap.audit.value.result == "PASS" && roadmap.current.value.locked
                  && roadmap.audit.value.roadmap == roadmap.current.value.roadmap && roadmap.bound.value.roadmap == roadmap.current.value.roadmap
                  && roadmap.audit.value.milestone == roadmap.bound.value.milestone
                  && roadmap.audit.value.capability == roadmap.bound.value.capability
                  && roadmap.audit.value.requirements == roadmap.bound.value.requirements)
    ensures MergeGate(r, refs, roadmap) == PassEligible <==>
            r.status == "PASS" && r.approved && r.autoMerge && OneRoadmap(roadmap) && FastForward(r, refs)
  {
  }

  /** A refusal of the gate names something that is so. */
  lemma ReasonHolds(r: Review, refs: Refs, roadmap: Roadmap)
    ensures match MergeGate(r, refs, roadmap)
            case ReviewNotPass => r.status != "PASS"
            case ReviewNotApproved => !r.approved
            case AutoMergeDisabled => !r.autoMerge
            case RoadmapAuditMissing => roadmap.governed && roadmap.audit == None
            case RoadmapAuditNotPass => roadmap.audit.Some? && roadmap.audit.value.result != "PASS"
            case RoadmapIdentityMismatch => roadmap.audit.Some? && (roadmap.bound == None || roadmap.bound.value.roadmap != roadmap.audit.value.roadmap)
            case RoadmapMilestoneMismatch => roadmap.audit.Some? && roadmap.bound.Some? && roadmap.audit.value.milestone != roadmap.bound.value.milestone
            case RoadmapCapabilityMismatch => roadmap.audit.Some? && roadmap.bound.Some? && roadmap.audit.value.capability != roadmap.bound.value.capability
            case RoadmapBindingMismatch => roadmap.audit.Some? && roadmap.bound.Some? && roadmap.audit.value.requirements != roadmap.bound.value.requirements
            case RoadmapCurrentDrift =>
              roadmap.bound.Some? && (roadmap.current == None || !roadmap.current.value.locked || roadmap.current.value.roadmap != roadmap.bound.value.roadmap)
            case TaskHeadDrift => refs.taskHead != r.head
            case MainDrift => refs.main != r.base
            case BranchBehindMain => refs.behindBy >= 1
            case NotFastForward => refs.mergeBase != refs.main
            case NoTaskDelta => refs.aheadBy <= 0
            case PassEligible => true
  {
  }
}
