/** The certify and merge commands over one task's job file, as sequential invocations that
    may die at any point. What the outside world sees is a trace of events. */
module Certification {
  import opened Options
  import opened CertificationJobs
  import Text

  datatype Event =
    | Saved(job: Job)
    | T2Started(c: Candidate)
    | T2Ended(c: Candidate, exit: int, intact: bool)
    | Pushed(head: string, certified: Option<Candidate>)    // None: not review-first

  /** A save goes through, or the process stops before or after its effect. */
  datatype Write = Fine | Lost | Late

  /** T2 never starts, starts and is never heard of again, or exits. */
  datatype T2 = NoLaunch | Vanished | Exited(code: int, intact: bool, duration: real)

  datatype CertifyIo = CertifyIo(ready: bool, readable: bool, archive: Write, pending: Write, running: Write,
                                 t2: T2, terminal: Write, started: string, completed: string)

  datatype CertifyExit = Refused | AlreadyPassed | Stopped | Certified | NotCertified

  datatype MergeIo = MergeIo(reviewFirst: bool, readable: bool, task: string, review: Review, candidate: Candidate,
                             refs: Refs, roadmap: Roadmap, blobOk: bool, registered: bool, bindingValid: bool,
                             push: bool, postMain: Option<string>, postTask: Option<string>)

  /** What a review-first merge is of: this task at the reviewed head, as bound. */
  function Subject(io: MergeIo): Option<Candidate> {
    if io.reviewFirst then Some(Candidate(io.task, io.review.head, io.candidate.fingerprint, io.candidate.profile, io.candidate.command))
    else None
  }

  function LastSaved(events: seq<Event>): Option<Job> {
    if events == [] then None
    else if events[|events| - 1].Saved? then Some(events[|events| - 1].job)
    else LastSaved(events[..|events| - 1])
  }

  function Upto(events: seq<Event>, n: nat): seq<Event>
    requires n <= |events|
  {
    events[..n]
  }

  predicate Precedes(a: JobStatus, b: JobStatus) { (a.Pending? && b.Running?) || (a.Running? && ResultBearing(b)) }

  /** What may come next in the trace. */
  ghost predicate Allowed(digest: Digest, past: seq<Event>, e: Event) {
    match e
    case Saved(j) =>
      && Loadable(digest, j)
      && (j.status.Pass? ==> past != [] && past[|past| - 1] == T2Ended(j.candidate, 0, true) && j.exit == Some(0))
      && (j.status.Pending? ==> LastSaved(past).Some? ==> LastSaved(past).value.candidate != j.candidate && !LastSaved(past).value.status.Running?)
      && (!j.status.Pending? ==> LastSaved(past).Some? && LastSaved(past).value.candidate == j.candidate && Precedes(LastSaved(past).value.status, j.status))
    case T2Started(c) =>
      past != [] && past[|past| - 1].Saved? && past[|past| - 1].job.status.Running? && past[|past| - 1].job.candidate == c
    case T2Ended(c, _, _) => past != [] && past[|past| - 1] == T2Started(c)
    case Pushed(head, certified) =>
      certified.Some? ==>
        && LastSaved(past).Some? && LastSaved(past).value.status.Pass?
        && LastSaved(past).value.candidate == certified.value && certified.value.head == head
  }

  ghost predicate Lawful(digest: Digest, events: seq<Event>) {
    forall k :: 0 <= k < |events| ==> Allowed(digest, Upto(events, k), events[k])
  }

  lemma LawfulAppend(digest: Digest, events: seq<Event>, e: Event)
    requires Lawful(digest, events) && Allowed(digest, events, e)
    ensures Lawful(digest, events + [e])
    ensures LastSaved(events + [e]) == if e.Saved? then Some(e.job) else LastSaved(events)
  {
    var longer := events + [e];
    assert longer[..|events|] == events;
    forall k | 0 <= k < |longer| ensures Allowed(digest, Upto(longer, k), longer[k]) {
      assert Upto(longer, k) == Upto(events, k);
      assert k == |events| ==> Upto(events, k) == events;
    }
  }

  lemma LastSavedLoads(digest: Digest, events: seq<Event>)
    requires Lawful(digest, events) && LastSaved(events).Some?
    ensures Loadable(digest, LastSaved(events).value)
  {
    assert Upto(events, |events|) == events;
    var m := LastSavedAt(events, |events|);
    assert Allowed(digest, Upto(events, m), events[m]);
  }

  /** What is kept of a job that a new candidate replaces: a pending one is superseded, others stay as they are. */
  function Stale(j: Job): Job { if j.status.Pending? then j.(status := Superseded) else j }

  function Shelf(j: Job): (Candidate, JobStatus) { (j.candidate, Stale(j).status) }

  /** Every save goes through and T2 exits zero, within seven days, on an unchanged subject. */
  predicate Passes(io: CertifyIo) {
    && io.pending.Fine? && io.running.Fine? && io.terminal.Fine?
    && io.t2.Exited? && io.t2.code == 0 && io.t2.intact && 0.0 <= io.t2.duration <= 604800.0
  }

  /** An exit that a job can record. */
  predicate Bounded(t2: T2) { t2.Exited? && -65535 <= t2.code <= 65535 && 0.0 <= t2.duration <= 604800.0 }

  /** What is on record of a T2 that did not pass. */
  function FailedJob(digest: Digest, c: Candidate, io: CertifyIo): Job
    requires io.t2.Exited?
  {
    var t2 := io.t2;
    Job(c, Failed, Some(io.started), Some(io.completed), Some(digest(Failed, t2.code, t2.code == 0, t2.duration, 1)), 1,
        Some(t2.code), Some(t2.code == 0), Some(t2.duration))
  }

  datatype Disk = Disk(file: Option<Job>, events: seq<Event>)

  /** What one invocation of either command does to a job left RUNNING: nothing, or a push that is none of its business. */
  ghost predicate Invokes(a: Disk, b: Disk) {
    a.file.Some? && a.file.value.status.Running? ==>
      b.file == a.file && (b.events == a.events || exists head, certified :: b.events == a.events + [Pushed(head, certified)])
  }

  class Bridge {
    const digest: Digest
    var file: Option<Job>                              // job.json
    var history: map<(Candidate, JobStatus), Job>      // superseded provenance
    ghost var events: seq<Event>

    constructor (d: Digest)
      ensures Inv() && digest == d && file == None && events == []
    {
      digest, file, history, events := d, None, map[], [];
    }

    ghost function Now(): Disk
      reads this
    {
      Disk(file, events)
    }

    ghost predicate Inv()
      reads this
    {
      Lawful(digest, events) && file == LastSaved(events)
    }

    method SaveJob(j: Job, io: Write) returns (ok: bool)
      requires Inv() && Allowed(digest, events, Saved(j))
      modifies this`file, this`events
      ensures Inv() && (ok <==> io.Fine?)
      ensures if io.Lost? then file == old(file) && events == old(events) else file == Some(j) && events == old(events) + [Saved(j)]
    {
      ok := io.Fine?;
      if !io.Lost? {
        LawfulAppend(digest, events, Saved(j));
        file, events := Some(j), events + [Saved(j)];
      }
    }

    ghost method Note(e: Event)
      requires Inv() && Allowed(digest, events, e) && !e.Saved?
      modifies this`events
      ensures Inv() && events == old(events) + [e]
    {
      LawfulAppend(digest, events, e);
      events := events + [e];
    }

    /** `_archive_certification_job`: a stale job is kept beside, never over, the current one. */
    method Archive(j: Job, io: Write) returns (ok: bool)
      modifies this`history
      ensures ok <==> io.Fine?
      ensures history == if io.Lost? then old(history) else old(history)[(j.candidate, j.status) := j]
    {
      ok := io.Fine?;
      if !io.Lost? {
        history := history[(j.candidate, j.status) := j];
      }
    }

    /** What an existing job means for a new certification: proceed, already passed, or refuse. */
    method Existing(c: Candidate, io: CertifyIo) returns (exit: Option<CertifyExit>)
      requires Inv() && file.Some?
      modifies this`history
      ensures exit.None? <==> file.value.candidate != c && !file.value.status.Running? && io.archive.Fine?
      ensures exit.None? ==> history == old(history)[Shelf(file.value) := Stale(file.value)]
      ensures exit.None? && file.value.status == Pending ==> history == old(history)[(file.value.candidate, Superseded) := file.value.(status := Superseded)]
      ensures exit.None? && file.value.status != Pending ==> history == old(history)[(file.value.candidate, file.value.status) := file.value]
      ensures exit == Some(AlreadyPassed) <==> file.value.candidate == c && file.value.status.Pass?
      ensures exit.Some? ==> exit.value.Refused? || exit.value.AlreadyPassed?
    {
      var job := file.value;
      if job.candidate == c {
        return Some(if job.status.Pass? then AlreadyPassed else Refused);
      }
      if job.status.Running? {
        return Some(Refused);
      }
      var stale := job;
      if job.status.Pending? {
        LastSavedLoads(digest, events);
        var superseded := ToSuperseded(job);
        if superseded.None? {
          return Some(Refused);
        }
        stale := superseded.value;
      }
      var ok := Archive(stale, io.archive);
      if !ok {
        return Some(Refused);
      }
      return None;
    }

    /** `cmd_certify_reviewed`. */
    method Certify(c: Candidate, io: CertifyIo) returns (exit: CertifyExit)
      requires Inv()
      modifies this
      ensures Inv() && old(events) <= events && Invokes(old(Now()), Now())
      ensures old(file).Some? && (old(file).value.status.Running? || old(file).value.candidate == c) ==>
                file == old(file) && events == old(events)
      ensures exit.AlreadyPassed? <==> io.ready && io.readable && old(file).Some? && old(file).value.candidate == c && old(file).value.status.Pass?
      ensures exit.Certified? ==> file.Some? && file.value.candidate == c && file.value.status.Pass? && events != old(events)
      ensures exit.NotCertified? ==> Bounded(io.t2) && file == Some(FailedJob(digest, c, io))
      ensures exit.Certified? <==>
                && io.ready && io.readable
                && (old(file).Some? ==> old(file).value.candidate != c && !old(file).value.status.Running? && io.archive.Fine?)
                && io.pending.Fine? && io.running.Fine? && io.terminal.Fine?
                && io.t2.Exited? && io.t2.code == 0 && io.t2.intact && 0.0 <= io.t2.duration <= 604800.0
      ensures events != old(events) && old(file).Some? ==> Shelf(old(file).value) in history && history[Shelf(old(file).value)] == Stale(old(file).value)
    {
      if !io.ready || !io.readable {
        return Refused;
      }
      if file.Some? {
        var early := Existing(c, io);
        if early.Some? {
          return early.value;
        }
      }
      exit := Launch(c, io);
    }

    /** Persist PENDING, then RUNNING. */
    method Announce(c: Candidate, io: CertifyIo) returns (ok: bool)
      requires Inv() && (file.Some? ==> file.value.candidate != c && !file.value.status.Running?)
      modifies this`file, this`events
      ensures Inv() && old(events) <= events
      ensures ok <==> io.pending.Fine? && io.running.Fine?
      ensures ok ==> old(events) < events && events[|events| - 1] == Saved(RunningJob(c, io.started)) && file == Some(RunningJob(c, io.started))
    {
      PendingLoads(digest, c, io.started);
      ok := SaveJob(NewJob(c), io.pending);
      if ok {
        assert file == LastSaved(events) == Some(NewJob(c));
        ok := SaveJob(RunningJob(c, io.started), io.running);
      }
    }

    /** Both saves, then T2. */
    method Launch(c: Candidate, io: CertifyIo) returns (exit: CertifyExit)
      requires Inv() && (file.Some? ==> file.value.candidate != c && !file.value.status.Running?)
      modifies this`file, this`events
      ensures Inv() && old(events) <= events
      ensures exit.Stopped? || exit.Certified? || exit.NotCertified?
      ensures exit.Certified? ==> file.Some? && file.value.candidate == c && file.value.status.Pass? && events != old(events)
      ensures exit.Certified? <==> Passes(io)
      ensures exit.NotCertified? <==> io.pending.Fine? && io.running.Fine? && io.terminal.Fine? && Bounded(io.t2) && !(io.t2.code == 0 && io.t2.intact)
      ensures exit.NotCertified? ==> file == Some(FailedJob(digest, c, io))
    {
      var ok := Announce(c, io);
      if !ok {
        return Stopped;
      }
      exit := RunT2(c, io);
    }

    /** T2 starts only once RUNNING is persisted. */
    method RunT2(c: Candidate, io: CertifyIo) returns (exit: CertifyExit)
      requires Inv() && file == Some(RunningJob(c, io.started)) && events != [] && events[|events| - 1] == Saved(RunningJob(c, io.started))
      modifies this`file, this`events
      ensures Inv() && old(events) <= events
      ensures exit.Stopped? || exit.Certified? || exit.NotCertified?
      ensures exit.Certified? ==> file.Some? && file.value.candidate == c && file.value.status.Pass?
      ensures exit.Certified? <==> io.terminal.Fine? && Bounded(io.t2) && io.t2.code == 0 && io.t2.intact
      ensures exit.NotCertified? <==> io.terminal.Fine? && Bounded(io.t2) && !(io.t2.code == 0 && io.t2.intact)
      ensures exit.NotCertified? ==> file == Some(FailedJob(digest, c, io))
    {
      if io.t2.NoLaunch? {
        return Stopped;
      }
      Note(T2Started(c));
      if io.t2.Vanished? {
        return Stopped;
      }
      exit := Conclude(c, RunningJob(c, io.started), io);
    }

    /** T2 has exited: revalidate the subject, build the terminal job, persist it. */
    method Conclude(c: Candidate, running: Job, io: CertifyIo) returns (exit: CertifyExit)
      requires Inv() && file == Some(running) && io.t2.Exited? && running == RunningJob(c, io.started)
      requires events != [] && events[|events| - 1] == T2Started(c)
      modifies this`file, this`events
      ensures Inv() && old(events) < events
      ensures exit.Stopped? || exit.Certified? || exit.NotCertified?
      ensures file.Some? && file.value.candidate == c
      ensures file.value.status.Pass? ==> io.t2.code == 0 && io.t2.intact
      ensures if Bounded(io.t2) && !io.terminal.Lost? then file.value.status == (if io.t2.code == 0 && io.t2.intact then Pass else Failed)
              else file == Some(running)
      ensures exit.NotCertified? <==> Bounded(io.t2) && io.terminal.Fine? && !(io.t2.code == 0 && io.t2.intact)
      ensures exit.Certified? <==> file.value.status.Pass? && io.terminal.Fine?
      ensures exit.Certified? <==> Bounded(io.t2) && io.t2.code == 0 && io.t2.intact && io.terminal.Fine?
      ensures exit.NotCertified? ==> file == Some(FailedJob(digest, c, io))
    {
      var t2 := io.t2;
      Note(T2Ended(c, t2.code, t2.intact));
      TerminalLoads(digest, c, io.started, t2.code, t2.intact, t2.duration, io.completed);
      var terminal := ToTerminal(digest, running, t2.code, t2.intact, t2.duration, io.completed);
      if terminal.None? {
        return Stopped;
      }
      var ok := SaveJob(terminal.value, io.terminal);
      if !ok {
        return Stopped;
      }
      exit := if terminal.value.status.Pass? then Certified else NotCertified;
    }

    /** The review a merge may rest on: review-first, only with the exact persisted PASS. */
    method FinalReview(io: MergeIo) returns (r: Option<Review>)
      ensures r.Some? <==> (io.reviewFirst ==>
                              && io.readable && io.review.status == "SEMANTICALLY_ACCEPTED_PENDING_T2" && io.review.approved && io.review.autoMerge
                              && file.Some? && file.value.status == Pass && Subject(io) == Some(file.value.candidate)
                              && io.candidate.command != "" && Text.Strip(io.candidate.command) == io.candidate.command)
      ensures r.Some? ==> r.value == if io.reviewFirst then io.review.(status := "PASS") else io.review
    {
      if !io.reviewFirst {
        return Some(io.review);
      }
      if !io.readable || file.None? || !DerivesFinalPass(io.task, io.review, file.value, io.candidate.(head := io.review.head)) {
        return None;
      }
      return Some(io.review.(status := "PASS"));
    }

    /** `cmd_merge_reviewed`: the gate, the push, and the receipt once both refs are seen at the reviewed head. */
    method Merge(io: MergeIo) returns (pushed: bool, receipt: bool)
      requires Inv()
      modifies this`events
      ensures Inv() && file == old(file) && Invokes(old(Now()), Now())
      ensures events == if pushed then old(events) + [Pushed(io.refs.taskHead, Subject(io))] else old(events)
      ensures pushed <==> && io.push && OneRoadmap(io.roadmap) && (io.roadmap.governed ==> io.blobOk && io.registered && io.bindingValid)
                          && io.review.approved && io.review.autoMerge && FastForward(io.review, io.refs)
                          && if io.reviewFirst then
                               && io.readable && io.review.status == "SEMANTICALLY_ACCEPTED_PENDING_T2"
                               && file.Some? && file.value.status == Pass && Subject(io) == Some(file.value.candidate)
                               && io.candidate.command != "" && Text.Strip(io.candidate.command) == io.candidate.command
                             else io.review.status == "PASS"
      ensures receipt <==> pushed && io.postMain == Some(io.review.head) && io.postTask == Some(io.review.head)
    {
      var final := FinalReview(io);
      if final.None? {
        return false, false;
      }
      var review := final.value;
      if io.roadmap.governed && (!io.blobOk || !io.registered || !io.bindingValid) {
        return false, false;
      }
      if !MergeGate(review, io.refs, io.roadmap).PassEligible? || !io.push {
        return false, false;
      }
      Note(Pushed(io.refs.taskHead, Subject(io)));
      var seen := io.postMain.Some? && io.postTask.Some? && io.postMain.value == io.refs.taskHead && io.postMain.value == review.head
                  && io.postTask.value == review.head && io.postMain.value == io.postTask.value;
      return true, seen;
    }
  }

  // ----------------------------------------------------------- what every trace satisfies

  /** `m` is where the job that is on disk before event `n` was saved. */
  predicate SavedAt(events: seq<Event>, n: nat, m: nat) {
    m < n <= |events| && events[m].Saved? && forall x :: m < x < n ==> !events[x].Saved?
  }

  lemma {:induction false} LastSavedAt(events: seq<Event>, n: nat) returns (m: nat)
    requires n <= |events| && LastSaved(Upto(events, n)).Some?
    ensures SavedAt(events, n, m) && events[m] == Saved(LastSaved(Upto(events, n)).value)
  {
    if events[n - 1].Saved? {
      m := n - 1;
    } else {
      assert Upto(events, n)[..n - 1] == Upto(events, n - 1);
      m := LastSavedAt(events, n - 1);
    }
  }

  lemma {:induction false} SavedBefore(events: seq<Event>, n: nat, m: nat)
    requires n <= |events| && m < n && events[m].Saved?
    ensures LastSaved(Upto(events, n)).Some?
  {
    if !events[n - 1].Saved? {
      SavedBefore(events, n - 1, m);
      assert Upto(events, n)[..n - 1] == Upto(events, n - 1);
    }
  }

  /** Behind a T2 start lies a PENDING save of its candidate, with no save between that and RUNNING. */
  lemma StartedAfterPending(digest: Digest, events: seq<Event>, j: nat) returns (m: nat)
    requires Lawful(digest, events) && j < |events| && events[j].T2Started?
    ensures 1 <= j && events[j - 1].Saved? && events[j - 1].job.status.Running? && events[j - 1].job.candidate == events[j].c
    ensures SavedAt(events, j - 1, m) && events[m].job.status.Pending? && events[m].job.candidate == events[j].c
  {
    assert Allowed(digest, Upto(events, j), events[j]);
    assert Allowed(digest, Upto(events, j - 1), events[j - 1]);
    m := LastSavedAt(events, j - 1);
  }

  /** A PENDING save follows, if anything, a save for another candidate. */
  lemma PendingAfterOther(digest: Digest, events: seq<Event>, m: nat, n: nat) returns (k: nat)
    requires Lawful(digest, events) && n < m < |events| && events[m].Saved? && events[m].job.status.Pending? && events[n].Saved?
    ensures n <= k && SavedAt(events, m, k) && events[k].job.candidate != events[m].job.candidate
  {
    assert Allowed(digest, Upto(events, m), events[m]);
    SavedBefore(events, m, n);
    k := LastSavedAt(events, m);
  }

  /** Two T2 starts for the same exact candidate have a saved job for a different candidate between them. */
  lemma NoSecondT2(digest: Digest, events: seq<Event>, i: nat, j: nat)
    requires Lawful(digest, events) && i < j < |events| && events[i].T2Started? && events[j] == events[i]
    ensures exists k :: i < k < j && events[k].Saved? && events[k].job.candidate != events[i].c
  {
    var first := StartedAfterPending(digest, events, i);
    var m := StartedAfterPending(digest, events, j);
    assert m > i;
    var k := PendingAfterOther(digest, events, m, i - 1);
    assert k != i - 1 && k != i;
  }

  /** A review-first merge pushes only a head whose PASS is the persisted job, of exactly the task, head, fingerprint,
      profile and command it was bound to, after a T2 on that candidate that exited zero and left its subject intact. */
  lemma PushedIsCertified(digest: Digest, events: seq<Event>, k: nat)
    requires Lawful(digest, events) && k < |events| && events[k].Pushed? && events[k].certified.Some?
    ensures exists m :: && 0 < m < k && SavedAt(events, k, m) && events[m].job.status.Pass? && events[m].job.exit == Some(0)
                        && events[m].job.candidate == events[k].certified.value && events[m].job.candidate.head == events[k].head
                        && events[m - 1] == T2Ended(events[m].job.candidate, 0, true)
  {
    assert Allowed(digest, Upto(events, k), events[k]);
    var m := LastSavedAt(events, k);
    assert Allowed(digest, Upto(events, m), events[m]);
  }

  // ------------------------------------------------------------------- after a death

  function Starts(events: seq<Event>): nat {
    if events == [] then 0 else Starts(events[..|events| - 1]) + (if events[|events| - 1].T2Started? then 1 else 0)
  }

  /** Once RUNNING is persisted and its process is gone, no T2 ever starts again on that job file. */
  lemma {:induction false} DeadRunBlocks(run: seq<Disk>)
    requires run != [] && run[0].file.Some? && run[0].file.value.status.Running?
    requires forall i :: 0 <= i < |run| - 1 ==> Invokes(run[i], run[i + 1])
    ensures run[|run| - 1].file == run[0].file && Starts(run[|run| - 1].events) == Starts(run[0].events)
  {
    if |run| > 1 {
      var n := |run| - 1;
      DeadRunBlocks(run[..n]);
      assert run[..n][n - 1] == run[n - 1];
      assert Invokes(run[n - 1], run[n - 1 + 1]);
      var a, b := run[n - 1], run[n];
      if b.events != a.events {
        var head, certified :| b.events == a.events + [Pushed(head, certified)];
        assert b.events[..|a.events|] == a.events;
      }
    }
  }
}
