/** `AtomicExecutorLeaseStore` as one process runs it: each method performs its system
    calls in order, and what it did is a run of the lease protocol. */
module LeaseStore {
  import opened Options
  import opened LeaseProtocol

  /** How the operating system answers the calls of one method. */
  datatype Faults = Faults(open: bool, write: nat -> int, fsync: bool, close: bool, unlink: bool, mkdir: bool, replace: bool, clock: nat)

  ghost predicate Flawless(io: Faults) { io.open && io.fsync && io.close && forall k :: io.write(k) > 0 }

  lemma {:induction false} RunAppend(c: Codec, s: State, steps: seq<Step>, step: Step)
    requires Run(c, s, steps).Some?
    ensures Run(c, s, steps + [step]) == Apply(c, Run(c, s, steps).value, step)
    decreases steps
  {
    if steps == [] {
      assert [] + [step] == [step];
      assert [step][1..] == [];
    } else {
      assert (steps + [step])[1..] == steps[1..] + [step];
      RunAppend(c, Apply(c, s, steps[0]).value, steps[1..], step);
    }
  }

  /** The file holds the first bytes of this lease, perhaps all of them. */
  ghost predicate PartOf(c: Codec, file: Option<Bytes>, l: Lease) {
    exists n :: 0 <= n <= |c.enc(l)| && file == Some(Head(c, l, n))
  }

  /** What an acquire may do to the file. */
  ghost predicate AcquireLeaves(c: Codec, before: Option<Bytes>, after: Option<Bytes>, l: Lease, ok: bool) {
    if ok then before.None? && after == Some(c.enc(l)) else after == before || (before.None? && PartOf(c, after, l))
  }

  /** What a release may do to the file. */
  predicate ReleaseLeaves(c: Codec, before: Option<Bytes>, after: Option<Bytes>, l: Lease, ok: bool) {
    if ok then Load(c, before) == Found(l) && after.None? else after == before
  }

  class Store {
    const c: Codec
    var file: Option<Bytes>                     // ACTIVE.json
    var history: map<(string, nat), Bytes>      // RELEASED-<lease id>-<time>.json
    ghost const start: State
    ghost var notes: seq<Note>
    ghost var done: seq<Step>

    constructor (codec: Codec)
      ensures c == codec && Traces(Idle) && file == None && history == map[] && notes == [] && start == FRESH.(pcs := map[0 := Idle])
    {
      c, file, history, start, notes, done := codec, None, map[], FRESH.(pcs := map[0 := Idle]), [], [];
    }

    /** The protocol's state while this process stands at `pc`. */
    ghost function Now(pc: Pc): State
      reads this
    {
      State(if UnderLock(pc) then Some(0) else None, file, history, map[0 := pc], notes)
    }

    /** What has been done so far is a run of the protocol that led here. */
    ghost predicate Traces(pc: Pc)
      reads this
    {
      Run(c, start, done) == Some(Now(pc))
    }

    /** The same, for a process that has created the file and written part of it. */
    ghost predicate Wrote(l: Lease, n: nat)
      reads this`file
    {
      n <= |c.enc(l)| && file == Some(Head(c, l, n))
    }

    /** Record one step; the real fields already hold its effect. */
    ghost method Did(before: State, step: Step, pc: Pc)
      requires Run(c, start, done) == Some(before) && 0 in before.pcs && before.pcs == map[0 := before.pcs[0]]
      requires Apply(c, before, step) == Some(Now(pc).(pcs := before.pcs[0 := pc]))
      modifies this`done
      ensures Traces(pc)
    {
      assert before.pcs[0 := pc] == map[0 := pc];
      RunAppend(c, start, done, step);
      done := done + [step];
    }

    method LoadActive() returns (r: Loaded)
      ensures r == Load(c, file)
      ensures r == Absent <==> file.None?
      ensures forall l :: r == Found(l) <==> Shows(c, file, l)
    {
      if file.None? {
        return Absent;
      }
      var raw := file.value;
      if |raw| == 0 || |raw| > MAX_SERIALIZED_BYTES {
        return Corrupt;
      }
      var lease := c.dec(raw);
      if lease.None? || |c.enc(lease.value)| > MAX_SERIALIZED_BYTES || lease.value.taskId != c.task || lease.value.workspaceId != c.workspace {
        return Corrupt;
      }
      return Found(lease.value);
    }

    /** `require_active`: field by field, and nothing less than the exact lease passes. */
    method RequireActive(expected: Lease) returns (ok: bool)
      ensures ok <==> Load(c, file) == Found(expected)
      ensures ok <==> Shows(c, file, expected)
    {
      var active := LoadActive();
      if !active.Found? {
        return false;
      }
      var l := active.lease;
      ok := && l.taskId == expected.taskId && l.workspaceId == expected.workspaceId && l.executorId == expected.executorId
            && l.operation == expected.operation && l.execution == expected.execution && l.leaseId == expected.leaseId;
    }

    /** Take the mutation lock, for an acquire or for a release. */
    ghost method Enter(l: Lease, acquiring: bool)
      requires Traces(Idle) && (acquiring ==> Owned(c, l))
      modifies this`done
      ensures Traces(if acquiring then Opening(l) else Checking(l))
    {
      if acquiring {
        Did(Now(Idle), CallAcquire(0, l), WantsLease(l));
        Did(Now(WantsLease(l)), Lock(0), Opening(l));
      } else {
        Did(Now(Idle), CallRelease(0, l), WantsRelease(l));
        Did(Now(WantsRelease(l)), Lock(0), Checking(l));
      }
    }

    ghost method Leave()
      requires Traces(Leaving)
      modifies this`done
      ensures Traces(Idle)
    {
      Did(Now(Leaving), Unlock(0), Idle);
    }

    /** `acquire`. */
    method Acquire(l: Lease, io: Faults) returns (ok: bool)
      requires Traces(Idle) && l.taskId == c.task && Fits(c, l)
      modifies this
      ensures Traces(Idle) && history == old(history)
      ensures notes == if ok then old(notes) + [Acquired(0, l)] else old(notes)
      ensures ok ==> l.taskId == c.task && l.workspaceId == c.workspace && io.open && io.fsync && io.close
      ensures ok ==> old(file).None? && file == Some(c.enc(l))
      ensures !ok ==> file == old(file) || (old(file).None? && !io.unlink && PartOf(c, file, l))
      ensures old(file).None? && l.workspaceId == c.workspace && Flawless(io) ==> ok
      ensures AcquireLeaves(c, old(file), file, l, ok)
    {
      if l.workspaceId != c.workspace {
        return false;
      }
      Enter(l, true);
      ok := Create(l, io);
      if ok {
        ok := WriteAll(l, io);
        if ok {
          ok := CloseFile(l, io);
        }
      }
      Leave();
    }

    /** Exclusive creation: an existing file, whatever it holds, refuses. */
    method Create(l: Lease, io: Faults) returns (ok: bool)
      requires Traces(Opening(l))
      modifies this
      ensures history == old(history) && notes == old(notes)
      ensures ok <==> old(file).None? && io.open
      ensures if ok then Traces(Writing(l, 0)) && Wrote(l, 0) else Traces(Leaving) && file == old(file)
    {
      ghost var before := Now(Opening(l));
      ok := file.None? && io.open;
      if ok {
        file := Some([]);
      }
      Did(before, OpenExclusive(0, io.open), if ok then Writing(l, 0) else Leaving);
    }

    method CloseFile(l: Lease, io: Faults) returns (ok: bool)
      requires Traces(Synced(l)) && file == Some(c.enc(l))
      modifies this
      ensures Traces(Leaving) && history == old(history) && ok == io.close
      ensures notes == if ok then old(notes) + [Acquired(0, l)] else old(notes)
      ensures if ok then file == old(file) else file.None? || (!io.unlink && PartOf(c, file, l))
    {
      ghost var before := Now(Synced(l));
      ok := io.close;
      if ok {
        notes := notes + [Acquired(0, l)];
        Did(before, Close(0, true), Leaving);
      } else {
        assert Head(c, l, |c.enc(l)|) == c.enc(l);
        Did(before, Close(0, false), Cleaning(l, |c.enc(l)|));
        CleanUp(l, |c.enc(l)|, io);
      }
    }

    /** One successful `os.write` of `n` bytes. */
    method WriteChunk(l: Lease, total: nat, n: nat)
      requires Traces(Writing(l, total)) && Wrote(l, total) && 0 < n <= |c.enc(l)| - total
      modifies this
      ensures Traces(Writing(l, total + n)) && Wrote(l, total + n) && history == old(history) && notes == old(notes)
    {
      ghost var before := Now(Writing(l, total));
      file := Some(file.value + c.enc(l)[total..total + n]);
      assert Head(c, l, total) + c.enc(l)[total..total + n] == Head(c, l, total + n);
      Did(before, Write(0, n), Writing(l, total + n));
    }

    /** The write loop and the fsync; on failure the file this call created is removed, if it can be. */
    method WriteAll(l: Lease, io: Faults) returns (ok: bool)
      requires Traces(Writing(l, 0)) && Wrote(l, 0)
      modifies this
      ensures history == old(history) && notes == old(notes)
      ensures ok ==> Traces(Synced(l)) && file == Some(c.enc(l)) && io.fsync
      ensures !ok ==> Traces(Leaving) && (file.None? || (!io.unlink && PartOf(c, file, l)))
      ensures !ok ==> !io.fsync || exists k :: io.write(k) <= 0
    {
      var bytes := c.enc(l);
      var total := 0;
      while total < |bytes|
        invariant Wrote(l, total) && Traces(Writing(l, total)) && history == old(history) && notes == old(notes)
      {
        var n := io.write(total);
        if n <= 0 {
          Did(Now(Writing(l, total)), Write(0, 0), Cleaning(l, total));
          CleanUp(l, total, io);
          return false;
        }
        if n > |bytes| - total {
          n := |bytes| - total;
        }
        WriteChunk(l, total, n);
        total := total + n;
      }
      assert Head(c, l, total) == c.enc(l);
      ok := SyncAll(l, io);
    }

    method SyncAll(l: Lease, io: Faults) returns (ok: bool)
      requires Traces(Writing(l, |c.enc(l)|)) && Wrote(l, |c.enc(l)|) && file == Some(c.enc(l))
      modifies this
      ensures history == old(history) && notes == old(notes) && ok == io.fsync
      ensures ok ==> Traces(Synced(l)) && file == Some(c.enc(l))
      ensures !ok ==> Traces(Leaving) && (file.None? || (!io.unlink && PartOf(c, file, l)))
    {
      ok := io.fsync;
      if ok {
        Did(Now(Writing(l, |c.enc(l)|)), Fsync(0, true), Synced(l));
      } else {
        Did(Now(Writing(l, |c.enc(l)|)), Fsync(0, false), Cleaning(l, |c.enc(l)|));
        CleanUp(l, |c.enc(l)|, io);
      }
    }

    method CleanUp(l: Lease, ghost n: nat, io: Faults)
      requires Traces(Cleaning(l, n)) && Wrote(l, n)
      modifies this
      ensures Traces(Leaving) && history == old(history) && notes == old(notes)
      ensures file.None? || (!io.unlink && Wrote(l, n))
    {
      ghost var before := Now(Cleaning(l, n));
      if io.unlink {
        file := None;
      }
      Did(before, Unlink(0, io.unlink), Leaving);
    }

    /** `release`: compare and rename under the lock. */
    method Release(expected: Lease, io: Faults) returns (ok: bool)
      requires Traces(Idle)
      modifies this
      ensures Traces(Idle)
      ensures notes == if ok then old(notes) + [Released(0, expected, io.clock)] else old(notes)
      ensures ok <==> Shows(c, old(file), expected) && io.mkdir && io.replace
      ensures ok ==> file.None? && history == old(history)[(expected.leaseId, io.clock) := old(file).value]
      ensures !ok ==> file == old(file) && history == old(history)
      ensures ReleaseLeaves(c, old(file), file, expected, ok)
    {
      Enter(expected, false);
      ok := RequireActive(expected);
      ok := ok && io.mkdir;
      Did(Now(Checking(expected)), Compare(0, io.mkdir), if ok then Moving(expected) else Leaving);
      if ok {
        ok := MoveToHistory(expected, io);
      }
      Leave();
    }

    /** The atomic rename out of ACTIVE.json. */
    method MoveToHistory(l: Lease, io: Faults) returns (ok: bool)
      requires Traces(Moving(l)) && file.Some?
      modifies this
      ensures Traces(Leaving) && ok == io.replace
      ensures notes == if ok then old(notes) + [Released(0, l, io.clock)] else old(notes)
      ensures if ok then file.None? && history == old(history)[(l.leaseId, io.clock) := old(file).value]
              else file == old(file) && history == old(history)
    {
      ghost var before := Now(Moving(l));
      ok := io.replace;
      if ok {
        history := history[(l.leaseId, io.clock) := file.value];
        file := None;
        notes := notes + [Released(0, l, io.clock)];
      }
      Did(before, Replace(0, io.clock, io.replace), Leaving);
    }
  }

  // ------------------------------------------------- when ids do not determine leases

  function AcquireSteps(c: Codec, l: Lease): seq<Step> {
    [CallAcquire(0, l), Lock(0), OpenExclusive(0, true), Write(0, |c.enc(l)|)] + [Fsync(0, true), Close(0, true), Unlock(0)]
  }

  function ReleaseSteps(l: Lease, time: nat): seq<Step> {
    [CallRelease(0, l), Lock(0), Compare(0, true), Replace(0, time, true), Unlock(0)]
  }

  predicate Quiet(s: State) { s.lock.None? && At(s, 0).Idle? }

  lemma NotEmpty(c: Codec, l: Lease)
    requires Lawful(c)
    ensures c.enc(l) != [] && Head(c, l, |c.enc(l)|) == c.enc(l)
  {
    assert c.dec(c.enc(l)) == Some(l);
  }

  lemma WriteRun(c: Codec, s: State, l: Lease)
    requires Lawful(c) && Quiet(s) && s.file.None? && Owned(c, l)
    ensures var t := Run(c, s, [CallAcquire(0, l), Lock(0), OpenExclusive(0, true), Write(0, |c.enc(l)|)]);
            && t.Some? && t.value.lock == Some(0) && At(t.value, 0) == Writing(l, |c.enc(l)|)
            && t.value.file == Some(c.enc(l)) && t.value.history == s.history && t.value.notes == s.notes
  {
    NotEmpty(c, l);
    var steps := [CallAcquire(0, l), Lock(0), OpenExclusive(0, true), Write(0, |c.enc(l)|)];
    var s1 := Apply(c, s, steps[0]).value;
    var s2 := Apply(c, s1, steps[1]).value;
    var s3 := Apply(c, s2, steps[2]).value;
    assert Run(c, s3, steps[3..]) == Apply(c, s3, steps[3]);
    assert Run(c, s, steps) == Run(c, s2, steps[2..]);
  }

  lemma SyncRun(c: Codec, s: State, l: Lease)
    requires s.lock == Some(0) && At(s, 0) == Writing(l, |c.enc(l)|)
    ensures var t := Run(c, s, [Fsync(0, true), Close(0, true), Unlock(0)]);
            && t.Some? && Quiet(t.value) && t.value.file == s.file && t.value.history == s.history
            && t.value.notes == s.notes + [Acquired(0, l)]
  {
    var steps := [Fsync(0, true), Close(0, true), Unlock(0)];
    var s2 := Apply(c, Apply(c, s, steps[0]).value, steps[1]).value;
    assert Run(c, s2, steps[2..]) == Apply(c, s2, Unlock(0));
    assert Run(c, s, steps) == Run(c, s2, steps[2..]);
  }

  lemma AcquireRun(c: Codec, s: State, l: Lease)
    requires Lawful(c) && Quiet(s) && s.file.None? && Owned(c, l)
    ensures var t := Run(c, s, AcquireSteps(c, l));
            && t.Some? && Quiet(t.value) && t.value.file == Some(c.enc(l)) && t.value.history == s.history
            && t.value.notes == s.notes + [Acquired(0, l)]
  {
    var head := [CallAcquire(0, l), Lock(0), OpenExclusive(0, true), Write(0, |c.enc(l)|)];
    WriteRun(c, s, l);
    SyncRun(c, Run(c, s, head).value, l);
    RunConcat(c, s, head, [Fsync(0, true), Close(0, true), Unlock(0)]);
  }

  lemma ReleaseRun(c: Codec, s: State, l: Lease, time: nat)
    requires Lawful(c) && Quiet(s) && s.file == Some(c.enc(l)) && Owned(c, l)
    ensures var t := Run(c, s, ReleaseSteps(l, time));
            && t.Some? && Quiet(t.value) && t.value.file.None? && t.value.history == s.history[(l.leaseId, time) := c.enc(l)]
            && t.value.notes == s.notes + [Released(0, l, time)]
  {
    NotEmpty(c, l);
    var steps := ReleaseSteps(l, time);
    var s1 := Apply(c, s, steps[0]).value;
    var s2 := Apply(c, s1, steps[1]).value;
    var s3 := Apply(c, s2, steps[2]).value;
    var s4 := Apply(c, s3, steps[3]).value;
    assert Run(c, s4, steps[4..]) == Apply(c, s4, Unlock(0));
    assert Run(c, s2, steps[2..]) == Run(c, s4, steps[4..]);
    assert Run(c, s, steps) == Run(c, s2, steps[2..]);
  }

  lemma {:induction false} RunConcat(c: Codec, s: State, a: seq<Step>, b: seq<Step>)
    requires Run(c, s, a).Some?
    ensures Run(c, s, a + b) == Run(c, Run(c, s, a).value, b)
    decreases a
  {
    if a == [] {
      assert a + b == b;
    } else {
      assert (a + b)[1..] == a[1..] + b;
      RunConcat(c, Apply(c, s, a[0]).value, a[1..], b);
    }
  }

  /** Two leases with one id, released within one second: the first is neither active nor in the history. */
  lemma SharedIdLosesHistory(c: Codec, a: Lease, b: Lease, time: nat)
    requires Lawful(c) && Owned(c, a) && Owned(c, b) && a != b && a.leaseId == b.leaseId
    ensures var t := Run(c, FRESH, AcquireSteps(c, a) + ReleaseSteps(a, time) + AcquireSteps(c, b) + ReleaseSteps(b, time));
            t.Some? && Acquired(0, a) in t.value.notes && t.value.file.None? && !Archived(c, t.value, a)
  {
    AcquireRun(c, FRESH, a);
    var s1 := Run(c, FRESH, AcquireSteps(c, a)).value;
    ReleaseRun(c, s1, a, time);
    RunConcat(c, FRESH, AcquireSteps(c, a), ReleaseSteps(a, time));
    var s2 := Run(c, s1, ReleaseSteps(a, time)).value;
    AcquireRun(c, s2, b);
    RunConcat(c, FRESH, AcquireSteps(c, a) + ReleaseSteps(a, time), AcquireSteps(c, b));
    var s3 := Run(c, s2, AcquireSteps(c, b)).value;
    ReleaseRun(c, s3, b, time);
    RunConcat(c, FRESH, AcquireSteps(c, a) + ReleaseSteps(a, time) + AcquireSteps(c, b), ReleaseSteps(b, time));
    assert c.dec(c.enc(a)) == Some(a) && c.dec(c.enc(b)) == Some(b);
  }
}
