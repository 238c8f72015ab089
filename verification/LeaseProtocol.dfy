/** The executor lease store of one task: ACTIVE.json, its mutation lock and its release
    history, changed one system call at a time by any number of processes. A short
    write, a failed call and a crash are steps like any other. */
module LeaseProtocol {

  import opened Options

  datatype Lease = Lease(leaseId: string, taskId: string, workspaceId: string, executorId: string, operation: string, execution: string)

  type Bytes = seq<bv8>
  type Pid = nat

  const MAX_SERIALIZED_BYTES: nat := 16384

  /** The canonical JSON of a lease and its strict reader, for one task of one workspace. */
  datatype Codec = Codec(enc: Lease -> Bytes, dec: Bytes -> Option<Lease>, task: string, workspace: string)

  function Head(c: Codec, l: Lease, n: nat): Bytes
    requires n <= |c.enc(l)|
  {
    c.enc(l)[..n]
  }

  /** Reading undoes printing, and no proper prefix of a printed object is an object. */
  ghost predicate Lawful(c: Codec) {
    && (forall l :: c.dec(c.enc(l)) == Some(l))
    && (forall l, n :: 0 <= n < |c.enc(l)| ==> c.dec(Head(c, l, n)).None?)
    && c.dec([]).None?
  }

  /** The size every lease is checked for when it is built. */
  predicate Fits(c: Codec, l: Lease) { |c.enc(l)| <= MAX_SERIALIZED_BYTES }

  /** A valid lease of this task and workspace. */
  predicate Owned(c: Codec, l: Lease) { Fits(c, l) && l.taskId == c.task && l.workspaceId == c.workspace }

  datatype Loaded = Absent | Corrupt | Found(lease: Lease)

  /** `load_active` on the bytes it finds. */
  function Load(c: Codec, file: Option<Bytes>): Loaded {
    if file.None? then Absent
    else if |file.value| == 0 || |file.value| > MAX_SERIALIZED_BYTES then Corrupt
    else match c.dec(file.value)
         case None => Corrupt
         case Some(l) => if Owned(c, l) then Found(l) else Corrupt
  }

  /** The file is there, of 1 to 16384 bytes, and reads as this lease, which is of this task and workspace and no longer
      than that itself. */
  predicate Shows(c: Codec, file: Option<Bytes>, l: Lease) {
    && file.Some? && 1 <= |file.value| <= 16384 && c.dec(file.value) == Some(l)
    && |c.enc(l)| <= 16384 && l.taskId == c.task && l.workspaceId == c.workspace
  }

  /** Where a process stands. Every state but the first three is under the lock. */
  datatype Pc =
    | Idle
    | WantsLease(l: Lease)
    | WantsRelease(l: Lease)
    | Opening(l: Lease)
    | Writing(l: Lease, written: nat)
    | Synced(l: Lease)
    | Cleaning(l: Lease, written: nat)
    | Checking(l: Lease)
    | Moving(l: Lease)
    | Leaving

  /** What a caller gets to see. */
  datatype Note =
    | Acquired(p: Pid, l: Lease)
    | Released(p: Pid, l: Lease, time: nat)
    | Read(p: Pid, seen: Loaded)

  datatype State = State(lock: Option<Pid>, file: Option<Bytes>, history: map<(string, nat), Bytes>, pcs: map<Pid, Pc>, notes: seq<Note>)

  const FRESH := State(None, None, map[], map[], [])

  datatype Step =
    | CallAcquire(p: Pid, l: Lease)
    | CallRelease(p: Pid, l: Lease)
    | Lock(p: Pid)
    | OpenExclusive(p: Pid, ok: bool)
    | Write(p: Pid, n: nat)        // 0 is a write that fails
    | Fsync(p: Pid, ok: bool)
    | Close(p: Pid, ok: bool)
    | Unlink(p: Pid, ok: bool)
    | Compare(p: Pid, ok: bool)    // ok: the history directory could be made
    | Replace(p: Pid, time: nat, ok: bool)
    | Unlock(p: Pid)
    | LoadActive(p: Pid)
    | Crash(p: Pid)

  function At(s: State, p: Pid): Pc { if p in s.pcs then s.pcs[p] else Idle }

  function Goto(s: State, p: Pid, pc: Pc): State { s.(pcs := s.pcs[p := pc]) }

  function Noted(s: State, n: Note): State { s.(notes := s.notes + [n]) }

  /** One step of one process, None when that process cannot take it now. */
  function Apply(c: Codec, s: State, step: Step): Option<State> {
    var p := step.p;
    var pc := At(s, p);
    match step
    case CallAcquire(_, l) => if pc.Idle? && Owned(c, l) then Some(Goto(s, p, WantsLease(l))) else None
    case CallRelease(_, l) => if pc.Idle? then Some(Goto(s, p, WantsRelease(l))) else None
    case Lock(_) =>
      if s.lock.Some? then None
      else if pc.WantsLease? then Some(Goto(s, p, Opening(pc.l)).(lock := Some(p)))
      else if pc.WantsRelease? then Some(Goto(s, p, Checking(pc.l)).(lock := Some(p)))
      else None
    case OpenExclusive(_, ok) =>
      if !pc.Opening? then None
      else if s.file.Some? || !ok then Some(Goto(s, p, Leaving))
      else Some(Goto(s, p, Writing(pc.l, 0)).(file := Some([])))
    case Write(_, n) =>
      if !pc.Writing? || pc.written >= |c.enc(pc.l)| || n > |c.enc(pc.l)| - pc.written then None
      else if n == 0 then Some(Goto(s, p, Cleaning(pc.l, pc.written)))
      else Some(Goto(s, p, Writing(pc.l, pc.written + n)).(file := Some(Head(c, pc.l, pc.written + n))))
    case Fsync(_, ok) =>
      if !pc.Writing? || pc.written < |c.enc(pc.l)| then None
      else Some(Goto(s, p, if ok then Synced(pc.l) else Cleaning(pc.l, pc.written)))
    case Close(_, ok) =>
      if !pc.Synced? then None
      else if ok then Some(Noted(Goto(s, p, Leaving), Acquired(p, pc.l)))
      else Some(Goto(s, p, Cleaning(pc.l, |c.enc(pc.l)|)))
    case Unlink(_, ok) =>
      if !pc.Cleaning? then None
      else Some(Goto(s, p, Leaving).(file := if ok then None else s.file))
    case Compare(_, ok) =>
      if !pc.Checking? then None
      else Some(Goto(s, p, if ok && Load(c, s.file) == Found(pc.l) then Moving(pc.l) else Leaving))
    case Replace(_, time, ok) =>
      if !pc.Moving? then None
      else if !ok || s.file.None? then Some(Goto(s, p, Leaving))
      else Some(Noted(Goto(s, p, Leaving), Released(p, pc.l, time)).(file := None, history := s.history[(pc.l.leaseId, time) := s.file.value]))
    case Unlock(_) => if pc.Leaving? then Some(Goto(s, p, Idle).(lock := None)) else None
    case LoadActive(_) => if pc.Idle? then Some(Noted(s, Read(p, Load(c, s.file)))) else None
    case Crash(_) => Some(Goto(s, p, Idle).(lock := if s.lock == Some(p) then None else s.lock))
  }

  function Run(c: Codec, s: State, steps: seq<Step>): Option<State>
    decreases steps
  {
    if steps == [] then Some(s)
    else match Apply(c, s, steps[0])
         case None => None
         case Some(t) => Run(c, t, steps[1..])
  }

  // --------------------------------------------------------------- the invariant

  predicate UnderLock(pc: Pc) { !pc.Idle? && !pc.WantsLease? && !pc.WantsRelease? }

  /** The process that created the file and has not finished with it. */
  predicate Creating(pc: Pc) { pc.Writing? || pc.Synced? || pc.Cleaning? }

  /** What the file holds while this process stands here. */
  ghost predicate Backed(c: Codec, file: Option<Bytes>, pc: Pc) {
    match pc
    case WantsLease(l) => Owned(c, l)
    case Opening(l) => Owned(c, l)
    case Writing(l, n) => Owned(c, l) && n <= |c.enc(l)| && file == Some(Head(c, l, n))
    case Synced(l) => Owned(c, l) && file == Some(c.enc(l))
    case Cleaning(l, n) => Owned(c, l) && n <= |c.enc(l)| && file == Some(Head(c, l, n))
    case Moving(l) => Owned(c, l) && file == Some(c.enc(l))
    case _ => true
  }

  /** The lease acquired last and not released since. */
  function Held(notes: seq<Note>): Option<Lease> {
    if notes == [] then None
    else match notes[|notes| - 1]
         case Acquired(_, l) => Some(l)
         case Released(_, _, _) => None
         case Read(_, _) => Held(notes[..|notes| - 1])
  }

  /** Some lease's bytes, complete or cut short. */
  ghost predicate Partial(c: Codec, b: Bytes) {
    exists l, n :: Owned(c, l) && 0 <= n <= |c.enc(l)| && b == Head(c, l, n)
  }

  function Upto(notes: seq<Note>, n: nat): seq<Note>
    requires n <= |notes|
  {
    notes[..n]
  }

  /** Nothing is acquired while something is held, and nothing is released but what is held. */
  ghost predicate Orderly(notes: seq<Note>) {
    forall k :: 0 <= k < |notes| ==> Allowed(Held(Upto(notes, k)), notes[k])
  }

  predicate Allowed(held: Option<Lease>, n: Note) {
    match n
    case Acquired(_, _) => held.None?
    case Released(_, l, _) => held.None? || held == Some(l)
    case Read(_, _) => true
  }

  /** Locking: whoever is past the lock holds it, and sees in the file what it left there. */
  ghost predicate Guarded(c: Codec, s: State) {
    forall p: Pid :: Backed(c, s.file, At(s, p)) && (UnderLock(At(s, p)) ==> s.lock == Some(p))
  }

  /** A held lease is complete in the file, and nobody is still creating it. */
  ghost predicate Safe(c: Codec, s: State) {
    Held(s.notes).Some? ==>
      && Owned(c, Held(s.notes).value) && s.file == Some(c.enc(Held(s.notes).value))
      && forall p: Pid :: !Creating(At(s, p))
  }

  ghost predicate Inv(c: Codec, s: State) {
    Guarded(c, s) && Safe(c, s) && Orderly(s.notes) && (s.file.Some? ==> Partial(c, s.file.value))
  }

  function Advance(held: Option<Lease>, n: Note): Option<Lease> {
    match n case Acquired(_, l) => Some(l) case Released(_, _, _) => None case Read(_, _) => held
  }

  lemma HeldAppend(notes: seq<Note>, n: Note)
    ensures Held(notes + [n]) == Advance(Held(notes), n)
  {
    assert (notes + [n])[..|notes|] == notes;
  }

  lemma OrderlyAppend(notes: seq<Note>, n: Note)
    requires Orderly(notes) && Allowed(Held(notes), n)
    ensures Orderly(notes + [n])
  {
    forall k | 0 <= k <= |notes| ensures Allowed(Held(Upto(notes + [n], k)), (notes + [n])[k]) {
      assert Upto(notes + [n], k) == Upto(notes, k);
      assert k == |notes| ==> Upto(notes, k) == notes;
    }
  }

  /** A file that reads as a lease is that lease, complete. */
  lemma FoundWhole(c: Codec, b: Bytes, l: Lease)
    requires Lawful(c) && Partial(c, b) && Load(c, Some(b)) == Found(l)
    ensures b == c.enc(l)
  {
    var l0, n :| 0 <= n <= |c.enc(l0)| && b == Head(c, l0, n);
    assert n == |c.enc(l0)| ==> Head(c, l0, n) == c.enc(l0);
  }

  /** The stepping process sees in the file what it left there. */
  lemma OwnStep(c: Codec, s: State, step: Step)
    requires Lawful(c) && Inv(c, s) && Apply(c, s, step).Some?
    ensures var t, p := Apply(c, s, step).value, step.p;
            Backed(c, t.file, At(t, p)) && (UnderLock(At(t, p)) ==> t.lock == Some(p))
  {
    var t, p := Apply(c, s, step).value, step.p;
    assert Backed(c, s.file, At(s, p)) && (UnderLock(At(s, p)) ==> s.lock == Some(p));
    if step.Compare? && t.pcs[p].Moving? {
      FoundWhole(c, s.file.value, At(s, p).l);
    }
    if step.Fsync? || step.Close? {
      assert Head(c, At(s, p).l, |c.enc(At(s, p).l)|) == c.enc(At(s, p).l);
    }
  }

  /** Every other process is outside the lock, or nothing it relies on has moved. */
  lemma OtherStep(c: Codec, s: State, step: Step, q: Pid)
    requires Inv(c, s) && Apply(c, s, step).Some? && q != step.p
    ensures var t := Apply(c, s, step).value; Backed(c, t.file, At(t, q)) && (UnderLock(At(t, q)) ==> t.lock == Some(q))
  {
    var t, p := Apply(c, s, step).value, step.p;
    assert At(t, q) == At(s, q);
    assert Backed(c, s.file, At(s, q)) && (UnderLock(At(s, q)) ==> s.lock == Some(q)) && (UnderLock(At(s, p)) ==> s.lock == Some(p));
  }

  lemma GuardedStep(c: Codec, s: State, step: Step)
    requires Lawful(c) && Inv(c, s) && Apply(c, s, step).Some?
    ensures Guarded(c, Apply(c, s, step).value)
  {
    var t, p := Apply(c, s, step).value, step.p;
    OwnStep(c, s, step);
    forall q: Pid ensures Backed(c, t.file, At(t, q)) && (UnderLock(At(t, q)) ==> t.lock == Some(q)) {
      if q != p {
        OtherStep(c, s, step, q);
      }
    }
  }

  /** The note a step adds, if any. */
  function Says(c: Codec, s: State, step: Step): Option<Note> {
    var pc := At(s, step.p);
    if step.Close? && step.ok && pc.Synced? then Some(Acquired(step.p, pc.l))
    else if step.Replace? && step.ok && pc.Moving? && s.file.Some? then Some(Released(step.p, pc.l, step.time))
    else if step.LoadActive? then Some(Read(step.p, Load(c, s.file)))
    else None
  }

  lemma SaysAllowed(c: Codec, s: State, step: Step)
    requires Lawful(c) && Inv(c, s) && Apply(c, s, step).Some? && Says(c, s, step).Some?
    ensures Allowed(Held(s.notes), Says(c, s, step).value)
  {
    var pc := At(s, step.p);
    assert Backed(c, s.file, pc);
    if step.Replace? && Held(s.notes).Some? {
      assert c.dec(c.enc(pc.l)) == Some(pc.l) && c.dec(c.enc(Held(s.notes).value)) == Held(s.notes);
    }
  }

  lemma NotesStep(c: Codec, s: State, step: Step)
    requires Apply(c, s, step).Some?
    ensures Apply(c, s, step).value.notes == if Says(c, s, step).Some? then s.notes + [Says(c, s, step).value] else s.notes
  {
  }

  lemma HeldStep(c: Codec, s: State, step: Step)
    requires Lawful(c) && Inv(c, s) && Apply(c, s, step).Some?
    ensures Orderly(Apply(c, s, step).value.notes)
    ensures Held(Apply(c, s, step).value.notes) ==
            if Says(c, s, step).Some? then Advance(Held(s.notes), Says(c, s, step).value) else Held(s.notes)
  {
    NotesStep(c, s, step);
    if Says(c, s, step).Some? {
      SaysAllowed(c, s, step);
      HeldAppend(s.notes, Says(c, s, step).value);
      OrderlyAppend(s.notes, Says(c, s, step).value);
    }
  }

  /** Under the lock a process is alone. */
  lemma Alone(c: Codec, s: State, p: Pid, q: Pid)
    requires Guarded(c, s) && UnderLock(At(s, p)) && q != p
    ensures !UnderLock(At(s, q))
  {
  }

  lemma OthersStay(c: Codec, s: State, step: Step, q: Pid)
    requires Apply(c, s, step).Some? && q != step.p
    ensures At(Apply(c, s, step).value, q) == At(s, q)
  {
  }

  /** Nobody starts creating while a file is there. */
  lemma CreatorStep(c: Codec, s: State, step: Step)
    requires Apply(c, s, step).Some? && s.file.Some? && !Creating(At(s, step.p))
    ensures !Creating(At(Apply(c, s, step).value, step.p))
  {
  }

  /** Only a process that created the file, or one that is releasing it, changes it. */
  lemma FileStep(c: Codec, s: State, step: Step)
    requires Apply(c, s, step).Some? && s.file.Some? && !Creating(At(s, step.p))
    ensures var t := Apply(c, s, step).value; t.file == s.file || (step.Replace? && Says(c, s, step).Some?)
  {
  }

  lemma AcquiredIsSafe(c: Codec, s: State, step: Step)
    requires Inv(c, s) && Apply(c, s, step).Some? && step.Close? && Says(c, s, step).Some?
    ensures var t, l := Apply(c, s, step).value, At(s, step.p).l;
            Owned(c, l) && t.file == Some(c.enc(l)) && forall q: Pid :: !Creating(At(t, q))
  {
    var t, p := Apply(c, s, step).value, step.p;
    assert Backed(c, s.file, At(s, p));
    forall q: Pid ensures !Creating(At(t, q)) {
      if q != p {
        Alone(c, s, p, q);
        OthersStay(c, s, step, q);
      }
    }
  }

  lemma HeldIsSafe(c: Codec, s: State, step: Step)
    requires Inv(c, s) && Apply(c, s, step).Some? && Held(s.notes).Some? && !(step.Replace? && Says(c, s, step).Some?)
    ensures var t := Apply(c, s, step).value; t.file == s.file && forall q: Pid :: !Creating(At(t, q))
  {
    var t, p := Apply(c, s, step).value, step.p;
    FileStep(c, s, step);
    forall q: Pid ensures !Creating(At(t, q)) {
      if q != p {
        OthersStay(c, s, step, q);
      } else {
        CreatorStep(c, s, step);
      }
    }
  }

  lemma SafeStep(c: Codec, s: State, step: Step)
    requires Lawful(c) && Inv(c, s) && Apply(c, s, step).Some?
    ensures Safe(c, Apply(c, s, step).value)
  {
    HeldStep(c, s, step);
    if Says(c, s, step).Some? && step.Close? {
      AcquiredIsSafe(c, s, step);
    } else if Held(s.notes).Some? && !(step.Replace? && Says(c, s, step).Some?) {
      HeldIsSafe(c, s, step);
    }
  }

  lemma InvStep(c: Codec, s: State, step: Step)
    requires Lawful(c) && Inv(c, s) && Apply(c, s, step).Some?
    ensures Inv(c, Apply(c, s, step).value)
  {
    var t, p := Apply(c, s, step).value, step.p;
    GuardedStep(c, s, step);
    SafeStep(c, s, step);
    HeldStep(c, s, step);
    if step.OpenExclusive? && t.file.Some? && s.file.None? {
      assert t.file.value == Head(c, At(s, p).l, 0);
    }
  }

  // ------------------------------------------------------------------- whole runs

  lemma {:induction false} RunInv(c: Codec, s: State, steps: seq<Step>)
    requires Lawful(c) && Inv(c, s) && Run(c, s, steps).Some?
    ensures Inv(c, Run(c, s, steps).value)
    decreases steps
  {
    if steps != [] {
      InvStep(c, s, steps[0]);
      RunInv(c, Apply(c, s, steps[0]).value, steps[1..]);
    }
  }

  /** A lease that a caller gets to see is of the codec's task and workspace, and fits. */
  predicate Belongs(c: Codec, n: Note) {
    match n
    case Acquired(_, l) => l.taskId == c.task && l.workspaceId == c.workspace && |c.enc(l)| <= 16384
    case Released(_, l, _) => l.taskId == c.task && l.workspaceId == c.workspace && |c.enc(l)| <= 16384
    case Read(_, Found(l)) => l.taskId == c.task && l.workspaceId == c.workspace && |c.enc(l)| <= 16384
    case Read(_, _) => true
  }

  lemma SaysBelongs(c: Codec, s: State, step: Step)
    requires Inv(c, s) && Apply(c, s, step).Some? && Says(c, s, step).Some?
    ensures Belongs(c, Says(c, s, step).value)
  {
    assert Backed(c, s.file, At(s, step.p));
  }

  lemma {:induction false} NotesBelong(c: Codec, s: State, steps: seq<Step>)
    requires Lawful(c) && Inv(c, s) && Run(c, s, steps).Some?
    requires forall k :: 0 <= k < |s.notes| ==> Belongs(c, s.notes[k])
    ensures var notes := Run(c, s, steps).value.notes; forall k :: 0 <= k < |notes| ==> Belongs(c, notes[k])
    decreases steps
  {
    if steps != [] {
      InvStep(c, s, steps[0]);
      NotesStep(c, s, steps[0]);
      if Says(c, s, steps[0]).Some? {
        SaysBelongs(c, s, steps[0]);
      }
      NotesBelong(c, Apply(c, s, steps[0]).value, steps[1..]);
    }
  }

  /** Over every interleaving nobody acquires, releases or finds a lease of another task or another workspace. */
  lemma OnlyOwnLeases(c: Codec, steps: seq<Step>, k: nat)
    requires Lawful(c) && Run(c, FRESH, steps).Some? && k < |Run(c, FRESH, steps).value.notes|
    ensures Belongs(c, Run(c, FRESH, steps).value.notes[k])
  {
    FreshInv(c);
    NotesBelong(c, FRESH, steps);
  }

  lemma FreshInv(c: Codec)
    ensures Inv(c, FRESH)
  {
  }

  lemma {:induction false} StillHeld(notes: seq<Note>, i: nat, m: nat)
    requires Orderly(notes) && i < m <= |notes| && notes[i].Acquired?
    requires forall k :: i < k < m ==> !(notes[k].Released? && notes[k].l == notes[i].l)
    ensures Held(Upto(notes, m)) == Some(notes[i].l)
  {
    assert Upto(notes, m) == Upto(notes, m - 1) + [notes[m - 1]];
    HeldAppend(Upto(notes, m - 1), notes[m - 1]);
    if m - 1 > i {
      StillHeld(notes, i, m - 1);
      assert Allowed(Held(Upto(notes, m - 1)), notes[m - 1]);
    }
  }

  lemma OrderlyExcludes(notes: seq<Note>, i: nat, j: nat)
    requires Orderly(notes) && i < j < |notes| && notes[i].Acquired? && notes[j].Acquired?
    ensures exists k :: i < k < j && notes[k].Released? && notes[k].l == notes[i].l
  {
    assert Allowed(Held(Upto(notes, j)), notes[j]);
    if forall k :: i < k < j ==> !(notes[k].Released? && notes[k].l == notes[i].l) {
      StillHeld(notes, i, j);
    }
  }

  /** Mutual exclusion: over every interleaving, with every failure and crash, two successful acquires
      have a successful release of the first one's lease between them. */
  lemma MutualExclusion(c: Codec, steps: seq<Step>, i: nat, j: nat)
    requires Lawful(c) && Run(c, FRESH, steps).Some?
    requires var notes := Run(c, FRESH, steps).value.notes; i < j < |notes| && notes[i].Acquired? && notes[j].Acquired?
    ensures var notes := Run(c, FRESH, steps).value.notes;
            exists k :: i < k < j && notes[k].Released? && notes[k].l == notes[i].l
  {
    FreshInv(c);
    RunInv(c, FRESH, steps);
    OrderlyExcludes(Run(c, FRESH, steps).value.notes, i, j);
  }

  /** A file its creator has given up, and that does not read as a lease. */
  ghost predicate Leftover(c: Codec, s: State) {
    Inv(c, s) && s.file.Some? && Load(c, s.file).Corrupt? && forall p: Pid :: !Creating(At(s, p))
  }

  predicate OnlyReads(more: seq<Note>) { forall k :: 0 <= k < |more| ==> more[k].Read? && more[k].seen.Corrupt? }

  lemma LeftoverStep(c: Codec, s: State, step: Step)
    requires Lawful(c) && Leftover(c, s) && Apply(c, s, step).Some?
    ensures var t := Apply(c, s, step).value;
            Leftover(c, t) && t.file == s.file && (t.notes == s.notes || t.notes == s.notes + [Read(step.p, Corrupt)])
  {
    var t, p := Apply(c, s, step).value, step.p;
    InvStep(c, s, step);
    assert Backed(c, s.file, At(s, p));
    FileStep(c, s, step);
    NotesStep(c, s, step);
    forall q: Pid ensures !Creating(At(t, q)) {
      if q != p {
        OthersStay(c, s, step, q);
      } else {
        CreatorStep(c, s, step);
      }
    }
  }

  /** A leftover partial file only blocks: from then on, whatever runs, it stays as it is, no acquire and no
      release succeeds, and every read reports it as corrupt. */
  lemma {:induction false} LeftoverOnlyBlocks(c: Codec, s: State, steps: seq<Step>)
    requires Lawful(c) && Leftover(c, s) && Run(c, s, steps).Some?
    ensures var t := Run(c, s, steps).value;
            t.file == s.file && s.notes <= t.notes && OnlyReads(t.notes[|s.notes|..])
    decreases steps
  {
    if steps != [] {
      LeftoverStep(c, s, steps[0]);
      var t := Apply(c, s, steps[0]).value;
      LeftoverOnlyBlocks(c, t, steps[1..]);
      var u := Run(c, s, steps).value;
      forall k | 0 <= k < |u.notes[|s.notes|..]| ensures u.notes[|s.notes|..][k].Read? && u.notes[|s.notes|..][k].seen.Corrupt? {
        if |s.notes| + k >= |t.notes| {
          assert u.notes[|s.notes|..][k] == u.notes[|t.notes|..][|s.notes| + k - |t.notes|];
        } else {
          assert u.notes[|s.notes|..][k] == t.notes[|s.notes| + k];
        }
      }
    }
  }

  /** Compare-and-release: a step takes a file away only if it releases exactly the lease the file holds, into
      the history, or if it cleans up what this very call created and nobody holds. */
  lemma RemovalIsExact(c: Codec, s: State, step: Step)
    requires Lawful(c) && Inv(c, s) && Apply(c, s, step).Some?
    requires s.file.Some? && Apply(c, s, step).value.file.None?
    ensures var t, pc := Apply(c, s, step).value, At(s, step.p);
            || (&& step.Replace? && pc.Moving? && s.file.value == c.enc(pc.l)
                && (Held(s.notes).Some? ==> Held(s.notes).value == pc.l)
                && t.history == s.history[(pc.l.leaseId, step.time) := c.enc(pc.l)] && t.notes == s.notes + [Released(step.p, pc.l, step.time)])
            || (&& step.Unlink? && pc.Cleaning? && pc.written <= |c.enc(pc.l)| && s.file.value == Head(c, pc.l, pc.written)
                && Held(s.notes).None? && t.history == s.history && t.notes == s.notes)
  {
    assert Backed(c, s.file, At(s, step.p));
    NotesStep(c, s, step);
    if step.Replace? {
      SaysAllowed(c, s, step);
    }
  }

  /** Readers need no lock: what they return as a lease is complete, and while one is held it is that one. */
  lemma ReadersSeeWhole(c: Codec, steps: seq<Step>)
    requires Lawful(c) && Run(c, FRESH, steps).Some?
    ensures var s := Run(c, FRESH, steps).value;
            && (Load(c, s.file).Found? ==> s.file == Some(c.enc(Load(c, s.file).lease)))
            && (Held(s.notes).Some? ==> Load(c, s.file) == Found(Held(s.notes).value))
  {
    FreshInv(c);
    RunInv(c, FRESH, steps);
    var s := Run(c, FRESH, steps).value;
    if Load(c, s.file).Found? {
      FoundWhole(c, s.file.value, Load(c, s.file).lease);
    }
  }

  // ----------------------------------------------------------------- conservation

  predicate Archived(c: Codec, s: State, l: Lease) {
    exists key :: key in s.history && key.0 == l.leaseId && s.history[key] == c.enc(l)
  }

  function Filed(c: Codec, h: map<(string, nat), Bytes>, n: Note): map<(string, nat), Bytes> {
    if n.Released? then h[(n.l.leaseId, n.time) := c.enc(n.l)] else h
  }

  /** The history files that these releases leave behind: a later one replaces an earlier one of the same name. */
  function HistoryOf(c: Codec, notes: seq<Note>): map<(string, nat), Bytes> {
    if notes == [] then map[] else Filed(c, HistoryOf(c, notes[..|notes| - 1]), notes[|notes| - 1])
  }

  lemma HistoryAppend(c: Codec, notes: seq<Note>, n: Note)
    ensures HistoryOf(c, notes + [n]) == Filed(c, HistoryOf(c, notes), n)
  {
    assert (notes + [n])[..|notes|] == notes;
  }

  /** A step files exactly what it says it released. */
  lemma FiledStep(c: Codec, s: State, step: Step)
    requires Backed(c, s.file, At(s, step.p)) && Apply(c, s, step).Some?
    ensures Apply(c, s, step).value.history ==
            if Says(c, s, step).Some? then Filed(c, s.history, Says(c, s, step).value) else s.history
  {
  }

  lemma HistoryStep(c: Codec, s: State, step: Step)
    requires Inv(c, s) && s.history == HistoryOf(c, s.notes) && Apply(c, s, step).Some?
    ensures var t := Apply(c, s, step).value; t.history == HistoryOf(c, t.notes)
  {
    assert Backed(c, s.file, At(s, step.p));
    FiledStep(c, s, step);
    NotesStep(c, s, step);
    if Says(c, s, step).Some? {
      HistoryAppend(c, s.notes, Says(c, s, step).value);
    }
  }

  lemma {:induction false} RunHistory(c: Codec, s: State, steps: seq<Step>)
    requires Lawful(c) && Inv(c, s) && s.history == HistoryOf(c, s.notes) && Run(c, s, steps).Some?
    ensures var t := Run(c, s, steps).value; t.history == HistoryOf(c, t.notes)
    decreases steps
  {
    if steps != [] {
      InvStep(c, s, steps[0]);
      HistoryStep(c, s, steps[0]);
      RunHistory(c, Apply(c, s, steps[0]).value, steps[1..]);
    }
  }

  predicate Stores(n: Note, key: (string, nat)) { n.Released? && n.l.leaseId == key.0 && n.time == key.1 }

  /** `r` is the last release filed under `key`. */
  predicate LastUnder(notes: seq<Note>, key: (string, nat), r: nat) {
    r < |notes| && Stores(notes[r], key) && forall k :: r < k < |notes| ==> !Stores(notes[k], key)
  }

  lemma {:induction false} FiledUnder(c: Codec, notes: seq<Note>, key: (string, nat)) returns (r: nat)
    ensures key in HistoryOf(c, notes) <==> exists k :: 0 <= k < |notes| && Stores(notes[k], key)
    ensures key in HistoryOf(c, notes) ==> LastUnder(notes, key, r) && HistoryOf(c, notes)[key] == c.enc(notes[r].l)
  {
    r := 0;
    if notes != [] {
      var n := |notes| - 1;
      if Stores(notes[n], key) {
        r := n;
      } else {
        r := FiledUnder(c, notes[..n], key);
        assert forall k :: 0 <= k < n ==> notes[..n][k] == notes[k];
      }
    }
  }

  /** No later release files a different lease under the same id and second. */
  predicate Survives(notes: seq<Note>, r: nat)
    requires r < |notes| && notes[r].Released?
  {
    forall k :: r < k < |notes| && Stores(notes[k], (notes[r].l.leaseId, notes[r].time)) ==> notes[k].l == notes[r].l
  }

  predicate HasSurvivor(notes: seq<Note>, l: Lease) {
    exists r :: 0 <= r < |notes| && notes[r].Released? && notes[r].l == l && Survives(notes, r)
  }

  lemma SurvivorIsArchived(c: Codec, s: State, r: nat)
    requires s.history == HistoryOf(c, s.notes) && r < |s.notes| && s.notes[r].Released? && Survives(s.notes, r)
    ensures Archived(c, s, s.notes[r].l)
  {
    var key := (s.notes[r].l.leaseId, s.notes[r].time);
    assert Stores(s.notes[r], key);
    var last := FiledUnder(c, s.notes, key);
    assert s.notes[last].l == s.notes[r].l;
  }

  lemma ArchivedSurvives(c: Codec, s: State, l: Lease)
    requires Lawful(c) && s.history == HistoryOf(c, s.notes) && Archived(c, s, l)
    ensures HasSurvivor(s.notes, l)
  {
    var key :| key in s.history && key.0 == l.leaseId && s.history[key] == c.enc(l);
    var r := FiledUnder(c, s.notes, key);
    assert c.dec(c.enc(s.notes[r].l)) == Some(s.notes[r].l) && c.dec(c.enc(l)) == Some(l);
    assert Survives(s.notes, r);
  }

  /** Acquired, and not released since. */
  predicate Unreleased(notes: seq<Note>, l: Lease) {
    exists k :: 0 <= k < |notes| && notes[k].Acquired? && notes[k].l == l && NoRelease(notes, k, l)
  }

  predicate NoRelease(notes: seq<Note>, k: nat, l: Lease) {
    forall m :: k < m < |notes| ==> !(notes[m].Released? && notes[m].l == l)
  }

  lemma {:induction false} HeldWasAcquired(notes: seq<Note>)
    requires Held(notes).Some?
    ensures Unreleased(notes, Held(notes).value)
  {
    var n, l := |notes| - 1, Held(notes).value;
    if notes[n].Acquired? {
      assert NoRelease(notes, n, l);
    } else {
      HeldWasAcquired(notes[..n]);
      var k :| 0 <= k < n && notes[..n][k].Acquired? && notes[..n][k].l == l && NoRelease(notes[..n], k, l);
      assert forall m :: 0 <= m < n ==> notes[..n][m] == notes[m];
      assert NoRelease(notes, k, l);
    }
  }

  lemma HeldExactly(notes: seq<Note>, l: Lease)
    requires Orderly(notes)
    ensures Held(notes) == Some(l) <==> Unreleased(notes, l)
  {
    if Held(notes) == Some(l) {
      HeldWasAcquired(notes);
    }
    if Unreleased(notes, l) {
      var k :| 0 <= k < |notes| && notes[k].Acquired? && notes[k].l == l && NoRelease(notes, k, l);
      StillHeld(notes, k, |notes|);
      assert Upto(notes, |notes|) == notes;
    }
  }

  /** Active as its holder knows it, or in the history. */
  predicate Kept(c: Codec, s: State, l: Lease) { Held(s.notes) == Some(l) || Archived(c, s, l) }

  /** Conservation, exactly: over every run a lease is active or in the history if and only if it is unreleased, or
      some release of it was not followed by a release of a different lease with the same id in the same second. */
  lemma KeptExactly(c: Codec, steps: seq<Step>, l: Lease)
    requires Lawful(c) && Run(c, FRESH, steps).Some?
    ensures var s := Run(c, FRESH, steps).value;
            && (Kept(c, s, l) <==> Unreleased(s.notes, l) || HasSurvivor(s.notes, l))
            && (Held(s.notes) == Some(l) ==> s.file == Some(c.enc(l)))
  {
    FreshInv(c);
    RunInv(c, FRESH, steps);
    RunHistory(c, FRESH, steps);
    var s := Run(c, FRESH, steps).value;
    HeldExactly(s.notes, l);
    if Archived(c, s, l) {
      ArchivedSurvives(c, s, l);
    }
    if HasSurvivor(s.notes, l) {
      var r :| 0 <= r < |s.notes| && s.notes[r].Released? && s.notes[r].l == l && Survives(s.notes, r);
      SurvivorIsArchived(c, s, r);
    }
  }

  /** Among the releases of a run, a lease id names one lease. */
  predicate IdsDetermine(notes: seq<Note>) {
    forall i, j :: 0 <= i < j < |notes| && notes[i].Released? && notes[j].Released? && notes[i].l.leaseId == notes[j].l.leaseId ==>
      notes[i].l == notes[j].l
  }

  /** Conservation: if lease ids determine leases, every lease ever acquired is active or in the history. */
  lemma AcquiredIsKept(c: Codec, steps: seq<Step>, k: nat)
    requires Lawful(c) && Run(c, FRESH, steps).Some?
    requires var notes := Run(c, FRESH, steps).value.notes; IdsDetermine(notes) && k < |notes| && notes[k].Acquired?
    ensures var s := Run(c, FRESH, steps).value;
            s.file == Some(c.enc(s.notes[k].l)) || Archived(c, s, s.notes[k].l)
  {
    var s := Run(c, FRESH, steps).value;
    var l := s.notes[k].l;
    KeptExactly(c, steps, l);
    if !NoRelease(s.notes, k, l) {
      var r :| k < r < |s.notes| && s.notes[r].Released? && s.notes[r].l == l;
      assert Survives(s.notes, r);
    }
  }
}
