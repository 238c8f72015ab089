/** The linear integration lane: reviewed tasks are appended one head at a time, in the order
    of a manifest whose membership may be revised while the lane is moving. */
module IntegrationLane {
  import opened Options
  import opened CapabilityBatch

  datatype LaneStatus = LaneOpen | LaneIntegrating | LaneReady | LaneSuperseded | LaneRecovery

  datatype Lane = Lane(batchId: string, manifestFp: string, baseMain: string, laneRef: string, head: string,
                       integrated: seq<string>, status: LaneStatus)

  predicate ValidLane(l: Lane) {
    && |l.integrated| <= MAX_MEMBERSHIP && Distinct(l.integrated)
    && (l.status.LaneOpen? ==> l.head == l.baseMain && l.integrated == [])
  }

  predicate SameBatch(fp: Manifest -> string, m: Manifest, l: Lane) {
    l.batchId == m.batchId && l.manifestFp == fp(m) && l.baseMain == m.baseMain && l.laneRef == m.laneRef
  }

  function InitialLane(fp: Manifest -> string, m: Manifest): Option<Lane> {
    if m.status.Open? then Some(Lane(m.batchId, fp(m), m.baseMain, m.laneRef, m.baseMain, [], LaneOpen)) else None
  }

  datatype Pair = Pair(m: Manifest, l: Lane)

  function BeginIntegration(fp: Manifest -> string, p: Pair): Option<Pair> {
    if !SameBatch(fp, p.m, p.l) || !p.l.status.LaneOpen? then None
    else match TransitionBatch(p.m, Integrating)
         case None => None
         case Some(m) => Some(Pair(m, p.l.(manifestFp := fp(m), status := LaneIntegrating)))
  }

  function RebindManifest(fp: Manifest -> string, p: Pair, next: Manifest, mainNow: string): Option<Pair> {
    var k := |p.l.integrated|;
    if !SameBatch(fp, p.m, p.l) || !p.l.status.LaneIntegrating? || mainNow != p.m.baseMain then None
    else if !ValidManifest(next) || !ValidRevision(fp, p.m, next) then None
    else if k > |p.m.members| || TaskIds(p.m.members[..k]) != p.l.integrated then None
    else if k > |next.members| || next.members[..k] != p.m.members[..k] then None
    else if k < |next.members| && next.members[k].boundBase != p.l.head then None
    else Some(Pair(next, p.l.(manifestFp := fp(next))))
  }

  datatype LeaseState = LeaseNone | LeaseActive | LeaseUncertain
  datatype Confidence = Known | Unknown

  datatype TaskBinding = TaskBinding(batchId: string, manifestFp: string, laneRef: string, member: Member)

  function BindingOf(fp: Manifest -> string, m: Manifest, member: Member): TaskBinding {
    TaskBinding(m.batchId, fp(m), m.laneRef, member)
  }

  /** The machine evidence for one advance. */
  datatype Evidence = Evidence(binding: TaskBinding, manifestFp: string, roadmapId: string, roadmapVersion: string, roadmapFp: string,
                               branch: string, artifactBlob: string, accepted: bool, reviewedHead: string, branchHead: string,
                               t2Count: nat, validated: bool, validationNotRequired: bool, policyPermits: bool,
                               confidence: Confidence, trusted: bool, scopeValid: bool, scope: string,
                               lease: LeaseState, mainNow: string, fastForwardable: bool)

  /** `require_lane_integration_preflight`. */
  predicate Preflight(fp: Manifest -> string, p: Pair, e: Evidence) {
    var k := |p.l.integrated|;
    && SameBatch(fp, p.m, p.l) && p.m.status.Integrating? && p.l.status.LaneIntegrating?
    && e.manifestFp == fp(p.m)
    && e.roadmapId == p.m.roadmapId && e.roadmapVersion == p.m.roadmapVersion && e.roadmapFp == p.m.roadmapFp
    && k < |p.m.members|
    && e.binding == BindingOf(fp, p.m, p.m.members[k]) && e.binding.member.position == k
    && TaskIds(p.m.members[..k]) == p.l.integrated
    && e.binding.member.boundBase == p.l.head
    && e.branch == e.binding.member.branch && e.artifactBlob == e.binding.member.artifactBlob
    && e.accepted && e.reviewedHead == e.branchHead && e.reviewedHead != p.l.head
    && e.t2Count == 0
    && e.validated != (e.validationNotRequired && e.policyPermits)
    && e.confidence.Known? && e.trusted && e.scopeValid && e.scope == e.binding.member.scope
    && e.lease.LeaseNone? && e.mainNow == p.m.baseMain && e.fastForwardable
  }

  function AdvanceLane(fp: Manifest -> string, p: Pair, e: Evidence): Option<Pair> {
    if !Preflight(fp, p, e) then None
    else
      var l := p.l.(head := e.reviewedHead, integrated := p.l.integrated + [e.binding.member.taskId]);
      if ValidLane(l) then Some(Pair(p.m, l)) else None
  }

  datatype Readiness = Readiness(manifestFp: string, head: string, mainNow: string, unresolved: bool)

  function MarkReady(fp: Manifest -> string, p: Pair, e: Readiness): Option<Pair> {
    if !SameBatch(fp, p.m, p.l) || !p.m.status.Integrating? || !p.l.status.LaneIntegrating? then None
    else if p.m.members == [] || p.l.integrated != TaskIds(p.m.members) then None
    else if e.manifestFp != fp(p.m) || e.head != p.l.head || e.mainNow != p.m.baseMain || e.unresolved then None
    else match TransitionBatch(p.m, ReadyForCertification)
         case None => None
         case Some(m) => Some(Pair(m, p.l.(manifestFp := fp(m), status := LaneReady)))
  }

  datatype Command =
    | Begin
    | Rebind(next: Manifest, mainNow: string)
    | Advance(evidence: Evidence)
    | Ready(readiness: Readiness)

  function Apply(fp: Manifest -> string, p: Pair, c: Command): Option<Pair> {
    match c
    case Begin => BeginIntegration(fp, p)
    case Rebind(next, mainNow) => RebindManifest(fp, p, next, mainNow)
    case Advance(e) => AdvanceLane(fp, p, e)
    case Ready(e) => MarkReady(fp, p, e)
  }

  function RunAll(fp: Manifest -> string, p: Pair, cs: seq<Command>): Option<Pair> {
    if cs == [] then Some(p)
    else match RunAll(fp, p, cs[..|cs| - 1])
         case None => None
         case Some(q) => Apply(fp, q, cs[|cs| - 1])
  }

  // ---------------------------------------------------------------- the invariant

  /** `heads` is the lane's history: it starts at base main, ends at the current head, every integrated member
      was bound to the head before it, and every step moved the head. */
  ghost predicate Threads(p: Pair, heads: seq<string>) {
    && |heads| == |p.l.integrated| + 1 && |p.l.integrated| <= |p.m.members|
    && heads[0] == p.m.baseMain && heads[|heads| - 1] == p.l.head
    && forall i :: 0 <= i < |p.l.integrated| ==>
         heads[i] != heads[i + 1] && p.m.members[i].boundBase == heads[i] && p.m.members[i].taskId == p.l.integrated[i]
  }

  ghost predicate Inv(fp: Manifest -> string, p: Pair) {
    && ValidManifest(p.m) && ValidLane(p.l) && SameBatch(fp, p.m, p.l)
    && (p.l.status.LaneOpen? ==> p.m.status.Open?) && (p.l.status.LaneIntegrating? ==> p.m.status.Integrating?)
    && (p.l.status.LaneReady? ==> p.m.status.ReadyForCertification? && |p.l.integrated| == |p.m.members|)
    && exists heads :: Threads(p, heads)
  }

  lemma InitialInv(fp: Manifest -> string, m: Manifest)
    requires ValidManifest(m) && InitialLane(fp, m).Some?
    ensures Inv(fp, Pair(m, InitialLane(fp, m).value))
  {
    assert Threads(Pair(m, InitialLane(fp, m).value), [m.baseMain]);
  }

  /** Appending the next manifest member keeps the ids distinct, so a passed preflight always advances. */
  lemma AdvanceNeverStuck(fp: Manifest -> string, p: Pair, e: Evidence)
    requires Inv(fp, p) && Preflight(fp, p, e)
    ensures AdvanceLane(fp, p, e).Some?
  {
    var ids, k := TaskIds(p.m.members), |p.l.integrated|;
    var longer := p.l.integrated + [e.binding.member.taskId];
    var heads :| Threads(p, heads);
    assert forall i :: 0 <= i <= k ==> longer[i] == ids[i];
  }

  lemma AdvanceInv(fp: Manifest -> string, p: Pair, e: Evidence)
    requires Inv(fp, p) && AdvanceLane(fp, p, e).Some?
    ensures Inv(fp, AdvanceLane(fp, p, e).value)
  {
    var q := AdvanceLane(fp, p, e).value;
    var heads :| Threads(p, heads);
    assert Threads(q, heads + [e.reviewedHead]);
  }

  lemma RebindInv(fp: Manifest -> string, p: Pair, next: Manifest, mainNow: string)
    requires Inv(fp, p) && RebindManifest(fp, p, next, mainNow).Some?
    ensures Inv(fp, RebindManifest(fp, p, next, mainNow).value)
  {
    var q, k := RebindManifest(fp, p, next, mainNow).value, |p.l.integrated|;
    var heads :| Threads(p, heads);
    forall i | 0 <= i < k ensures q.m.members[i] == p.m.members[i] {
      assert next.members[..k][i] == p.m.members[..k][i];
    }
    assert Threads(q, heads);
  }

  lemma StepInv(fp: Manifest -> string, p: Pair, c: Command)
    requires Inv(fp, p) && Apply(fp, p, c).Some?
    ensures Inv(fp, Apply(fp, p, c).value)
  {
    match c
    case Rebind(next, mainNow) => RebindInv(fp, p, next, mainNow);
    case Advance(e) => AdvanceInv(fp, p, e);
    case _ =>
      var heads :| Threads(p, heads);
      assert Threads(Apply(fp, p, c).value, heads);
  }

  /** Over every run from an initial lane, through any number of membership revisions, the integrated ids are
      exactly the manifest prefix of that length, threaded from base main to the current head. */
  lemma {:induction false} RunInv(fp: Manifest -> string, m: Manifest, cs: seq<Command>)
    requires ValidManifest(m) && InitialLane(fp, m).Some?
    requires RunAll(fp, Pair(m, InitialLane(fp, m).value), cs).Some?
    ensures Inv(fp, RunAll(fp, Pair(m, InitialLane(fp, m).value), cs).value)
  {
    var p := Pair(m, InitialLane(fp, m).value);
    if cs == [] {
      InitialInv(fp, m);
    } else {
      var n := |cs| - 1;
      RunInv(fp, m, cs[..n]);
      StepInv(fp, RunAll(fp, p, cs[..n]).value, cs[n]);
    }
  }

  // -------------------------------------------------- what each command demands and does

  /** The lane begins exactly when it is open and has members. */
  lemma BeginExactly(fp: Manifest -> string, p: Pair)
    requires Inv(fp, p)
    ensures Apply(fp, p, Begin).Some? <==> p.l.status == LaneOpen && |p.m.members| > 0
    ensures Apply(fp, p, Begin).Some? ==>
              var q := Apply(fp, p, Begin).value;
              && q.m == p.m.(status := Integrating)
              && q.l == p.l.(status := LaneIntegrating, manifestFp := fp(p.m.(status := Integrating)))
  {
    assert TaskIds(p.m.(status := Integrating).members) == TaskIds(p.m.members);
  }

  /** A task is appended exactly when it is the next member of the current manifest, bound to the current head, its review
      accepted the very commit its branch is at, that commit moves the head, and every machine check passed. Then the head
      is the reviewed commit, the member's id is the last one integrated, and nothing else has changed. */
  lemma AdvanceExactly(fp: Manifest -> string, p: Pair, e: Evidence)
    requires Inv(fp, p)
    ensures Apply(fp, p, Advance(e)).Some? <==>
            && p.l.status == LaneIntegrating && |p.l.integrated| < |p.m.members|
            && var next := p.m.members[|p.l.integrated|];
               && next.boundBase == p.l.head
               && e.binding.batchId == p.m.batchId && e.binding.manifestFp == fp(p.m) && e.binding.laneRef == p.m.laneRef
               && e.binding.member == next && e.manifestFp == fp(p.m)
               && e.roadmapId == p.m.roadmapId && e.roadmapVersion == p.m.roadmapVersion && e.roadmapFp == p.m.roadmapFp
               && e.branch == next.branch && e.artifactBlob == next.artifactBlob && e.scope == next.scope
               && e.accepted && e.reviewedHead == e.branchHead && e.reviewedHead != p.l.head
               && e.t2Count == 0 && (if e.validationNotRequired && e.policyPermits then !e.validated else e.validated)
               && e.confidence == Known && e.trusted && e.scopeValid && e.lease == LeaseNone
               && e.mainNow == p.l.baseMain && e.fastForwardable
    ensures Apply(fp, p, Advance(e)).Some? ==>
              var q := Apply(fp, p, Advance(e)).value;
              q.m == p.m && q.l == p.l.(head := e.reviewedHead, integrated := p.l.integrated + [p.m.members[|p.l.integrated|].taskId])
  {
    var heads :| Threads(p, heads);
    var k := |p.l.integrated|;
    assert TaskIds(p.m.members[..k]) == p.l.integrated;
    if Preflight(fp, p, e) {
      AdvanceNeverStuck(fp, p, e);
    }
  }

  /** A membership revision is accepted exactly when it is the next valid version of the same batch with other members,
      keeps those already integrated, and binds the next one to the current head, while main has not moved. It replaces
      the manifest and rebinds the lane to it. */
  lemma RebindExactly(fp: Manifest -> string, p: Pair, next: Manifest, mainNow: string)
    requires Inv(fp, p)
    ensures Apply(fp, p, Rebind(next, mainNow)).Some? <==>
            && p.l.status == LaneIntegrating && mainNow == p.l.baseMain && ValidManifest(next)
            && next.version == p.m.version + 1 && next.members != p.m.members && fp(next) != fp(p.m)
            && next.batchId == p.m.batchId && next.roadmapId == p.m.roadmapId && next.roadmapVersion == p.m.roadmapVersion
            && next.roadmapFp == p.m.roadmapFp && next.milestone == p.m.milestone && next.capabilityId == p.m.capabilityId
            && next.baseMain == p.m.baseMain && next.laneRef == p.m.laneRef && next.status == p.m.status
            && |p.l.integrated| <= |next.members|
            && (forall i :: 0 <= i < |p.l.integrated| ==> next.members[i] == p.m.members[i])
            && (|p.l.integrated| < |next.members| ==> next.members[|p.l.integrated|].boundBase == p.l.head)
    ensures Apply(fp, p, Rebind(next, mainNow)).Some? ==>
              Apply(fp, p, Rebind(next, mainNow)).value == Pair(next, p.l.(manifestFp := fp(next)))
  {
    var heads :| Threads(p, heads);
    var k := |p.l.integrated|;
    assert TaskIds(p.m.members[..k]) == p.l.integrated;
    if k <= |next.members| {
      assert forall i :: 0 <= i < k ==> next.members[..k][i] == next.members[i] && p.m.members[..k][i] == p.m.members[i];
    }
  }

  /** The lane becomes ready exactly when all members are integrated and the evidence is of this manifest, this head and
      this main, with no recovery open. */
  lemma ReadyExactly(fp: Manifest -> string, p: Pair, e: Readiness)
    requires Inv(fp, p)
    ensures Apply(fp, p, Ready(e)).Some? <==>
            && p.l.status == LaneIntegrating && |p.l.integrated| == |p.m.members|
            && e.manifestFp == fp(p.m) && e.head == p.l.head && e.mainNow == p.l.baseMain && !e.unresolved
    ensures Apply(fp, p, Ready(e)).Some? ==>
              var q := Apply(fp, p, Ready(e)).value;
              && q.m == p.m.(status := ReadyForCertification)
              && q.l == p.l.(status := LaneReady, manifestFp := fp(p.m.(status := ReadyForCertification)))
  {
    var heads :| Threads(p, heads);
    assert TaskIds(p.m.(status := ReadyForCertification).members) == TaskIds(p.m.members);
    assert |p.l.integrated| == |p.m.members| ==> TaskIds(p.m.members) == p.l.integrated;
  }

  // ------------------------------------------------------------------ lanes that finish

  /** Evidence with which the next member is appended, its reviewed commit being `head`. */
  function Perfect(fp: Manifest -> string, m: Manifest, k: nat, head: string): Evidence
    requires k < |m.members|
  {
    var x := m.members[k];
    Evidence(BindingOf(fp, m, x), fp(m), m.roadmapId, m.roadmapVersion, m.roadmapFp, x.branch, x.artifactBlob, true, head, head,
             0, true, false, false, Known, true, true, x.scope, LeaseNone, m.baseMain, true)
  }

  /** The head after `k` members: what the next one is bound to, or the end. */
  function HeadAt(m: Manifest, k: nat, end: string): string { if k < |m.members| then m.members[k].boundBase else end }

  /** The lane of this manifest with `k` members integrated. */
  function LaneAt(fp: Manifest -> string, m: Manifest, k: nat, end: string): Lane
    requires k <= |m.members|
  {
    Lane(m.batchId, fp(m), m.baseMain, m.laneRef, HeadAt(m, k, end), TaskIds(m.members[..k]), LaneIntegrating)
  }

  /** No member leaves the head where it was. */
  predicate Moving(m: Manifest, end: string) { forall k :: 0 <= k < |m.members| ==> m.members[k].boundBase != HeadAt(m, k + 1, end) }

  lemma RunAppend(fp: Manifest -> string, p: Pair, cs: seq<Command>, c: Command)
    ensures RunAll(fp, p, cs + [c]) == match RunAll(fp, p, cs) case None => None case Some(q) => Apply(fp, q, c)
  {
    assert (cs + [c])[..|cs|] == cs;
  }

  lemma BeginRun(fp: Manifest -> string, m: Manifest, end: string)
    requires ValidManifest(m) && m.status.Open? && m.members != []
    ensures InitialLane(fp, m).Some?
    ensures var m1 := m.(status := Integrating);
            RunAll(fp, Pair(m, InitialLane(fp, m).value), [Begin]) == Some(Pair(m1, LaneAt(fp, m1, 0, end)))
  {
    var p := Pair(m, InitialLane(fp, m).value);
    InitialInv(fp, m);
    BeginExactly(fp, p);
    assert [] + [Begin] == [Begin];
    RunAppend(fp, p, [], Begin);
  }

  lemma PerfectAdvances(fp: Manifest -> string, m: Manifest, end: string, k: nat)
    requires k < |m.members| && m.members[k].boundBase != HeadAt(m, k + 1, end) && Inv(fp, Pair(m, LaneAt(fp, m, k, end)))
    ensures Apply(fp, Pair(m, LaneAt(fp, m, k, end)), Advance(Perfect(fp, m, k, HeadAt(m, k + 1, end))))
            == Some(Pair(m, LaneAt(fp, m, k + 1, end)))
  {
    AdvanceExactly(fp, Pair(m, LaneAt(fp, m, k, end)), Perfect(fp, m, k, HeadAt(m, k + 1, end)));
    assert TaskIds(m.members[..k + 1]) == TaskIds(m.members[..k]) + [m.members[k].taskId];
  }

  lemma {:induction false} AdvancesRun(fp: Manifest -> string, m: Manifest, end: string, k: nat) returns (cs: seq<Command>)
    requires ValidManifest(m) && m.status.Open? && m.members != [] && k <= |m.members| && Moving(m, end)
    ensures InitialLane(fp, m).Some?
    ensures var m1 := m.(status := Integrating);
            RunAll(fp, Pair(m, InitialLane(fp, m).value), cs) == Some(Pair(m1, LaneAt(fp, m1, k, end)))
  {
    var m1 := m.(status := Integrating);
    if k == 0 {
      BeginRun(fp, m, end);
      cs := [Begin];
    } else {
      var before := AdvancesRun(fp, m, end, k - 1);
      var c := Advance(Perfect(fp, m1, k - 1, HeadAt(m1, k, end)));
      cs := before + [c];
      RunInv(fp, m, before);
      assert m1.members[k - 1].boundBase != HeadAt(m, k, end);
      PerfectAdvances(fp, m1, end, k - 1);
      RunAppend(fp, Pair(m, InitialLane(fp, m).value), before, c);
    }
  }

  /** Progress: every valid open manifest with members, in which no member leaves the head where it was, has a run of
      accepted commands that integrates all of them and leaves the lane ready at whatever head the last one ends at. */
  lemma LaneCanFinish(fp: Manifest -> string, m: Manifest, end: string) returns (cs: seq<Command>)
    requires ValidManifest(m) && m.status.Open? && m.members != [] && Moving(m, end)
    ensures InitialLane(fp, m).Some? && RunAll(fp, Pair(m, InitialLane(fp, m).value), cs).Some?
    ensures var q := RunAll(fp, Pair(m, InitialLane(fp, m).value), cs).value;
            q.l.status == LaneReady && q.l.head == end && q.l.integrated == TaskIds(m.members) && q.m == m.(status := ReadyForCertification)
  {
    var m1, n := m.(status := Integrating), |m.members|;
    var before := AdvancesRun(fp, m, end, n);
    var p, q := Pair(m, InitialLane(fp, m).value), Pair(m1, LaneAt(fp, m1, n, end));
    var e := Readiness(fp(m1), end, m.baseMain, false);
    cs := before + [Ready(e)];
    RunInv(fp, m, before);
    ReadyExactly(fp, q, e);
    RunAppend(fp, p, before, Ready(e));
    assert m1.members[..n] == m.members;
  }

  // ------------------------------------------------------- termination and freezing

  function Rank(s: LaneStatus): nat {
    match s case LaneOpen => 2 case LaneIntegrating => 1 case _ => 0
  }

  /** Lexicographic: status, versions left, members left. */
  predicate Drops(p: Pair, q: Pair) {
    || Rank(q.l.status) < Rank(p.l.status)
    || (&& Rank(q.l.status) == Rank(p.l.status)
        && (|| q.m.version > p.m.version
            || (q.m.version == p.m.version && |q.m.members| - |q.l.integrated| < |p.m.members| - |p.l.integrated|)))
  }

  /** How many steps are left at most: status, versions, and membership slots. */
  function Potential(p: Pair): int {
    Rank(p.l.status) + (MAX_MANIFEST_VERSION - p.m.version) + (MAX_MEMBERSHIP - |p.l.integrated|)
  }

  lemma StepDrops(fp: Manifest -> string, p: Pair, c: Command)
    requires Inv(fp, p) && Apply(fp, p, c).Some?
    ensures var q := Apply(fp, p, c).value; Drops(p, q) && 0 <= Potential(q) < Potential(p)
  {
    StepInv(fp, p, c);
  }

  /** Every run is finite: no more accepted commands than the potential it started with. */
  lemma {:induction false} RunsEnd(fp: Manifest -> string, m: Manifest, cs: seq<Command>)
    requires ValidManifest(m) && InitialLane(fp, m).Some?
    requires RunAll(fp, Pair(m, InitialLane(fp, m).value), cs).Some?
    ensures var p := Pair(m, InitialLane(fp, m).value);
            0 <= Potential(RunAll(fp, p, cs).value) <= Potential(p) - |cs|
  {
    var p := Pair(m, InitialLane(fp, m).value);
    if cs != [] {
      var n := |cs| - 1;
      RunsEnd(fp, m, cs[..n]);
      RunInv(fp, m, cs[..n]);
      StepDrops(fp, RunAll(fp, p, cs[..n]).value, cs[n]);
    }
  }

  /** A lane that is neither open nor integrating, or is of another batch, fingerprint, base or ref than the manifest,
      accepts no command. */
  lemma Frozen(fp: Manifest -> string, p: Pair, c: Command)
    requires || p.l.status !in {LaneOpen, LaneIntegrating} || p.l.manifestFp != fp(p.m)
             || p.l.batchId != p.m.batchId || p.l.baseMain != p.m.baseMain || p.l.laneRef != p.m.laneRef
    ensures Apply(fp, p, c).None?
  {
  }

  /** At readiness the whole membership is integrated, in order, along one chain of heads from base main. */
  lemma ReadyIsComplete(fp: Manifest -> string, m: Manifest, cs: seq<Command>)
    requires ValidManifest(m) && InitialLane(fp, m).Some?
    requires var r := RunAll(fp, Pair(m, InitialLane(fp, m).value), cs); r.Some? && r.value.l.status.LaneReady?
    ensures var q := RunAll(fp, Pair(m, InitialLane(fp, m).value), cs).value;
            && q.l.integrated == TaskIds(q.m.members)
            && exists heads :: Threads(q, heads) && |heads| == |q.m.members| + 1
    ensures forall c :: Apply(fp, RunAll(fp, Pair(m, InitialLane(fp, m).value), cs).value, c).None?
  {
    RunInv(fp, m, cs);
    var q := RunAll(fp, Pair(m, InitialLane(fp, m).value), cs).value;
    var heads :| Threads(q, heads);
    forall c ensures Apply(fp, q, c).None? {
      Frozen(fp, q, c);
    }
  }

  /** And no other manifest gets there: in a ready lane every member left the head moved. */
  lemma ReadyMoved(fp: Manifest -> string, m: Manifest, cs: seq<Command>)
    requires ValidManifest(m) && InitialLane(fp, m).Some?
    requires var r := RunAll(fp, Pair(m, InitialLane(fp, m).value), cs); r.Some? && r.value.l.status.LaneReady?
    ensures var q := RunAll(fp, Pair(m, InitialLane(fp, m).value), cs).value; Moving(q.m, q.l.head)
  {
    ReadyIsComplete(fp, m, cs);
    var q := RunAll(fp, Pair(m, InitialLane(fp, m).value), cs).value;
    var heads :| Threads(q, heads) && |heads| == |q.m.members| + 1;
    forall k | 0 <= k < |q.m.members| ensures q.m.members[k].boundBase != HeadAt(q.m, k + 1, q.l.head) {
      assert heads[k] != heads[k + 1];
    }
  }

  // ------------------------------------------------------------- moved out of band

  function BatchRank(s: BatchStatus): nat {
    match s
    case Open => 4 case Integrating => 3 case ReadyForCertification => 2 case RecoveryRequired => 1 case _ => 0
  }

  ghost predicate Moves(a: Manifest, b: Manifest) { exists to :: TransitionBatch(a, to) == Some(b) }

  /** A chain of batch transitions that bypasses the lane. */
  ghost predicate OutOfBand(ms: seq<Manifest>) {
    ms != [] && forall i :: 0 <= i < |ms| - 1 ==> Moves(ms[i], ms[i + 1])
  }

  lemma {:induction false} RankFalls(ms: seq<Manifest>)
    requires OutOfBand(ms) && |ms| > 1
    ensures BatchRank(ms[|ms| - 1].status) < BatchRank(ms[0].status)
  {
    var n := |ms| - 1;
    assert Moves(ms[n - 1], ms[n - 1 + 1]);
    if n > 1 {
      RankFalls(ms[..n]);
      assert ms[..n][n - 1] == ms[n - 1];
    }
  }

  /** Once the batch has moved without its lane, the lane is stale for good: no later manifest of the batch's
      own lifecycle is accepted with it. */
  lemma MovedBatchFreezesLane(fp: Manifest -> string, l: Lane, ms: seq<Manifest>, c: Command)
    requires forall a, b :: fp(a) == fp(b) ==> a == b
    requires OutOfBand(ms) && |ms| > 1 && l.manifestFp == fp(ms[0])
    ensures Apply(fp, Pair(ms[|ms| - 1], l), c).None?
  {
    RankFalls(ms);
    Frozen(fp, Pair(ms[|ms| - 1], l), c);
  }
}
