/** Capability-batch manifests: versioned, ordered task membership with a small lifecycle. */
module CapabilityBatch {
  import opened Options

  datatype BatchStatus =
    | Open | Integrating | ReadyForCertification | CertificationPending | Certified | Merged
    | CertificationFailed | Superseded | RecoveryRequired

  const MAX_MANIFEST_VERSION: nat := 2147483647
  const MAX_MEMBERSHIP: nat := 10000

  datatype Member = Member(taskId: string, artifactBlob: string, boundBase: string, branch: string, scope: string, position: int, version: int)

  datatype Manifest = Manifest(batchId: string, roadmapId: string, roadmapVersion: string, roadmapFp: string, milestone: string,
                               capabilityId: string, baseMain: string, laneRef: string, version: int,
                               members: seq<Member>, status: BatchStatus)

  function TaskIds(members: seq<Member>): (ids: seq<string>)
    ensures |ids| == |members| && forall i :: 0 <= i < |ids| ==> ids[i] == members[i].taskId
  {
    seq(|members|, i requires 0 <= i < |members| => members[i].taskId)
  }

  predicate Distinct(ids: seq<string>) { forall i, j :: 0 <= i < j < |ids| ==> ids[i] != ids[j] }

  /** The manifest's own validation. */
  predicate ValidManifest(m: Manifest) {
    && 1 <= m.version <= MAX_MANIFEST_VERSION && |m.members| <= MAX_MEMBERSHIP
    && (!m.status.Open? ==> m.members != [])
    && Distinct(TaskIds(m.members))
    && (forall i :: 0 <= i < |m.members| ==> m.members[i].position == i && 1 <= m.members[i].version <= MAX_MANIFEST_VERSION)
    && (m.members != [] ==> m.members[0].boundBase == m.baseMain)
  }

  /** Member by member: each stands at its own position, bears an id no earlier one bears, and only an open batch may be
      empty; the first is bound to base main. */
  lemma ManifestExactly(m: Manifest)
    ensures ValidManifest(m) <==>
            && 0 < m.version < 2147483648 && |m.members| < 10001 && (|m.members| == 0 ==> m.status == Open)
            && forall i :: 0 <= i < |m.members| ==>
                 var x := m.members[i];
                 && x.position == i && 0 < x.version < 2147483648 && (i == 0 ==> x.boundBase == m.baseMain)
                 && forall j :: 0 <= j < i ==> m.members[j].taskId != x.taskId
  {
    assert forall i :: 0 <= i < |m.members| ==> TaskIds(m.members)[i] == m.members[i].taskId;
  }

  function Transitions(s: BatchStatus): set<BatchStatus> {
    match s
    case Open => {Integrating, Superseded, RecoveryRequired}
    case Integrating => {ReadyForCertification, Superseded, RecoveryRequired}
    case ReadyForCertification => {Superseded, RecoveryRequired}
    case RecoveryRequired => {Superseded}
    case _ => {}
  }

  /** `transition_batch_status`; the result is validated again. */
  function TransitionBatch(m: Manifest, to: BatchStatus): Option<Manifest> {
    if to in Transitions(m.status) && ValidManifest(m.(status := to)) then Some(m.(status := to)) else None
  }

  /** Batches move forward only: to integration, from there to readiness, from any of the three to recovery, and from all
      four to superseded. */
  lemma MovesForward(s: BatchStatus, to: BatchStatus)
    ensures to in Transitions(s) <==>
            match to
            case Integrating => s == Open
            case ReadyForCertification => s == Integrating
            case RecoveryRequired => s in {Open, Integrating, ReadyForCertification}
            case Superseded => s in {Open, Integrating, ReadyForCertification, RecoveryRequired}
            case _ => false
  {
  }

  /** `require_valid_membership_revision`. */
  predicate ValidRevision(fp: Manifest -> string, prev: Manifest, next: Manifest) {
    && next == prev.(version := next.version, members := next.members)
    && next.members != prev.members
    && next.version == prev.version + 1
    && fp(next) != fp(prev)
  }
}
