/** Proof reuse for a FIX round: which earlier proofs still stand, and which tests must run. */
module FixReview {
  import opened Options
  import opened SortedStrings

  datatype ProofStatus = Valid | Invalidated | New

  /** One reviewed proof and the paths it speaks about. */
  datatype Binding = Binding(proofId: string, subjectFp: string, dependencyFp: string, status: ProofStatus,
                             subjects: seq<string>, dependencies: seq<string>, tests: seq<string>)

  datatype Pack = Pack(head: string, known: bool, affected: seq<string>, protected: seq<string>,
                       required: seq<string>, fallback: seq<string>, bindings: seq<Binding>)

  const MAX_FIX_PATHS: nat := 128

  /** What the context parser guarantees. */
  predicate ValidPack(p: Pack) {
    p.fallback != [] && forall i, j :: 0 <= i < j < |p.bindings| ==> p.bindings[i].proofId != p.bindings[j].proofId
  }

  /** The blob of a path at a head, None when it cannot be resolved. */
  type Resolver = string -> Option<string>

  /** The hash of a sorted list of path and blob. */
  type Hash = seq<(string, string)> -> string

  ghost predicate Injective(hash: Hash) { forall a, b :: hash(a) == hash(b) ==> a == b }

  // ------------------------------------------------------------------ fingerprints

  predicate AllResolve(paths: seq<string>, resolve: Resolver) {
    forall i :: 0 <= i < |paths| ==> resolve(paths[i]).Some?
  }

  /** The evidence that is hashed: sorted by path, each with its blob. */
  function Rows(keys: seq<string>, blobs: map<string, string>): (rows: seq<(string, string)>)
    requires forall i :: 0 <= i < |keys| ==> keys[i] in blobs
    ensures |rows| == |keys| && forall i :: 0 <= i < |rows| ==> rows[i] == (keys[i], blobs[keys[i]])
  {
    if keys == [] then [] else [(keys[0], blobs[keys[0]])] + Rows(keys[1..], blobs)
  }

  function Blobs(paths: seq<string>, resolve: Resolver): (m: map<string, string>)
    requires AllResolve(paths, resolve)
    ensures m.Keys == Elements(paths) && forall p :: p in m ==> m[p] == resolve(p).value
  {
    map p | p in Elements(paths) :: resolve(p).value
  }

  function Fingerprint(hash: Hash, paths: seq<string>, resolve: Resolver): Option<string> {
    if AllResolve(paths, resolve) then
      var keys := SortedSet(paths);
      assert forall i :: 0 <= i < |keys| ==> keys[i] in Elements(keys);
      Some(hash(Rows(keys, Blobs(paths, resolve))))
    else None
  }

  /** `_resolve_fingerprint`: a dictionary filled path by path, then sorted and hashed. */
  method ResolveFingerprint(hash: Hash, paths: seq<string>, resolve: Resolver) returns (r: Option<string>)
    ensures r == Fingerprint(hash, paths, resolve)
  {
    var evidence: map<string, string> := map[];
    for i := 0 to |paths|
      invariant forall k :: 0 <= k < i ==> resolve(paths[k]).Some?
      invariant evidence.Keys == Elements(paths[..i])
      invariant forall p :: p in evidence ==> evidence[p] == resolve(p).value
    {
      var blob := resolve(paths[i]);
      if blob.None? {
        return None;
      }
      assert paths[..i + 1] == paths[..i] + [paths[i]];
      evidence := evidence[paths[i] := blob.value];
    }
    assert paths[..|paths|] == paths;
    assert evidence == Blobs(paths, resolve);
    var keys := SortedSet(paths);
    assert forall i :: 0 <= i < |keys| ==> keys[i] in Elements(keys);
    r := Some(hash(Rows(keys, evidence)));
  }

  /** A table of rows determines its paths and their blobs. */
  lemma RowsExact(ks: seq<string>, ls: seq<string>, a: map<string, string>, b: map<string, string>)
    requires (forall i :: 0 <= i < |ks| ==> ks[i] in a) && (forall i :: 0 <= i < |ls| ==> ls[i] in b)
    ensures Rows(ks, a) == Rows(ls, b) <==> ks == ls && forall i :: 0 <= i < |ks| ==> a[ks[i]] == b[ks[i]]
  {
    var ra, rb := Rows(ks, a), Rows(ls, b);
    if ra == rb {
      assert forall i :: 0 <= i < |ks| ==> ks[i] == ra[i].0 && ls[i] == rb[i].0 && ra[i].1 == rb[i].1;
    }
  }

  lemma SortedSame(xs: seq<string>, ys: seq<string>)
    ensures SortedSet(xs) == SortedSet(ys) <==> Elements(xs) == Elements(ys)
  {
    if Elements(xs) == Elements(ys) {
      AscendingUnique(SortedSet(xs), SortedSet(ys));
    }
  }

  lemma SortedAll(xs: seq<string>, P: string -> bool)
    ensures (forall i :: 0 <= i < |SortedSet(xs)| ==> P(SortedSet(xs)[i])) <==> forall p :: p in xs ==> P(p)
  {
    assert forall p :: p in xs <==> p in Elements(SortedSet(xs));
  }

  lemma FingerprintIs(hash: Hash, xs: seq<string>, a: Resolver)
    requires AllResolve(xs, a)
    ensures forall i :: 0 <= i < |SortedSet(xs)| ==> SortedSet(xs)[i] in Blobs(xs, a)
    ensures Fingerprint(hash, xs, a) == Some(hash(Rows(SortedSet(xs), Blobs(xs, a))))
  {
    assert forall i :: 0 <= i < |SortedSet(xs)| ==> SortedSet(xs)[i] in Elements(SortedSet(xs));
  }

  /** A fingerprint is of the set of paths with their blobs: whatever the order and repetitions, two lists under two
      resolvers give one fingerprint exactly when they name the same paths and the resolvers agree on them. */
  lemma FingerprintExact(hash: Hash, xs: seq<string>, ys: seq<string>, a: Resolver, b: Resolver)
    requires Injective(hash) && AllResolve(xs, a) && AllResolve(ys, b)
    ensures Fingerprint(hash, xs, a) == Fingerprint(hash, ys, b) <==> Elements(xs) == Elements(ys) && forall p :: p in xs ==> a(p) == b(p)
  {
    FingerprintIs(hash, xs, a);
    FingerprintIs(hash, ys, b);
    RowsExact(SortedSet(xs), SortedSet(ys), Blobs(xs, a), Blobs(ys, b));
    SortedSame(xs, ys);
    if Elements(xs) == Elements(ys) {
      AgreeSorted(xs, ys, a, b);
    }
  }

  lemma AgreeSorted(xs: seq<string>, ys: seq<string>, a: Resolver, b: Resolver)
    requires AllResolve(xs, a) && AllResolve(ys, b) && Elements(xs) == Elements(ys)
    requires var ks := SortedSet(xs); forall i :: 0 <= i < |ks| ==> ks[i] in Blobs(xs, a) && ks[i] in Blobs(ys, b)
    ensures var ks := SortedSet(xs);
            (forall i :: 0 <= i < |ks| ==> Blobs(xs, a)[ks[i]] == Blobs(ys, b)[ks[i]]) <==> forall p :: p in xs ==> a(p) == b(p)
  {
    SortedAll(xs, p => a(p) == b(p));
    var ks := SortedSet(xs);
    assert forall p :: p in Elements(xs) ==> p in xs && p in ys;
    assert forall i :: 0 <= i < |ks| ==> ks[i] in Elements(ks);
  }

  // --------------------------------------------------------------------- judgement

  datatype Verdict = Mismatch | Unresolved | Carry | Invalidate | Forbidden

  predicate Touches(changed: seq<string>, b: Binding) {
    exists i :: 0 <= i < |changed| && (changed[i] in b.subjects || changed[i] in b.dependencies || changed[i] in b.tests)
  }

  /** `evaluate_proof_carry_forward`. */
  function EvaluateCarryForward(b: Binding, subject: string, dependency: string): Verdict {
    if !b.status.Valid? then Forbidden
    else if b.subjectFp != subject || b.dependencyFp != dependency then Invalidate
    else Carry
  }

  /** The decision on one binding, given its fingerprints before and now; `Mismatch` raises. */
  function Decide(b: Binding, touched: bool, ps: Option<string>, pd: Option<string>, cs: Option<string>, cd: Option<string>): Verdict {
    if (ps.Some? && ps.value != b.subjectFp) || (pd.Some? && pd.value != b.dependencyFp) then Mismatch
    else if ps.None? || pd.None? || cs.None? || cd.None? then Unresolved
    else
      var v := EvaluateCarryForward(b, cs.value, cd.value);
      if v.Carry? && touched then Invalidate else v
  }

  function Judge(hash: Hash, prev: Resolver, cur: Resolver, changed: seq<string>, b: Binding): Verdict {
    Decide(b, Touches(changed, b), Fingerprint(hash, b.subjects, prev), Fingerprint(hash, b.dependencies, prev),
           Fingerprint(hash, b.subjects, cur), Fingerprint(hash, b.dependencies, cur))
  }

  /** Every subject and dependency path of the binding has a blob, before and now. */
  ghost predicate Resolves(b: Binding, prev: Resolver, cur: Resolver) {
    forall p :: p in b.subjects || p in b.dependencies ==> prev(p).Some? && cur(p).Some?
  }

  /** One of them has another blob now than before. */
  ghost predicate Moved(b: Binding, prev: Resolver, cur: Resolver) {
    exists p :: (p in b.subjects || p in b.dependencies) && prev(p) != cur(p)
  }

  /** A changed path is one of the binding's subjects, dependencies or tests. */
  predicate Hit(changed: seq<string>, b: Binding) {
    exists p :: p in changed && (p in b.subjects || p in b.dependencies || p in b.tests)
  }

  /** The verdict on a binding that is not a mismatch: carried when it was VALID, resolves, has not moved and is not hit;
      invalidated when it was VALID, resolves, and has moved or is hit; unresolved when some path does not resolve; and
      forbidden when it resolves and was not VALID. */
  lemma JudgeExactly(hash: Hash, prev: Resolver, cur: Resolver, changed: seq<string>, b: Binding)
    requires Injective(hash) && !Judge(hash, prev, cur, changed, b).Mismatch?
    ensures match Judge(hash, prev, cur, changed, b)
            case Carry => b.status == Valid && Resolves(b, prev, cur) && !Moved(b, prev, cur) && !Hit(changed, b)
            case Invalidate => b.status == Valid && Resolves(b, prev, cur) && (Moved(b, prev, cur) || Hit(changed, b))
            case Forbidden => b.status != Valid && Resolves(b, prev, cur)
            case Unresolved => !Resolves(b, prev, cur)
            case Mismatch => false
  {
    UnresolvedExactly(hash, prev, cur, changed, b);
    TouchesHit(changed, b);
    if Resolves(b, prev, cur) {
      MovedExactly(hash, prev, cur, b);
      DecidesOn(b, Touches(changed, b), Fingerprint(hash, b.subjects, prev), Fingerprint(hash, b.dependencies, prev),
                Fingerprint(hash, b.subjects, cur), Fingerprint(hash, b.dependencies, cur));
    }
  }

  lemma DecidesOn(b: Binding, touched: bool, ps: Option<string>, pd: Option<string>, cs: Option<string>, cd: Option<string>)
    requires ps.Some? && pd.Some? && cs.Some? && cd.Some? && !Decide(b, touched, ps, pd, cs, cd).Mismatch?
    ensures Decide(b, touched, ps, pd, cs, cd) ==
            if b.status != Valid then Forbidden else if ps != cs || pd != cd || touched then Invalidate else Carry
  {
  }

  lemma UnresolvedExactly(hash: Hash, prev: Resolver, cur: Resolver, changed: seq<string>, b: Binding)
    requires !Judge(hash, prev, cur, changed, b).Mismatch?
    ensures Judge(hash, prev, cur, changed, b).Unresolved? <==> !Resolves(b, prev, cur)
  {
    ResolvesAll(b, prev, cur);
  }

  /** A binding has moved exactly when one of its two fingerprints has changed. */
  lemma MovedExactly(hash: Hash, prev: Resolver, cur: Resolver, b: Binding)
    requires Injective(hash) && Resolves(b, prev, cur)
    ensures Fingerprint(hash, b.subjects, prev).Some? && Fingerprint(hash, b.subjects, cur).Some?
    ensures Fingerprint(hash, b.dependencies, prev).Some? && Fingerprint(hash, b.dependencies, cur).Some?
    ensures !Moved(b, prev, cur) <==>
            && Fingerprint(hash, b.subjects, prev) == Fingerprint(hash, b.subjects, cur)
            && Fingerprint(hash, b.dependencies, prev) == Fingerprint(hash, b.dependencies, cur)
  {
    ResolvesAll(b, prev, cur);
    FingerprintExact(hash, b.subjects, b.subjects, prev, cur);
    FingerprintExact(hash, b.dependencies, b.dependencies, prev, cur);
  }

  lemma ResolvesAll(b: Binding, prev: Resolver, cur: Resolver)
    ensures Resolves(b, prev, cur) <==>
            AllResolve(b.subjects, prev) && AllResolve(b.dependencies, prev) && AllResolve(b.subjects, cur) && AllResolve(b.dependencies, cur)
  {
    assert forall i :: 0 <= i < |b.subjects| ==> b.subjects[i] in b.subjects;
    assert forall i :: 0 <= i < |b.dependencies| ==> b.dependencies[i] in b.dependencies;
  }

  lemma TouchesHit(changed: seq<string>, b: Binding)
    ensures Touches(changed, b) <==> Hit(changed, b)
  {
  }

  type Judgement = Binding -> Verdict

  /** The ids of the bindings judged one of `kinds`, in pack order. */
  function Pick(j: Judgement, kinds: set<Verdict>, bs: seq<Binding>): seq<string> {
    if bs == [] then []
    else Pick(j, kinds, bs[..|bs| - 1]) + (if j(bs[|bs| - 1]) in kinds then [bs[|bs| - 1].proofId] else [])
  }

  /** The tests of the bindings that were judged and did not pass. */
  function FailedTests(j: Judgement, bs: seq<Binding>): seq<string> {
    if bs == [] then []
    else FailedTests(j, bs[..|bs| - 1]) + (if j(bs[|bs| - 1]) in {Invalidate, Forbidden} then bs[|bs| - 1].tests else [])
  }

  predicate Surface(bs: seq<Binding>, path: string) {
    exists i :: 0 <= i < |bs| && (path in bs[i].subjects || path in bs[i].dependencies)
  }

  predicate Escapes(p: Pack, changed: seq<string>) {
    exists i :: 0 <= i < |changed| && (changed[i] !in p.affected || (changed[i] in p.protected && !Surface(p.bindings, changed[i])))
  }

  datatype Analysis = Analysis(expanded: bool, changed: seq<string>, carried: seq<string>, invalidated: seq<string>,
                               forbidden: seq<string>, selected: seq<string>, protectedUnchanged: bool)

  predicate SomeUnresolved(j: Judgement, bs: seq<Binding>) { exists i :: 0 <= i < |bs| && j(bs[i]).Unresolved? }

  predicate NoMismatch(j: Judgement, bs: seq<Binding>) { forall i :: 0 <= i < |bs| ==> !j(bs[i]).Mismatch? }

  function Judged(hash: Hash, prev: Resolver, cur: Resolver, changed: seq<string>): Judgement {
    b => Judge(hash, prev, cur, changed, b)
  }

  predicate Expanded(p: Pack, j: Judgement, changed: seq<string>) {
    !p.known || SomeUnresolved(j, p.bindings) || Escapes(p, changed)
  }

  function AnalysisOf(p: Pack, j: Judgement, changed: seq<string>): Analysis {
    var wide := Expanded(p, j, changed);
    Analysis(wide, changed,
             Pick(j, {Carry}, p.bindings), Pick(j, {Invalidate}, p.bindings), Pick(j, {Forbidden, Unresolved}, p.bindings),
             SortedSet((if wide then p.fallback else p.required) + FailedTests(j, p.bindings)),
             forall i :: 0 <= i < |changed| ==> changed[i] !in p.protected)
  }

  /** The whole analysis; None is a raised contract error. */
  function Analyze(hash: Hash, p: Pack, head: string, prev: Resolver, cur: Resolver, changed: seq<string>): Option<Analysis> {
    var actual := SortedSet(changed);
    var j := Judged(hash, prev, cur, actual);
    if head != p.head || |changed| > MAX_FIX_PATHS || |Elements(changed)| != |changed| || !NoMismatch(j, p.bindings) then None
    else Some(AnalysisOf(p, j, actual))
  }

  /** One pass of the loop: four fingerprints and a decision. */
  method JudgeBinding(hash: Hash, prev: Resolver, cur: Resolver, changed: seq<string>, b: Binding) returns (v: Verdict)
    ensures v == Judge(hash, prev, cur, changed, b)
  {
    var ps := ResolveFingerprint(hash, b.subjects, prev);
    var pd := ResolveFingerprint(hash, b.dependencies, prev);
    if ps.Some? && ps.value != b.subjectFp {
      return Mismatch;
    }
    if pd.Some? && pd.value != b.dependencyFp {
      return Mismatch;
    }
    var cs := ResolveFingerprint(hash, b.subjects, cur);
    var cd := ResolveFingerprint(hash, b.dependencies, cur);
    if ps.None? || pd.None? || cs.None? || cd.None? {
      return Unresolved;
    }
    v := EvaluateCarryForward(b, cs.value, cd.value);
    if v.Carry? && Touches(changed, b) {
      v := Invalidate;
    }
  }

  /** What the loop accumulates. */
  datatype Tally = Tally(unknown: bool, carried: seq<string>, invalidated: seq<string>, forbidden: seq<string>, tests: seq<string>)

  function TallyOf(known: bool, j: Judgement, bs: seq<Binding>): Tally {
    Tally(!known || SomeUnresolved(j, bs), Pick(j, {Carry}, bs), Pick(j, {Invalidate}, bs), Pick(j, {Forbidden, Unresolved}, bs),
          FailedTests(j, bs))
  }

  /** How one verdict changes the tally. */
  function Add(t: Tally, b: Binding, v: Verdict): Tally {
    match v
    case Mismatch => t
    case Unresolved => t.(unknown := true, forbidden := t.forbidden + [b.proofId])
    case Carry => t.(carried := t.carried + [b.proofId])
    case Invalidate => t.(invalidated := t.invalidated + [b.proofId], tests := t.tests + b.tests)
    case Forbidden => t.(forbidden := t.forbidden + [b.proofId], tests := t.tests + b.tests)
  }

  lemma Extend(known: bool, j: Judgement, bs: seq<Binding>, b: Binding)
    ensures TallyOf(known, j, bs + [b]) == Add(TallyOf(known, j, bs), b, j(b))
    ensures NoMismatch(j, bs + [b]) <==> NoMismatch(j, bs) && !j(b).Mismatch?
  {
    var longer := bs + [b];
    assert longer[..|bs|] == bs && longer[|bs|] == b;
    assert forall i :: 0 <= i < |bs| ==> longer[i] == bs[i];
  }

  lemma TallyStep(known: bool, j: Judgement, bs: seq<Binding>, i: nat)
    requires i < |bs|
    ensures TallyOf(known, j, bs[..i + 1]) == Add(TallyOf(known, j, bs[..i]), bs[i], j(bs[i]))
    ensures NoMismatch(j, bs[..i + 1]) <==> NoMismatch(j, bs[..i]) && !j(bs[i]).Mismatch?
  {
    assert bs[..i + 1] == bs[..i] + [bs[i]];
    Extend(known, j, bs[..i], bs[i]);
  }

  method JudgeAll(hash: Hash, known: bool, bs: seq<Binding>, prev: Resolver, cur: Resolver, changed: seq<string>) returns (r: Option<Tally>)
    ensures var j := Judged(hash, prev, cur, changed);
            r == if NoMismatch(j, bs) then Some(TallyOf(known, j, bs)) else None
  {
    ghost var j := Judged(hash, prev, cur, changed);
    var t := Tally(!known, [], [], [], []);
    for i := 0 to |bs|
      invariant NoMismatch(j, bs[..i]) && t == TallyOf(known, j, bs[..i])
    {
      var v := JudgeBinding(hash, prev, cur, changed, bs[i]);
      assert j(bs[i]) == v;
      if v.Mismatch? {
        return None;
      }
      TallyStep(known, j, bs, i);
      t := Add(t, bs[i], v);
    }
    assert bs[..|bs|] == bs;
    r := Some(t);
  }

  /** `analyze_fix_impact`. */
  method AnalyzeFixImpact(hash: Hash, p: Pack, head: string, prev: Resolver, cur: Resolver, changed: seq<string>) returns (r: Option<Analysis>)
    ensures r == Analyze(hash, p, head, prev, cur, changed)
  {
    if head != p.head || |changed| > MAX_FIX_PATHS || |Elements(changed)| != |changed| {
      return None;
    }
    var actual := SortedSet(changed);
    var tally := JudgeAll(hash, p.known, p.bindings, prev, cur, actual);
    if tally.None? {
      return None;
    }
    var t := tally.value;
    var unknown := t.unknown || Escapes(p, actual);
    var selected := SortedSet((if unknown then p.fallback else p.required) + t.tests);
    var untouched := forall i :: 0 <= i < |actual| ==> actual[i] !in p.protected;
    r := Some(Analysis(unknown, actual, t.carried, t.invalidated, t.forbidden, selected, untouched));
  }

  // ------------------------------------------------------------------ what it promises

  /** An id is picked exactly when its binding is judged so. */
  lemma {:induction false} PickExact(j: Judgement, kinds: set<Verdict>, bs: seq<Binding>, id: string)
    ensures id in Pick(j, kinds, bs) <==> exists i :: 0 <= i < |bs| && bs[i].proofId == id && j(bs[i]) in kinds
  {
    if bs != [] {
      var n := |bs| - 1;
      PickExact(j, kinds, bs[..n], id);
      assert forall i :: 0 <= i < n ==> bs[..n][i] == bs[i];
    }
  }

  lemma {:induction false} PickedAt(j: Judgement, kinds: set<Verdict>, bs: seq<Binding>, i: nat) returns (x: nat)
    requires i < |bs| && j(bs[i]) in kinds
    ensures x < |Pick(j, kinds, bs)| && Pick(j, kinds, bs)[x] == bs[i].proofId
  {
    var n := |bs| - 1;
    if i == n {
      x := |Pick(j, kinds, bs[..n])|;
    } else {
      x := PickedAt(j, kinds, bs[..n], i);
    }
  }

  /** Ids are listed in the order of the bindings. */
  lemma {:induction false} PickInOrder(j: Judgement, kinds: set<Verdict>, bs: seq<Binding>, i: nat, k: nat) returns (x: nat, y: nat)
    requires i < k < |bs| && j(bs[i]) in kinds && j(bs[k]) in kinds
    ensures x < y < |Pick(j, kinds, bs)| && Pick(j, kinds, bs)[x] == bs[i].proofId && Pick(j, kinds, bs)[y] == bs[k].proofId
  {
    var n := |bs| - 1;
    if k == n {
      x := PickedAt(j, kinds, bs[..n], i);
      y := |Pick(j, kinds, bs[..n])|;
    } else {
      x, y := PickInOrder(j, kinds, bs[..n], i, k);
    }
  }

  lemma {:induction false} FailedTestsAll(j: Judgement, bs: seq<Binding>, i: nat)
    requires i < |bs| && j(bs[i]) in {Invalidate, Forbidden}
    ensures forall t :: t in bs[i].tests ==> t in FailedTests(j, bs)
  {
    if i < |bs| - 1 {
      FailedTestsAll(j, bs[..|bs| - 1], i);
    }
  }

  /** Which list an id is in. It is carried when its proof was VALID, all its paths resolve before and now to the same
      blobs, and no changed path is among them; invalidated when it was VALID and resolves, but a blob has moved or a
      changed path hits it; and forbidden when it was not VALID or some path does not resolve. */
  lemma ListsExactly(hash: Hash, p: Pack, head: string, prev: Resolver, cur: Resolver, changed: seq<string>, id: string)
    requires Injective(hash) && Analyze(hash, p, head, prev, cur, changed).Some?
    ensures var a := Analyze(hash, p, head, prev, cur, changed).value;
            && (id in a.carried <==>
                  exists i :: 0 <= i < |p.bindings| && p.bindings[i].proofId == id && p.bindings[i].status == Valid
                              && Resolves(p.bindings[i], prev, cur) && !Moved(p.bindings[i], prev, cur) && !Hit(changed, p.bindings[i]))
            && (id in a.invalidated <==>
                  exists i :: 0 <= i < |p.bindings| && p.bindings[i].proofId == id && p.bindings[i].status == Valid
                              && Resolves(p.bindings[i], prev, cur) && (Moved(p.bindings[i], prev, cur) || Hit(changed, p.bindings[i])))
            && (id in a.forbidden <==>
                  exists i :: 0 <= i < |p.bindings| && p.bindings[i].proofId == id
                              && (p.bindings[i].status != Valid || !Resolves(p.bindings[i], prev, cur)))
  {
    var actual := SortedSet(changed);
    var j := Judged(hash, prev, cur, actual);
    PickExact(j, {Carry}, p.bindings, id);
    PickExact(j, {Invalidate}, p.bindings, id);
    PickExact(j, {Forbidden, Unresolved}, p.bindings, id);
    forall i | 0 <= i < |p.bindings| ensures JudgedAs(j, prev, cur, changed, p.bindings[i]) {
      JudgeExactly(hash, prev, cur, actual, p.bindings[i]);
      HitSorted(changed, p.bindings[i]);
    }
  }

  ghost predicate JudgedAs(j: Judgement, prev: Resolver, cur: Resolver, changed: seq<string>, b: Binding) {
    && (j(b) == Carry <==> b.status == Valid && Resolves(b, prev, cur) && !Moved(b, prev, cur) && !Hit(changed, b))
    && (j(b) == Invalidate <==> b.status == Valid && Resolves(b, prev, cur) && (Moved(b, prev, cur) || Hit(changed, b)))
    && (j(b) in {Forbidden, Unresolved} <==> b.status != Valid || !Resolves(b, prev, cur))
  }

  /** The analysis is refused exactly for another head, more than 128 changed paths, a repeated one, or a binding whose
      paths all resolve at the reviewed head to another fingerprint than the recorded one. */
  lemma RefusedExactly(hash: Hash, p: Pack, head: string, prev: Resolver, cur: Resolver, changed: seq<string>)
    ensures Analyze(hash, p, head, prev, cur, changed).None? <==>
            || head != p.head || |changed| > 128 || (exists i, k :: 0 <= i < k < |changed| && changed[i] == changed[k])
            || exists i :: 0 <= i < |p.bindings| && Disputed(hash, prev, p.bindings[i])
  {
    NoRepeats(changed);
    var actual := SortedSet(changed);
    MismatchesExactly(hash, prev, cur, actual, p.bindings);
  }

  lemma MismatchesExactly(hash: Hash, prev: Resolver, cur: Resolver, changed: seq<string>, bs: seq<Binding>)
    ensures NoMismatch(Judged(hash, prev, cur, changed), bs) <==> !(exists i :: 0 <= i < |bs| && Disputed(hash, prev, bs[i]))
  {
    var j := Judged(hash, prev, cur, changed);
    forall i | 0 <= i < |bs| ensures j(bs[i]) == Mismatch <==> Disputed(hash, prev, bs[i]) {
      MismatchExactly(hash, prev, cur, changed, bs[i]);
    }
  }

  lemma MismatchExactly(hash: Hash, prev: Resolver, cur: Resolver, changed: seq<string>, b: Binding)
    ensures Judge(hash, prev, cur, changed, b) == Mismatch <==> Disputed(hash, prev, b)
  {
    DisagreesExactly(hash, prev, b.subjects, b.subjectFp);
    DisagreesExactly(hash, prev, b.dependencies, b.dependencyFp);
  }

  lemma DisagreesExactly(hash: Hash, resolve: Resolver, paths: seq<string>, recorded: string)
    ensures Disagrees(hash, resolve, paths, recorded) <==>
            Fingerprint(hash, paths, resolve).Some? && Fingerprint(hash, paths, resolve).value != recorded
  {
    assert AllResolve(paths, resolve) <==> forall x :: x in paths ==> resolve(x).Some?;
  }

  /** The blobs of these paths, sorted by path, do not hash to what was recorded. */
  ghost predicate Disagrees(hash: Hash, resolve: Resolver, paths: seq<string>, recorded: string) {
    (forall x :: x in paths ==> resolve(x).Some?) && Fingerprint(hash, paths, resolve) != Some(recorded)
  }

  ghost predicate Disputed(hash: Hash, prev: Resolver, b: Binding) {
    Disagrees(hash, prev, b.subjects, b.subjectFp) || Disagrees(hash, prev, b.dependencies, b.dependencyFp)
  }

  lemma {:induction false} NoRepeats(xs: seq<string>)
    ensures |Elements(xs)| <= |xs|
    ensures |Elements(xs)| == |xs| <==> !(exists i, k :: 0 <= i < k < |xs| && xs[i] == xs[k])
  {
    if xs != [] {
      var n := |xs| - 1;
      var init, x := xs[..n], xs[n];
      NoRepeats(init);
      assert Elements(xs) == Elements(init) + {x};
      assert forall i :: 0 <= i < n ==> init[i] == xs[i];
      if x in init {
        var i :| 0 <= i < n && init[i] == x;
        assert xs[i] == xs[n] && Elements(init) + {x} == Elements(init);
      } else if |Elements(init)| != n {
        var i, k :| 0 <= i < k < n && init[i] == init[k];
        assert xs[i] == xs[k];
      }
    }
  }

  /** The scope expands exactly when impact was declared unknown, a binding has a path that does not resolve, or a changed
      path was not declared affected, or is protected and no subject or dependency of any binding. The changed paths come
      back sorted, and the protected ones are unchanged exactly when none of them is among those. */
  lemma ScopeExactly(hash: Hash, p: Pack, head: string, prev: Resolver, cur: Resolver, changed: seq<string>)
    requires Analyze(hash, p, head, prev, cur, changed).Some?
    ensures var a := Analyze(hash, p, head, prev, cur, changed).value;
            && (a.expanded <==>
                  || !p.known || (exists i :: 0 <= i < |p.bindings| && !Resolves(p.bindings[i], prev, cur))
                  || exists x :: x in changed
                                 && (x !in p.affected
                                     || (x in p.protected
                                         && !(exists i :: 0 <= i < |p.bindings| && (x in p.bindings[i].subjects || x in p.bindings[i].dependencies)))))
            && Ascending(a.selected) && Ascending(a.changed) && (forall x :: x in a.changed <==> x in changed)
            && (a.protectedUnchanged <==> forall x :: x in changed ==> x !in p.protected)
  {
    var actual := SortedSet(changed);
    assert forall x :: x in actual <==> x in Elements(actual);
    assert forall x :: x in changed <==> x in Elements(changed);
    UnresolvedAny(hash, prev, cur, actual, p.bindings);
    EscapesExactly(p, actual);
  }

  lemma UnresolvedAny(hash: Hash, prev: Resolver, cur: Resolver, changed: seq<string>, bs: seq<Binding>)
    requires NoMismatch(Judged(hash, prev, cur, changed), bs)
    ensures SomeUnresolved(Judged(hash, prev, cur, changed), bs) <==> exists i :: 0 <= i < |bs| && !Resolves(bs[i], prev, cur)
  {
    var j := Judged(hash, prev, cur, changed);
    forall i | 0 <= i < |bs| ensures j(bs[i]) == Unresolved <==> !Resolves(bs[i], prev, cur) {
      UnresolvedExactly(hash, prev, cur, changed, bs[i]);
    }
  }

  lemma EscapesExactly(p: Pack, changed: seq<string>)
    ensures Escapes(p, changed) <==>
            exists x :: x in changed
                        && (x !in p.affected
                            || (x in p.protected
                                && !(exists i :: 0 <= i < |p.bindings| && (x in p.bindings[i].subjects || x in p.bindings[i].dependencies))))
  {
  }

  lemma SameElements(a: seq<string>, b: seq<string>, x: string)
    requires Elements(a) <= Elements(b) && x in a
    ensures x in b
  {
    assert x in Elements(a);
  }

  lemma TouchesMonotone(a: seq<string>, b: seq<string>, x: Binding)
    requires Elements(a) <= Elements(b) && Touches(a, x)
    ensures Touches(b, x)
  {
    var i :| 0 <= i < |a| && (a[i] in x.subjects || a[i] in x.dependencies || a[i] in x.tests);
    SameElements(a, b, a[i]);
    var k :| 0 <= k < |b| && b[k] == a[i];
  }

  lemma HitSorted(changed: seq<string>, b: Binding)
    ensures Hit(SortedSet(changed), b) <==> Hit(changed, b)
  {
    assert forall x :: x in changed <==> x in Elements(changed);
    assert forall x :: x in SortedSet(changed) <==> x in Elements(SortedSet(changed));
  }

  lemma EscapesMonotone(p: Pack, a: seq<string>, b: seq<string>)
    requires Elements(a) <= Elements(b) && Escapes(p, a)
    ensures Escapes(p, b)
  {
    var i :| 0 <= i < |a| && (a[i] !in p.affected || (a[i] in p.protected && !Surface(p.bindings, a[i])));
    SameElements(a, b, a[i]);
    var k :| 0 <= k < |b| && b[k] == a[i];
  }

  /** Enlarging the changed set never adds a carried proof and never turns scope expansion off. */
  lemma LargerChangeIsSafer(hash: Hash, p: Pack, head: string, prev: Resolver, cur: Resolver, few: seq<string>, many: seq<string>, id: string)
    requires Elements(few) <= Elements(many)
    requires Analyze(hash, p, head, prev, cur, few).Some? && Analyze(hash, p, head, prev, cur, many).Some?
    ensures var a, b := Analyze(hash, p, head, prev, cur, few).value, Analyze(hash, p, head, prev, cur, many).value;
            && (id in b.carried ==> id in a.carried) && (a.expanded ==> b.expanded)
            && (b.protectedUnchanged ==> a.protectedUnchanged)
  {
    var few', many' := SortedSet(few), SortedSet(many);
    var j, k := Judged(hash, prev, cur, few'), Judged(hash, prev, cur, many');
    JudgedSafer(hash, prev, cur, few', many', p.bindings);
    CarriedSafer(j, k, p.bindings, id);
    ExpandedSafer(p, j, k, few', many');
    forall i | 0 <= i < |few'| && forall n :: 0 <= n < |many'| ==> many'[n] !in p.protected ensures few'[i] !in p.protected {
      SameElements(few', many', few'[i]);
    }
  }

  /** Each verdict is at least as strict, and just as much is resolved. */
  ghost predicate Safer(j: Judgement, k: Judgement, bs: seq<Binding>) {
    forall i :: 0 <= i < |bs| ==> (k(bs[i]).Carry? ==> j(bs[i]).Carry?) && (j(bs[i]).Unresolved? <==> k(bs[i]).Unresolved?)
  }

  lemma JudgedSafer(hash: Hash, prev: Resolver, cur: Resolver, few: seq<string>, many: seq<string>, bs: seq<Binding>)
    requires Elements(few) <= Elements(many)
    ensures Safer(Judged(hash, prev, cur, few), Judged(hash, prev, cur, many), bs)
  {
    forall i | 0 <= i < |bs| && Touches(few, bs[i]) ensures Touches(many, bs[i]) {
      TouchesMonotone(few, many, bs[i]);
    }
  }

  lemma CarriedSafer(j: Judgement, k: Judgement, bs: seq<Binding>, id: string)
    requires Safer(j, k, bs)
    ensures id in Pick(k, {Carry}, bs) ==> id in Pick(j, {Carry}, bs)
  {
    PickExact(j, {Carry}, bs, id);
    PickExact(k, {Carry}, bs, id);
  }

  lemma ExpandedSafer(p: Pack, j: Judgement, k: Judgement, few: seq<string>, many: seq<string>)
    requires Safer(j, k, p.bindings) && Elements(few) <= Elements(many)
    ensures Expanded(p, j, few) ==> Expanded(p, k, many)
  {
    if Escapes(p, few) {
      EscapesMonotone(p, few, many);
    }
  }

  lemma {:induction false} PickSizes(j: Judgement, bs: seq<Binding>)
    requires NoMismatch(j, bs)
    ensures |Pick(j, {Carry}, bs)| + |Pick(j, {Invalidate}, bs)| + |Pick(j, {Forbidden, Unresolved}, bs)| == |bs|
  {
    if bs != [] {
      PickSizes(j, bs[..|bs| - 1]);
    }
  }

  predicate ExactlyOne(a: bool, b: bool, c: bool) { (a || b || c) && !(a && b) && !(a && c) && !(b && c) }

  /** The three lists partition all bound proofs: every proof is in exactly one of them, nothing else is in any,
      and together they are as long as the binding list. */
  lemma ListsPartition(hash: Hash, p: Pack, head: string, prev: Resolver, cur: Resolver, changed: seq<string>)
    requires ValidPack(p) && Analyze(hash, p, head, prev, cur, changed).Some?
    ensures var a := Analyze(hash, p, head, prev, cur, changed).value;
            && |a.carried| + |a.invalidated| + |a.forbidden| == |p.bindings|
            && (forall i :: 0 <= i < |p.bindings| ==>
                  var id := p.bindings[i].proofId; ExactlyOne(id in a.carried, id in a.invalidated, id in a.forbidden))
            && (forall id :: id in a.carried || id in a.invalidated || id in a.forbidden ==>
                  exists i :: 0 <= i < |p.bindings| && p.bindings[i].proofId == id)
  {
    var j := Judged(hash, prev, cur, SortedSet(changed));
    PickSizes(j, p.bindings);
    var c, v, f := Pick(j, {Carry}, p.bindings), Pick(j, {Invalidate}, p.bindings), Pick(j, {Forbidden, Unresolved}, p.bindings);
    forall i | 0 <= i < |p.bindings|
      ensures var id := p.bindings[i].proofId; ExactlyOne(id in c, id in v, id in f)
    {
      InOneList(p, j, i);
    }
    forall id | id in c || id in v || id in f ensures exists i :: 0 <= i < |p.bindings| && p.bindings[i].proofId == id {
      PickExact(j, {Carry}, p.bindings, id);
      PickExact(j, {Invalidate}, p.bindings, id);
      PickExact(j, {Forbidden, Unresolved}, p.bindings, id);
    }
  }

  lemma InOneList(p: Pack, j: Judgement, i: nat)
    requires ValidPack(p) && i < |p.bindings| && NoMismatch(j, p.bindings)
    ensures var id := p.bindings[i].proofId;
            ExactlyOne(id in Pick(j, {Carry}, p.bindings), id in Pick(j, {Invalidate}, p.bindings), id in Pick(j, {Forbidden, Unresolved}, p.bindings))
  {
    var id := p.bindings[i].proofId;
    PickExact(j, {Carry}, p.bindings, id);
    PickExact(j, {Invalidate}, p.bindings, id);
    PickExact(j, {Forbidden, Unresolved}, p.bindings, id);
    PicksDisjoint(p, j, {Carry}, {Invalidate}, id);
    PicksDisjoint(p, j, {Carry}, {Forbidden, Unresolved}, id);
    PicksDisjoint(p, j, {Invalidate}, {Forbidden, Unresolved}, id);
  }

  lemma PicksDisjoint(p: Pack, j: Judgement, a: set<Verdict>, b: set<Verdict>, id: string)
    requires ValidPack(p) && a !! b
    ensures !(id in Pick(j, a, p.bindings) && id in Pick(j, b, p.bindings))
  {
    PickExact(j, a, p.bindings, id);
    PickExact(j, b, p.bindings, id);
  }

  lemma {:induction false} FailedTestsExact(j: Judgement, bs: seq<Binding>, t: string)
    ensures t in FailedTests(j, bs) <==> exists i :: 0 <= i < |bs| && j(bs[i]) in {Invalidate, Forbidden} && t in bs[i].tests
  {
    if bs != [] {
      var n := |bs| - 1;
      FailedTestsExact(j, bs[..n], t);
      assert forall i :: 0 <= i < n ==> bs[..n][i] == bs[i];
    }
  }

  /** A test is selected exactly when it is in the base list (fallback if the scope expanded, required otherwise)
      or belongs to a proof that was judged and did not pass. */
  lemma SelectedExact(hash: Hash, p: Pack, head: string, prev: Resolver, cur: Resolver, changed: seq<string>, t: string)
    requires Analyze(hash, p, head, prev, cur, changed).Some?
    ensures var a := Analyze(hash, p, head, prev, cur, changed).value;
            t in a.selected <==>
              || t in (if a.expanded then p.fallback else p.required)
              || exists i :: && 0 <= i < |p.bindings| && t in p.bindings[i].tests
                             && Judge(hash, prev, cur, SortedSet(changed), p.bindings[i]) in {Invalidate, Forbidden}
  {
    var j := Judged(hash, prev, cur, SortedSet(changed));
    var a := Analyze(hash, p, head, prev, cur, changed).value;
    var all := (if a.expanded then p.fallback else p.required) + FailedTests(j, p.bindings);
    FailedTestsExact(j, p.bindings, t);
    assert t in a.selected <==> t in Elements(a.selected);
    assert t in all <==> t in Elements(all);
    forall i | 0 <= i < |p.bindings| ensures j(p.bindings[i]) == Judge(hash, prev, cur, SortedSet(changed), p.bindings[i]) {
    }
  }

  /** Coverage: a proof that is not carried has all its tests selected, or the whole fallback list is. */
  lemma TestsCovered(hash: Hash, p: Pack, head: string, prev: Resolver, cur: Resolver, changed: seq<string>, i: nat)
    requires Analyze(hash, p, head, prev, cur, changed).Some? && i < |p.bindings|
    requires !Judge(hash, prev, cur, SortedSet(changed), p.bindings[i]).Carry?
    ensures var a := Analyze(hash, p, head, prev, cur, changed).value;
            || (forall t :: t in p.bindings[i].tests ==> t in a.selected)
            || (a.expanded && forall t :: t in p.fallback ==> t in a.selected)
  {
    var j := Judged(hash, prev, cur, SortedSet(changed));
    var a := Analyze(hash, p, head, prev, cur, changed).value;
    var all := (if a.expanded then p.fallback else p.required) + FailedTests(j, p.bindings);
    if j(p.bindings[i]).Unresolved? {
      forall t | t in p.fallback ensures t in a.selected {
        SameElements(all, a.selected, t);
      }
    } else {
      FailedTestsAll(j, p.bindings, i);
      forall t | t in p.bindings[i].tests ensures t in a.selected {
        SameElements(all, a.selected, t);
      }
    }
  }

  lemma TouchedIsNotCarried(hash: Hash, prev: Resolver, cur: Resolver, changed: seq<string>, b: Binding, n: nat)
    requires n < |changed| && (changed[n] in b.subjects || changed[n] in b.dependencies)
    ensures !Judge(hash, prev, cur, changed, b).Carry?
  {
    assert Touches(changed, b);
  }

  lemma AllResolved(p: Pack, j: Judgement, changed: seq<string>, i: nat)
    requires i < |p.bindings| && !Expanded(p, j, changed)
    ensures !j(p.bindings[i]).Unresolved?
  {
  }

  /** When confidence is KNOWN, every changed path was declared affected, and every changed protected path has a
      covering proof that is not carried and whose tests are all selected. */
  lemma KnownIsCovered(hash: Hash, p: Pack, head: string, prev: Resolver, cur: Resolver, changed: seq<string>, path: string)
    requires Analyze(hash, p, head, prev, cur, changed).Some? && !Analyze(hash, p, head, prev, cur, changed).value.expanded
    requires path in changed
    ensures path in p.affected
    ensures var a := Analyze(hash, p, head, prev, cur, changed).value;
            path in p.protected ==>
              exists i :: && 0 <= i < |p.bindings| && (path in p.bindings[i].subjects || path in p.bindings[i].dependencies)
                          && !Judge(hash, prev, cur, SortedSet(changed), p.bindings[i]).Carry?
                          && forall t :: t in p.bindings[i].tests ==> t in a.selected
  {
    var actual := SortedSet(changed);
    SameElements(changed, actual, path);
    var n :| 0 <= n < |actual| && actual[n] == path;
    assert !Escapes(p, actual);
    if path in p.protected {
      assert Surface(p.bindings, path);
      var i :| 0 <= i < |p.bindings| && (path in p.bindings[i].subjects || path in p.bindings[i].dependencies);
      TouchedIsNotCarried(hash, prev, cur, actual, p.bindings[i], n);
      TestsCovered(hash, p, head, prev, cur, changed, i);
      AllResolved(p, Judged(hash, prev, cur, actual), actual, i);
    }
  }
}
