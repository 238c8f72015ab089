/** One paid call per grant. A grant key has an ACTIVE and a CONSUMED file; any number of attempts run
    interleaved, each may fail or die anywhere, and the provider is built only after the consume. */
module OneShotSpend {
  import opened Options

  datatype Grant = Grant(grantId: string, body: string)

  datatype GrantFile = Missing | Broken | Holds(g: Grant)

  type Attempt = nat

  /** Where an attempt stands. `Spent` owns the deferred provider, which counts its invocations. */
  datatype Pc = Idle | Proved(g: Grant) | Spent(g: Grant, invoked: nat) | Over

  datatype Note = Consumed(a: Attempt, g: Grant) | FactoryRan(a: Attempt, g: Grant)

  datatype State = State(active: GrantFile, consumed: GrantFile, pcs: map<Attempt, Pc>, notes: seq<Note>)

  const FRESH := State(Missing, Missing, map[], [])

  /** How an operation under the mutation lock ends. */
  datatype Activation = Activated | Undone | LeftBroken
  datatype Consumption = Moved | NotMoved | MovedThenFailed

  datatype Step =
    | Activate(g: Grant, end: Activation)
    | RequireActive(a: Attempt, g: Grant, unexpired: bool)
    | Consume(a: Attempt, how: Consumption)
    | Invoke(a: Attempt)
    | Stop(a: Attempt)            // a gate refuses, something raises, or the process dies

  function At(s: State, a: Attempt): Pc { if a in s.pcs then s.pcs[a] else Idle }

  function Goto(s: State, a: Attempt, pc: Pc): State { s.(pcs := s.pcs[a := pc]) }

  function Apply(s: State, step: Step): Option<State> {
    match step
    case Activate(g, how) =>
      if !s.active.Missing? || !s.consumed.Missing? || how.Undone? then Some(s)
      else Some(s.(active := if how.Activated? then Holds(g) else Broken))
    case RequireActive(a, g, unexpired) =>
      if !At(s, a).Idle? then None
      else Some(Goto(s, a, if s.active == Holds(g) && s.consumed.Missing? && unexpired then Proved(g) else Over))
    case Consume(a, how) =>
      if !At(s, a).Proved? then None
      else
        var g := At(s, a).g;
        if s.active != Holds(g) || !s.consumed.Missing? || how.NotMoved? then Some(Goto(s, a, Over))
        else
          var t := s.(active := Missing, consumed := Holds(g), notes := s.notes + [Consumed(a, g)]);
          Some(Goto(t, a, if how.Moved? then Spent(g, 0) else Over))
    case Invoke(a) =>
      if !At(s, a).Spent? then None
      else
        var pc := At(s, a);
        if pc.invoked != 0 then Some(s)
        else Some(Goto(s, a, Spent(pc.g, 1)).(notes := s.notes + [FactoryRan(a, pc.g)]))
    case Stop(a) => Some(Goto(s, a, Over))
  }

  /** A grant is activated only where none is active and none was ever consumed; a failed activation may leave an unreadable
      file, and nothing else of the state changes. */
  lemma ActivateExactly(s: State, g: Grant, how: Activation)
    ensures Apply(s, Activate(g, how)).Some?
    ensures var t := Apply(s, Activate(g, how)).value;
            && t.consumed == s.consumed && t.pcs == s.pcs && t.notes == s.notes
            && (t.active == Holds(g) <== s.active == Missing && s.consumed == Missing && how == Activated)
            && (t.active != s.active ==> s.active == Missing && s.consumed == Missing && how != Undone && t.active in {Holds(g), Broken})
            && (how == LeftBroken && s.active == Missing && s.consumed == Missing ==> t.active == Broken)
  {
  }

  function Run(s: State, steps: seq<Step>): Option<State>
    decreases steps
  {
    if steps == [] then Some(s)
    else match Apply(s, steps[0])
         case None => None
         case Some(t) => Run(t, steps[1..])
  }

  // ---------------------------------------------------------------------- invariant

  /** Everything that ever happened to the key: nothing, a consume, or a consume and one factory run after it. */
  ghost predicate Once(notes: seq<Note>) {
    || notes == []
    || (|notes| == 1 && notes[0].Consumed?)
    || (|notes| == 2 && notes[0].Consumed? && notes[1] == FactoryRan(notes[0].a, notes[0].g))
  }

  ghost predicate Inv(s: State) {
    && Once(s.notes)
    && (s.notes == [] <==> s.consumed.Missing?) && !s.consumed.Broken?
    && (s.notes != [] ==> s.consumed == Holds(s.notes[0].g) && s.active.Missing?)
    && forall a: Attempt :: At(s, a).Spent? ==>
         && s.notes != [] && s.notes[0] == Consumed(a, At(s, a).g)
         && (At(s, a).invoked == 0 ==> |s.notes| == 1)
  }

  lemma InvStep(s: State, step: Step)
    requires Inv(s) && Apply(s, step).Some?
    ensures Inv(Apply(s, step).value) && s.notes <= Apply(s, step).value.notes
  {
    var t := Apply(s, step).value;
    forall a: Attempt | At(t, a).Spent?
      ensures t.notes != [] && t.notes[0] == Consumed(a, At(t, a).g) && (At(t, a).invoked == 0 ==> |t.notes| == 1)
    {
      if !(step.Consume? && step.a == a) && !(step.Invoke? && step.a == a) {
        assert At(t, a) == At(s, a);
      }
    }
  }

  lemma {:induction false} RunInv(s: State, steps: seq<Step>)
    requires Inv(s) && Run(s, steps).Some?
    ensures Inv(Run(s, steps).value) && s.notes <= Run(s, steps).value.notes
    decreases steps
  {
    if steps != [] {
      InvStep(s, steps[0]);
      RunInv(Apply(s, steps[0]).value, steps[1..]);
    }
  }

  function FactoryRuns(notes: seq<Note>): nat {
    if notes == [] then 0 else FactoryRuns(notes[..|notes| - 1]) + (if notes[|notes| - 1].FactoryRan? then 1 else 0)
  }

  /** One-shot spend: over every interleaving of attempts and failures the provider factory runs at most once in
      total, and only after that very attempt consumed the grant. */
  lemma FactoryRunsOnce(steps: seq<Step>)
    requires Run(FRESH, steps).Some?
    ensures var notes := Run(FRESH, steps).value.notes;
            && FactoryRuns(notes) <= 1
            && forall k :: 0 <= k < |notes| && notes[k].FactoryRan? ==>
                 exists i :: 0 <= i < k && notes[i] == Consumed(notes[k].a, notes[k].g)
  {
    RunInv(FRESH, steps);
    var notes := Run(FRESH, steps).value.notes;
    if |notes| == 2 {
      assert FactoryRuns(notes[..1]) == FactoryRuns(notes[..1][..0]);
      assert notes[0] == Consumed(notes[1].a, notes[1].g);
    }
  }

  /** Once consumed, whatever runs next, the grant is never active again and stays consumed. */
  lemma ConsumedForGood(before: seq<Step>, after: seq<Step>)
    requires Run(FRESH, before).Some? && Run(FRESH, before).value.consumed.Holds?
    requires Run(Run(FRESH, before).value, after).Some?
    ensures var s, t := Run(FRESH, before).value, Run(Run(FRESH, before).value, after).value;
            t.active.Missing? && t.consumed == s.consumed
  {
    RunInv(FRESH, before);
    RunInv(Run(FRESH, before).value, after);
  }

  // ------------------------------------------------------------------ one attempt

  /** `_DeferredSingleCallProvider`: it refuses every invocation but the first. */
  class DeferredProvider {
    var factoryCalls: nat
    var invokeCalls: nat

    constructor ()
      ensures factoryCalls == 0 && invokeCalls == 0
    {
      factoryCalls, invokeCalls := 0, 0;
    }

    method Invoke(factoryOk: bool) returns (ok: bool)
      modifies this
      ensures if old(factoryCalls) == 0 && old(invokeCalls) == 0 then factoryCalls == 1 && invokeCalls == 1 && ok == factoryOk
              else factoryCalls == old(factoryCalls) && invokeCalls == old(invokeCalls) && !ok
    {
      if invokeCalls != 0 || factoryCalls != 0 {
        return false;
      }
      invokeCalls := invokeCalls + 1;
      factoryCalls := factoryCalls + 1;
      ok := factoryOk;
    }
  }

  lemma {:induction false} RunAppend(s: State, steps: seq<Step>, step: Step)
    requires Run(s, steps).Some?
    ensures Run(s, steps + [step]) == Apply(Run(s, steps).value, step)
    decreases steps
  {
    if steps == [] {
      assert [] + [step] == [step];
      assert [step][1..] == [];
    } else {
      assert (steps + [step])[1..] == steps[1..] + [step];
      RunAppend(Apply(s, steps[0]).value, steps[1..], step);
    }
  }

  /** The two files of one grant key, and the run of the step machine that led to them. */
  class GrantStore {
    var active: GrantFile
    var consumed: GrantFile
    ghost var pcs: map<Attempt, Pc>
    ghost var notes: seq<Note>
    ghost var done: seq<Step>

    constructor (g: Grant)
      ensures active == Holds(g) && consumed == Missing && Traces() && pcs == map[] && notes == []
    {
      active, consumed, pcs, notes, done := Holds(g), Missing, map[], [], [Activate(g, Activated)];
      new;
      assert Run(FRESH, done) == Run(Apply(FRESH, done[0]).value, done[1..]);
    }

    ghost function Now(): State
      reads this
    {
      State(active, consumed, pcs, notes)
    }

    /** What has been done so far is a run of the step machine that led here. */
    ghost predicate Traces()
      reads this
    {
      Run(FRESH, done) == Some(Now())
    }

    /** Record one step of attempt `a`; the real fields already hold its effect. */
    ghost method Did(before: State, step: Step, after: Pc, a: Attempt)
      requires Run(FRESH, done) == Some(before) && pcs == before.pcs
      requires Apply(before, step) == Some(Now().(pcs := before.pcs[a := after]))
      modifies this`done, this`pcs
      ensures Traces() && pcs == old(pcs)[a := after]
    {
      RunAppend(FRESH, done, step);
      done, pcs := done + [step], pcs[a := after];
    }

    /** `require_active`. */
    method RequireActive(a: Attempt, g: Grant, unexpired: bool) returns (ok: bool)
      requires Traces() && a !in pcs
      modifies this`done, this`pcs
      ensures Traces() && (ok <==> active == Holds(g) && consumed.Missing? && unexpired)
      ensures pcs == old(pcs)[a := if ok then Proved(g) else Over]
    {
      ok := active == Holds(g) && consumed.Missing? && unexpired;
      Did(Now(), Step.RequireActive(a, g, unexpired), if ok then Proved(g) else Over, a);
    }

    /** `consume`: one atomic move; whatever fails later, the grant stays consumed. */
    method Consume(a: Attempt, g: Grant, how: Consumption) returns (ok: bool)
      requires Traces() && a in pcs && pcs[a] == Proved(g)
      modifies this
      ensures Traces()
      ensures var able := old(active) == Holds(g) && old(consumed).Missing?;
              && (ok <==> able && how.Moved?)
              && pcs == old(pcs)[a := if ok then Spent(g, 0) else Over]
              && if able && !how.NotMoved? then active == Missing && consumed == Holds(g) && notes == old(notes) + [Consumed(a, g)]
                 else active == old(active) && consumed == old(consumed) && notes == old(notes)
    {
      ghost var before := Now();
      ok := active == Holds(g) && consumed.Missing? && !how.NotMoved?;
      if ok {
        active, consumed := Missing, Holds(g);
        notes := notes + [Consumed(a, g)];
        ok := how.Moved?;
      }
      Did(before, Step.Consume(a, how), if ok then Spent(g, 0) else Over, a);
    }

    /** One call of the gateway to the deferred provider. */
    method CallProvider(a: Attempt, g: Grant, p: DeferredProvider, factoryOk: bool) returns (ok: bool)
      requires Traces() && a in pcs && pcs[a] == Spent(g, p.invokeCalls) && p.factoryCalls == p.invokeCalls <= 1
      modifies this`notes, this`done, this`pcs, p
      ensures Traces() && p.factoryCalls == p.invokeCalls == 1 && pcs == old(pcs)[a := Spent(g, 1)]
      ensures notes == if old(p.invokeCalls) == 0 then old(notes) + [FactoryRan(a, g)] else old(notes)
      ensures ok <==> old(p.invokeCalls) == 0 && factoryOk
    {
      ghost var before, first := Now(), p.invokeCalls == 0;
      ok := p.Invoke(factoryOk);
      if first {
        notes := notes + [FactoryRan(a, g)];
      } else {
        assert before.pcs[a := Spent(g, 1)] == before.pcs;
      }
      Did(before, Step.Invoke(a), Spent(g, 1), a);
    }

    /** `execute_paid_api_brain_escape` with the deferred provider: every gate, then the consume, then the gateway,
        which may call the provider as often as it likes. */
    method Escape(a: Attempt, g: Grant, unexpired: bool, gates: bool, selected: bool, how: Consumption, calls: nat, factoryOk: bool,
                  p: DeferredProvider)
      returns (answered: bool)
      requires Traces() && a !in pcs && p.factoryCalls == 0 && p.invokeCalls == 0
      modifies this, p
      ensures Traces() && p.factoryCalls <= 1
      ensures p.factoryCalls == 1 <==> && old(active) == Holds(g) && old(consumed).Missing? && unexpired && gates && selected
                                       && how.Moved? && calls > 0
      ensures p.factoryCalls == 1 ==> active == Missing && consumed == Holds(g) && notes == old(notes) + [Consumed(a, g), FactoryRan(a, g)]
      ensures answered <==> p.factoryCalls == 1 && factoryOk
      ensures active == old(active) || active == Missing
      ensures !old(consumed).Missing? ==> consumed == old(consumed) && active == old(active)
    {
      var ok := RequireActive(a, g, unexpired);
      if !ok {
        return false;
      }
      if !gates || !selected {
        Did(Now(), Stop(a), Over, a);
        return false;
      }
      ok := Consume(a, g, how);
      if !ok {
        return false;
      }
      answered := false;
      for i := 0 to calls
        invariant Traces() && a in pcs && pcs[a] == Spent(g, p.invokeCalls)
        invariant p.factoryCalls == p.invokeCalls == (if i == 0 then 0 else 1)
        invariant notes == old(notes) + if i == 0 then [Consumed(a, g)] else [Consumed(a, g), FactoryRan(a, g)]
        invariant answered <==> i > 0 && factoryOk
        invariant active == Missing && consumed == Holds(g)
      {
        var reply := CallProvider(a, g, p, factoryOk);
        answered := answered || reply;
      }
    }
  }
}
