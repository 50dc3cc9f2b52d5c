/** The paired experiment's backend, its calls, and one trial of it (eval/bootstrap_ab.py). */
module Experiment {
  import opened Base
  import opened Trials

  // ---- handles and envelopes -----------------------------------------------

  datatype Handle = Handle(
    arm: Arm, agentId: string, contextId: string, fingerprint: string, journal: string, influence: bool)

  datatype ArmPair = ArmPair(control: Handle, treatment: Handle) {
    function For(arm: Arm): Handle {
      if arm.Control? then control else treatment
    }
  }

  datatype Manifest = Manifest(
    fingerprint: string, generations: nat, repetitions: nat, explorationFloor: real, candidatePoolK: nat,
    primary: Option<nat>, host: bool, thresholds: Thresholds)

  predicate ValidManifest(m: Manifest) {
    m.generations >= 2 && m.repetitions >= 1 && (m.primary.Some? ==> m.primary.value < m.generations) && Registered(m.thresholds)
  }

  predicate ValidPair(pair: ArmPair, m: Manifest) {
    && pair.control.arm.Control? && pair.treatment.arm.Treatment?
    && !pair.control.influence && pair.treatment.influence
    && pair.control.fingerprint == m.fingerprint == pair.treatment.fingerprint
    && pair.control.contextId != pair.treatment.contextId
    && pair.control.agentId != pair.treatment.agentId
    && pair.control.journal != pair.treatment.journal
  }

  /** `common` is every other key of the ranking stamp. */
  datatype Ranking = Ranking(reinforce: Option<bool>, common: string)

  /** The selection stamp of a recall; `other` is every key not listed. A number missing or of another type is None. */
  datatype Policy = Policy(
    evaluationSeed: Option<int>, floor: Option<real>, pool: Option<nat>, ranking: Option<Ranking>, other: string)

  datatype Envelope = Envelope(
    agentId: string, contextId: string, recallOk: bool, policy: Option<Policy>,
    declared: Option<map<string, real>>, selected: seq<string>, degraded: bool, failures: seq<string>,
    nonRanking: string)

  function Abs(x: real): real {
    if x < 0.0 then -x else x
  }

  function MaxReal(a: real, b: real): real {
    if a >= b then a else b
  }

  /** `math.isclose` with the default relative tolerance and an absolute one of 1e-12. */
  predicate IsClose(a: real, b: real) {
    Abs(a - b) <= MaxReal(0.000000001 * MaxReal(Abs(a), Abs(b)), 0.000000000001)
  }

  /** What two accepted stamps must have in common: everything but `reinforce_enabled`. */
  type Contract = (Option<int>, Option<real>, Option<nat>, string, string)

  /** Ok(None) is a failed recall that claims nothing. */
  function Validated(e: Envelope, h: Handle, m: Manifest, seed: int): Result<Option<Contract>, ()> {
    if !e.recallOk then (if e.policy.Some? || e.declared.Some? then Err(()) else Ok(None))
    else if e.policy.None? then Err(())
    else
      var p := e.policy.value;
      if p.evaluationSeed != Some(seed) then Err(())
      else if p.floor.None? || !IsClose(p.floor.value, m.explorationFloor) then Err(())
      else if p.pool != Some(m.candidatePoolK) then Err(())
      else if p.ranking.None? then Err(())
      else if p.ranking.value.reinforce != Some(h.influence) then Err(())
      else Ok(Some((p.evaluationSeed, p.floor, p.pool, p.other, p.ranking.value.common)))
  }

  predicate Isolated(e: Envelope, h: Handle) {
    e.agentId == h.agentId && e.contextId == h.contextId
  }

  /** The two arms of a trial differ in the one allowed way. */
  predicate Comparable(pair: ArmPair, m: Manifest, seed: int, c: Envelope, t: Envelope) {
    var vc, vt := Validated(c, pair.control, m, seed), Validated(t, pair.treatment, m, seed);
    && Isolated(c, pair.control) && Isolated(t, pair.treatment)
    && vc.Ok? && vt.Ok?
    && (vc.value.Some? && vt.value.Some? ==> vc.value == vt.value)
    && c.nonRanking == t.nonRanking
  }

  // ---- calls ---------------------------------------------------------------

  /** The actor is handed an envelope; a feedback write carries its trial in its verdict reference. */
  datatype Call =
    | Prepare
    | Boot(arm: Arm, task: string, generation: nat, repetition: nat, seed: int)
    | Act(arm: Arm, task: string, generation: nat, repetition: nat, seed: int, envelope: Envelope)
    | Write(arm: Arm, task: string, generation: nat, repetition: nat, memory: string, helpful: bool)
    | Close

  /** What each call answers, given every call before it; None is an exception. */
  datatype World = World(
    prepare: Option<ArmPair>,
    boot: (seq<Call>, Call) -> Option<Envelope>,
    act: (seq<Call>, Call) -> Option<real>,
    write: (seq<Call>, Call) -> bool,
    close: seq<Call> -> bool)

  function InUnit(score: Option<real>): Option<real> {
    if score.Some? && Unit(score.value) then score else None
  }

  class Backend {
    const world: World
    var calls: seq<Call>

    constructor (world: World)
      ensures this.world == world && calls == []
    {
      this.world, calls := world, [];
    }

    method PrepareArms() returns (r: Option<ArmPair>)
      modifies this
      ensures calls == old(calls) + [Prepare] && r == world.prepare
    {
      r, calls := world.prepare, calls + [Prepare];
    }

    method Bootstrap(arm: Arm, task: string, g: nat, rep: nat, seed: int) returns (r: Option<Envelope>)
      modifies this
      ensures calls == old(calls) + [Boot(arm, task, g, rep, seed)]
      ensures r == world.boot(old(calls), Boot(arm, task, g, rep, seed))
    {
      r := world.boot(calls, Boot(arm, task, g, rep, seed));
      calls := calls + [Boot(arm, task, g, rep, seed)];
    }

    /** The actor's score; an observation outside [0, 1] cannot be constructed. */
    method RunActor(arm: Arm, task: string, g: nat, rep: nat, seed: int, e: Envelope) returns (r: Option<real>)
      modifies this
      ensures calls == old(calls) + [Act(arm, task, g, rep, seed, e)]
      ensures r == InUnit(world.act(old(calls), Act(arm, task, g, rep, seed, e)))
    {
      r := world.act(calls, Act(arm, task, g, rep, seed, e));
      calls := calls + [Act(arm, task, g, rep, seed, e)];
      if r.Some? && !Unit(r.value) {
        r := None;
      }
    }

    method RecordFeedback(arm: Arm, task: string, g: nat, rep: nat, memory: string, helpful: bool) returns (ok: bool)
      modifies this
      ensures calls == old(calls) + [Write(arm, task, g, rep, memory, helpful)]
    {
      ok := world.write(calls, Write(arm, task, g, rep, memory, helpful));
      calls := calls + [Write(arm, task, g, rep, memory, helpful)];
    }

    method CloseArms() returns (ok: bool)
      modifies this
      ensures calls == old(calls) + [Close] && ok == world.close(old(calls))
    {
      ok, calls := world.close(calls), calls + [Close];
    }
  }

  // ---- one trial -----------------------------------------------------------

  datatype Failure = BackendRaised | ActorRaised | InvariantBroken

  datatype Slot = Slot(arm: Arm, task: string, generation: nat, repetition: nat)

  function SlotOf(r: TrialRecord): Slot {
    Slot(r.arm, r.taskId, r.generation, r.repetition)
  }

  function RecordOf(s: Slot, seed: int, e: Envelope, score: real): TrialRecord {
    TrialRecord(s.task, s.arm, s.generation, s.repetition, seed, score, e.degraded, e.failures, e.selected, e.declared, 0)
  }

  /** What one arm of a trial asked of the backend, and of the actor with the answer. */
  function BootOf(s: Slot, seed: int): Call {
    Boot(s.arm, s.task, s.generation, s.repetition, seed)
  }

  function ActOf(s: Slot, seed: int, e: Envelope): Call {
    Act(s.arm, s.task, s.generation, s.repetition, seed, e)
  }

  /** The calls of one complete trial: both bootstraps, then both actors in the drawn order, each with its own envelope. */
  function TrialCalls(c: Slot, t: Slot, seed: int, ec: Envelope, et: Envelope, treatmentFirst: bool): seq<Call> {
    [BootOf(c, seed), BootOf(t, seed)]
    + if treatmentFirst then [ActOf(t, seed, et), ActOf(c, seed, ec)] else [ActOf(c, seed, ec), ActOf(t, seed, et)]
  }

  /** Two records that come from one comparable pair of bootstraps and the two runs of the actor on them. */
  ghost predicate FromOneTrial(w: World, calls: seq<Call>, pair: ArmPair, m: Manifest, c: TrialRecord, t: TrialRecord) {
    exists i: nat, treatmentFirst: bool :: i + 4 <= |calls| && TrialAt(w, calls, pair, m, c, t, i, treatmentFirst)
  }

  /** The trial's four calls start at `i`: each record holds what the backend and the actor answered for its own arm. */
  ghost predicate TrialAt(w: World, calls: seq<Call>, pair: ArmPair, m: Manifest, c: TrialRecord, t: TrialRecord,
                          i: nat, treatmentFirst: bool)
    requires i + 4 <= |calls|
  {
    var ec, et := w.boot(calls[..i], calls[i]), w.boot(calls[..i + 1], calls[i + 1]);
    var kc, kt := if treatmentFirst then i + 3 else i + 2, if treatmentFirst then i + 2 else i + 3;
    && ec.Some? && et.Some? && Comparable(pair, m, c.seed, ec.value, et.value)
    && calls[i..i + 4] == TrialCalls(SlotOf(c), SlotOf(t), c.seed, ec.value, et.value, treatmentFirst)
    && SlotOf(c).arm == Control && SlotOf(t) == SlotOf(c).(arm := Treatment) && t.seed == c.seed
    && w.act(calls[..kc], calls[kc]) == Some(c.score) && w.act(calls[..kt], calls[kt]) == Some(t.score)
    && c.(feedbackWrites := 0) == RecordOf(SlotOf(c), c.seed, ec.value, c.score)
    && t.(feedbackWrites := 0) == RecordOf(SlotOf(t), c.seed, et.value, t.score)
  }

  /** It stays true when more calls follow, and does not depend on the write counts. */
  lemma FromOneTrialKept(w: World, calls: seq<Call>, more: seq<Call>, pair: ArmPair, m: Manifest,
                         c: TrialRecord, t: TrialRecord, c': TrialRecord, t': TrialRecord)
    requires FromOneTrial(w, calls, pair, m, c, t)
    requires c'.(feedbackWrites := 0) == c.(feedbackWrites := 0) && t'.(feedbackWrites := 0) == t.(feedbackWrites := 0)
    ensures FromOneTrial(w, calls + more, pair, m, c', t')
  {
    var i: nat, first: bool :| i + 4 <= |calls| && TrialAt(w, calls, pair, m, c, t, i, first);
    var all := calls + more;
    assert all[..i] == calls[..i] && all[..i + 1] == calls[..i + 1] && all[..i + 2] == calls[..i + 2];
    assert all[..i + 3] == calls[..i + 3] && all[i..i + 4] == calls[i..i + 4];
    SameRecord(c, c');
    SameRecord(t, t');
    hide Comparable, TrialCalls, RecordOf;
    assert TrialAt(w, all, pair, m, c', t', i, first);
  }

  lemma SameRecord(r: TrialRecord, r': TrialRecord)
    requires r'.(feedbackWrites := 0) == r.(feedbackWrites := 0)
    ensures SlotOf(r') == SlotOf(r) && r'.seed == r.seed && r'.score == r.score
  {
    assert SlotOf(r.(feedbackWrites := 0)) == SlotOf(r) && r.(feedbackWrites := 0).seed == r.seed;
    assert r.(feedbackWrites := 0).score == r.score && r'.(feedbackWrites := 0).score == r'.score;
    assert SlotOf(r'.(feedbackWrites := 0)) == SlotOf(r') && r'.(feedbackWrites := 0).seed == r'.seed;
  }

  /** Scoring calls of one generation: bootstraps and actors, no write. */
  ghost predicate Scoring(calls: seq<Call>, g: nat) {
    forall i :: 0 <= i < |calls| ==> (calls[i].Boot? || calls[i].Act?) && calls[i].generation == g
  }

  /** A trial that ended: its calls come last, its records are fresh and hold the answers of those calls. */
  ghost predicate Scored(w: World, calls: seq<Call>, pair: ArmPair, m: Manifest, s: Slot, seed: int, c: TrialRecord, t: TrialRecord) {
    && SlotOf(c) == s && SlotOf(t) == s.(arm := Treatment) && c.seed == seed == t.seed
    && Unit(c.score) && Unit(t.score) && c.feedbackWrites == 0 == t.feedbackWrites
    && FromOneTrial(w, calls, pair, m, c, t)
  }

  method RunTrial(backend: Backend, pair: ArmPair, m: Manifest, task: TaskSpec, g: nat, rep: nat, seed: int, treatmentFirst: bool)
    returns (r: Result<(TrialRecord, TrialRecord), Failure>)
    modifies backend
    ensures old(backend.calls) <= backend.calls && Scoring(backend.calls[|old(backend.calls)|..], g)
    ensures r.Ok? ==>
      Scored(backend.world, backend.calls, pair, m, Slot(Control, task.id, g, rep), seed, r.value.0, r.value.1)
  {
    hide Comparable, Validated, Isolated, FromOneTrial;
    ghost var s0 := backend.calls;
    var ec := backend.Bootstrap(Control, task.id, g, rep, seed);
    ghost var s1 := backend.calls;
    if ec.None? { return Err(BackendRaised); }
    if !Isolated(ec.value, pair.control) { return Err(InvariantBroken); }
    var et := backend.Bootstrap(Treatment, task.id, g, rep, seed);
    ghost var s2 := backend.calls;
    if et.None? { return Err(BackendRaised); }
    if !Comparable(pair, m, seed, ec.value, et.value) { return Err(InvariantBroken); }
    var sc, st;
    ghost var s3;
    if treatmentFirst {
      st := backend.RunActor(Treatment, task.id, g, rep, seed, et.value);
      s3 := backend.calls;
      if st.None? { return Err(ActorRaised); }
      sc := backend.RunActor(Control, task.id, g, rep, seed, ec.value);
    } else {
      sc := backend.RunActor(Control, task.id, g, rep, seed, ec.value);
      s3 := backend.calls;
      if sc.None? { return Err(ActorRaised); }
      st := backend.RunActor(Treatment, task.id, g, rep, seed, et.value);
    }
    if sc.None? || st.None? { return Err(ActorRaised); }
    var c := RecordOf(Slot(Control, task.id, g, rep), seed, ec.value, sc.value);
    var t := RecordOf(Slot(Treatment, task.id, g, rep), seed, et.value, st.value);
    TrialEnds(backend.world, s0, s1, s2, s3, backend.calls, pair, m, c, t, ec.value, et.value, treatmentFirst);
    r := Ok((c, t));
  }

  /** The calls before and after each of the trial's four steps. */
  lemma TrialEnds(w: World, s0: seq<Call>, s1: seq<Call>, s2: seq<Call>, s3: seq<Call>, calls: seq<Call>, pair: ArmPair, m: Manifest,
                  c: TrialRecord, t: TrialRecord, ec: Envelope, et: Envelope, treatmentFirst: bool)
    requires Comparable(pair, m, c.seed, ec, et) && t.seed == c.seed
    requires SlotOf(c).arm == Control && SlotOf(t) == SlotOf(c).(arm := Treatment)
    requires c == RecordOf(SlotOf(c), c.seed, ec, c.score) && t == RecordOf(SlotOf(t), c.seed, et, t.score)
    requires var own := TrialCalls(SlotOf(c), SlotOf(t), c.seed, ec, et, treatmentFirst);
      && s1 == s0 + [own[0]] && s2 == s1 + [own[1]] && s3 == s2 + [own[2]] && calls == s3 + [own[3]]
      && w.boot(s0, own[0]) == Some(ec) && w.boot(s1, own[1]) == Some(et)
      && w.act(if treatmentFirst then s3 else s2, if treatmentFirst then own[3] else own[2]) == Some(c.score)
      && w.act(if treatmentFirst then s2 else s3, if treatmentFirst then own[2] else own[3]) == Some(t.score)
    ensures FromOneTrial(w, calls, pair, m, c, t)
  {
    var own, i := TrialCalls(SlotOf(c), SlotOf(t), c.seed, ec, et, treatmentFirst), |s0|;
    hide Comparable;
    assert calls[..i] == s0 && calls[..i + 1] == s1 && calls[..i + 2] == s2 && calls[..i + 3] == s3;
    assert calls[i..i + 4] == own;
    assert TrialAt(w, calls, pair, m, c, t, i, treatmentFirst);
  }
}
