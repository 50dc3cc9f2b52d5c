/** The experiment as a whole (eval/bootstrap_ab.py, `run_experiment`): its loop nest, its teardown, its statistics. */
module ExperimentRun {
  import opened Base
  import opened Trials
  import opened Experiment
  import opened Feedback
  import opened Schedule

  // ---- the call invariants -------------------------------------------------

  /** Made before or in a generation below `g`; never the teardown. */
  predicate Below(e: Call, g: nat) {
    match e
    case Prepare => true
    case Close => false
    case Boot(_, _, h, _, _) => h < g
    case Act(_, _, h, _, _, _) => h < g
    case Write(_, _, h, _, _, _) => h < g
  }

  ghost predicate AllBelow(calls: seq<Call>, g: nat) {
    forall i :: 0 <= i < |calls| ==> Below(calls[i], g)
  }

  /**
   * A generation is a clean snapshot: each bootstrap comes after every write of the generations before its own, and
   * before every write of its own and later ones.
   */
  ghost predicate CleanGenerations(calls: seq<Call>) {
    forall i, j :: 0 <= i < j < |calls| ==> InOrder(calls[i], calls[j])
  }

  predicate InOrder(earlier: Call, later: Call) {
    && (earlier.Write? && later.Boot? ==> earlier.generation < later.generation)
    && (earlier.Boot? && later.Write? ==> earlier.generation <= later.generation)
  }

  ghost predicate Writing(calls: seq<Call>, g: nat) {
    forall i :: 0 <= i < |calls| ==> calls[i].Write? && calls[i].generation == g
  }

  lemma ScoringKeepsOrder(calls: seq<Call>, more: seq<Call>, g: nat)
    requires CleanGenerations(calls) && AllBelow(calls, g) && Scoring(more, g)
    ensures CleanGenerations(calls + more) && AllBelow(calls + more, g + 1)
  {
    forall i, j | 0 <= i < j < |calls + more|
      ensures InOrder((calls + more)[i], (calls + more)[j])
    {
      if i < |calls| { assert Below(calls[i], g); }
    }
  }

  lemma WritingKeepsOrder(calls: seq<Call>, more: seq<Call>, g: nat)
    requires CleanGenerations(calls) && AllBelow(calls, g + 1) && Writing(more, g)
    ensures CleanGenerations(calls + more) && AllBelow(calls + more, g + 1)
  {
    forall i, j | 0 <= i < j < |calls + more|
      ensures InOrder((calls + more)[i], (calls + more)[j])
    {
      if i < |calls| { assert Below(calls[i], g + 1); }
    }
  }

  lemma ScoringExtends(start: seq<Call>, a: seq<Call>, b: seq<Call>, g: nat)
    requires start <= a <= b && Scoring(a[|start|..], g) && Scoring(b[|a|..], g)
    ensures start <= b && Scoring(b[|start|..], g)
  {
    assert b[|start|..] == a[|start|..] + b[|a|..];
  }

  // ---- scoring a generation ------------------------------------------------

  /** A scored trial, before any write. */
  ghost predicate Fresh(w: World, calls: seq<Call>, arms: ArmPair, m: Manifest, p: Pair) {
    && IsPair(p) && Unit(p.0.score) && Unit(p.1.score)
    && p.0.feedbackWrites == 0 && p.1.feedbackWrites == 0
    && FromOneTrial(w, calls, arms, m, p.0, p.1)
  }

  ghost predicate AllFresh(w: World, calls: seq<Call>, arms: ArmPair, m: Manifest, pairs: seq<Pair>) {
    forall i :: 0 <= i < |pairs| ==> Fresh(w, calls, arms, m, pairs[i])
  }

  lemma FreshSnoc(w: World, calls: seq<Call>, calls': seq<Call>, arms: ArmPair, m: Manifest, pairs: seq<Pair>, p: Pair)
    requires AllFresh(w, calls, arms, m, pairs) && calls <= calls' && Fresh(w, calls', arms, m, p)
    ensures AllFresh(w, calls', arms, m, pairs + [p])
  {
    hide FromOneTrial;
    forall i | 0 <= i < |pairs|
      ensures Fresh(w, calls', arms, m, pairs[i])
    {
      assert Fresh(w, calls, arms, m, pairs[i]);
      FromOneTrialKept(w, calls, calls'[|calls|..], arms, m, pairs[i].0, pairs[i].1, pairs[i].0, pairs[i].1);
      assert calls + calls'[|calls|..] == calls';
    }
  }

  function ControlSlot(): Pair -> Slot {
    (p: Pair) => SlotOf(p.0)
  }

  /** The seeds and shuffles of a run, whatever they are. */
  datatype Randomness = Randomness(seed: (string, nat, nat) -> int, orders: Orders, treatmentFirst: int -> bool)

  datatype Progress = Progress(records: seq<TrialRecord>, pending: seq<Signal>)

  /** What the loops have built when `pairs` are the trials so far. */
  ghost predicate Built(tasks: Tasks, pr: Progress, pairs: seq<Pair>) {
    pr == Progress(Flat(pairs), Pending(tasks, pairs))
  }

  /** The repetitions of one task. */
  method ScoreTask(backend: Backend, arms: ArmPair, m: Manifest, tasks: Tasks, task: TaskSpec, g: nat, rnd: Randomness,
                   so: Progress, ghost before: seq<Pair>)
    returns (r: Result<Progress, Failure>, ghost pairs: seq<Pair>)
    requires task.id in tasks && tasks[task.id] == task
    requires Built(tasks, so, before) && AllFresh(backend.world, backend.calls, arms, m, before)
    modifies backend
    ensures old(backend.calls) <= backend.calls && Scoring(backend.calls[|old(backend.calls)|..], g)
    ensures r.Ok? ==>
      && Built(tasks, r.value, pairs) && AllFresh(backend.world, backend.calls, arms, m, pairs)
      && Map(pairs, ControlSlot()) == Map(before, ControlSlot()) + RepSlots(task.id, g, m.repetitions)
  {
    hide AllFresh, Fresh, Map, Flat, Pending, PairLabels, Scoring, FromOneTrial, Unit;
    ghost var start := backend.calls;
    assert Scoring(start[|start|..], g) by { NoCalls(start, g); }
    var records, pending := so.records, so.pending;
    pairs := before;
    for rep := 0 to m.repetitions
      invariant start <= backend.calls && Scoring(backend.calls[|start|..], g)
      invariant Built(tasks, Progress(records, pending), pairs)
      invariant AllFresh(backend.world, backend.calls, arms, m, pairs)
      invariant Map(pairs, ControlSlot()) == Map(before, ControlSlot()) + RepSlots(task.id, g, rep)
    {
      ghost var calls := backend.calls;
      var seed := rnd.seed(task.id, g, rep);
      var trial := RunTrial(backend, arms, m, task, g, rep, seed, rnd.treatmentFirst(seed));
      ScoringExtends(start, calls, backend.calls, g);
      if trial.Err? {
        return Err(trial.error), pairs;
      }
      var c, t := trial.value.0, trial.value.1;
      assert Fresh(backend.world, backend.calls, arms, m, (c, t)) by { FreshTrial(backend.world, backend.calls, arms, m, (c, t)); }
      FreshSnoc(backend.world, calls, backend.calls, arms, m, pairs, (c, t));
      FlatSnoc(pairs, (c, t));
      PendingSnoc(tasks, pairs, (c, t));
      MapSnoc(pairs, (c, t), ControlSlot());
      var labels := Labels(tasks, c, t);
      assert labels == PairLabels(tasks, (c, t)) by { SameLabels(tasks, (c, t)); }
      if |labels| != 0 {
        pending := pending + [Signal(|records|, labels)];
      }
      records := records + [c, t];
      pairs := pairs + [(c, t)];
    }
    r := Ok(Progress(records, pending));
  }

  lemma NoCalls(calls: seq<Call>, g: nat)
    ensures Scoring(calls[|calls|..], g)
  {
  }

  lemma SameLabels(tasks: Tasks, p: Pair)
    ensures PairLabels(tasks, p) == Labels(tasks, p.0, p.1)
  {
  }

  lemma FreshTrial(w: World, calls: seq<Call>, arms: ArmPair, m: Manifest, p: Pair)
    requires IsPair(p) && Unit(p.0.score) && Unit(p.1.score)
    requires p.0.feedbackWrites == 0 && p.1.feedbackWrites == 0 && FromOneTrial(w, calls, arms, m, p.0, p.1)
    ensures Fresh(w, calls, arms, m, p)
  {
  }

  ghost predicate Registry(tasks: Tasks, list: seq<TaskSpec>) {
    forall i :: 0 <= i < |list| ==> list[i].id in tasks && tasks[list[i].id] == list[i]
  }

  /** All the tasks of one generation, in its shuffled order. */
  method ScoreGeneration(backend: Backend, arms: ArmPair, m: Manifest, tasks: Tasks, g: nat, rnd: Randomness)
    returns (r: Result<Progress, Failure>, ghost pairs: seq<Pair>)
    requires Registry(tasks, rnd.orders(g))
    modifies backend
    ensures old(backend.calls) <= backend.calls && Scoring(backend.calls[|old(backend.calls)|..], g)
    ensures r.Ok? ==>
      && Built(tasks, r.value, pairs) && AllFresh(backend.world, backend.calls, arms, m, pairs)
      && Map(pairs, ControlSlot()) == TaskSlots(rnd.orders(g), g, m.repetitions)
  {
    hide AllFresh, Map, Flat, Pending, Scoring, RepSlots;
    ghost var start := backend.calls;
    assert Scoring(start[|start|..], g) by { NoCalls(start, g); }
    var order := rnd.orders(g);
    var so := Progress([], []);
    pairs := [];
    NothingBuilt(backend.world, backend.calls, arms, m, tasks);
    for i := 0 to |order|
      invariant start <= backend.calls && Scoring(backend.calls[|start|..], g)
      invariant Built(tasks, so, pairs) && AllFresh(backend.world, backend.calls, arms, m, pairs)
      invariant Map(pairs, ControlSlot()) == TaskSlots(order[..i], g, m.repetitions)
    {
      ghost var calls := backend.calls;
      ghost var more;
      r, more := ScoreTask(backend, arms, m, tasks, order[i], g, rnd, so, pairs);
      ScoringExtends(start, calls, backend.calls, g);
      if r.Err? {
        return;
      }
      so, pairs := r.value, more;
      assert order[..i + 1][..i] == order[..i];
    }
    assert order[..|order|] == order;
    r := Ok(so);
  }

  lemma NothingBuilt(w: World, calls: seq<Call>, arms: ArmPair, m: Manifest, tasks: Tasks)
    ensures Built(tasks, Progress([], []), []) && AllFresh(w, calls, arms, m, []) && Map([], ControlSlot()) == []
  {
  }

  // ---- writing the feedback ------------------------------------------------

  /** One arm's writes of one signal; a write that raises leaves the others unmade. */
  method WriteArm(backend: Backend, s: Slot, labels: seq<Label>) returns (writes: nat, ok: bool)
    modifies backend
    ensures ok ==> backend.calls == old(backend.calls) + ArmWrites(s, labels) && writes == |labels|
    ensures old(backend.calls) <= backend.calls && backend.calls[|old(backend.calls)|..] <= ArmWrites(s, labels)
  {
    writes := 0;
    for i := 0 to |labels|
      invariant writes == i && backend.calls == old(backend.calls) + ArmWrites(s, labels)[..i]
    {
      ok := backend.RecordFeedback(s.arm, s.task, s.generation, s.repetition, labels[i].0, labels[i].1);
      assert ArmWrites(s, labels)[..i + 1] == ArmWrites(s, labels)[..i] + [ArmWrites(s, labels)[i]];
      if !ok {
        return;
      }
      writes := writes + 1;
    }
    ok := true;
  }

  lemma PrefixOfConcat<T>(start: seq<T>, a: seq<T>, b: seq<T>, x: seq<T>, now: seq<T>)
    requires now == start + a + x && x <= b
    ensures start <= now && now[|start|..] <= a + b
  {
    assert now[|start|..] == a + x;
  }

  /** Both arms of one signal, the control's first. */
  method WriteSignal(backend: Backend, records: seq<TrialRecord>, s: Signal)
    returns (after: seq<TrialRecord>, ok: bool)
    requires s.index + 1 < |records|
    modifies backend
    ensures ok ==> backend.calls == old(backend.calls) + CallsOf(records, s)
                   && after == Credit(records, s.index, |s.labels|)
    ensures old(backend.calls) <= backend.calls && backend.calls[|old(backend.calls)|..] <= CallsOf(records, s)
  {
    hide ArmWrites, Credited;
    ghost var start := backend.calls;
    var c, t := SlotOf(records[s.index]), SlotOf(records[s.index + 1]);
    after := records;
    var n, done := WriteArm(backend, c, s.labels);
    PrefixOfConcat(start, [], ArmWrites(c, s.labels), backend.calls[|start|..], backend.calls);
    if !done {
      return after, false;
    }
    after := after[s.index := Credited(records[s.index], n)];
    ghost var middle := backend.calls;
    n, ok := WriteArm(backend, t, s.labels);
    PrefixOfConcat(start, ArmWrites(c, s.labels), ArmWrites(t, s.labels), backend.calls[|middle|..], backend.calls);
    after := after[s.index + 1 := Credited(records[s.index + 1], n)];
  }

  /** The queue, in order. On an exception the writes made so far are the first of those due. */
  method WriteFeedback(backend: Backend, so: Progress) returns (r: Result<seq<TrialRecord>, Failure>)
    requires InRange(so.pending, |so.records|)
    modifies backend
    ensures old(backend.calls) <= backend.calls
    ensures backend.calls[|old(backend.calls)|..] <= Drained(so.records, so.pending)
    ensures r.Ok? ==> r.value == Settled(so.records, so.pending)
                      && backend.calls == old(backend.calls) + Drained(so.records, so.pending)
  {
    hide CallsOf, Credit, Drained, Settled;
    ghost var start := backend.calls;
    var records, pending := so.records, so.pending;
    NoneDrained(records);
    assert pending[..0] == [];
    for q := 0 to |pending|
      invariant records == Settled(so.records, pending[..q])
      invariant backend.calls == start + Drained(so.records, pending[..q])
    {
      ghost var due := Drained(so.records, pending[..q]);
      assert pending[..q + 1] == pending[..q] + [pending[q]];
      OneMoreSignal(so.records, pending[..q], pending[q]);
      SameCalls(so.records, pending[..q], pending[q]);
      var after, ok := WriteSignal(backend, records, pending[q]);
      PrefixOfConcat(start, due, CallsOf(records, pending[q]), backend.calls[|start + due|..], backend.calls);
      DrainedPrefix(so.records, pending, q + 1);
      if !ok {
        return Err(BackendRaised);
      }
      records := after;
    }
    assert pending[..|pending|] == pending;
    r := Ok(records);
  }

  lemma NoneDrained(records: seq<TrialRecord>)
    ensures Drained(records, []) == [] && Settled(records, []) == records
  {
  }

  lemma {:induction false} SlotsKept(records: seq<TrialRecord>, p: seq<Signal>, i: nat)
    requires i < |records|
    ensures SlotOf(Settled(records, p)[i]) == SlotOf(records[i])
  {
    if |p| != 0 { SlotsKept(records, p[..|p| - 1], i); }
  }

  /** Counts do not change where a record's writes go. */
  lemma SameCalls(records: seq<TrialRecord>, p: seq<Signal>, s: Signal)
    ensures CallsOf(Settled(records, p), s) == CallsOf(records, s)
  {
    hide ArmWrites;
    if s.index + 1 < |records| {
      SlotsKept(records, p, s.index);
      SlotsKept(records, p, s.index + 1);
    }
  }

  lemma {:induction false} DrainedPrefix(records: seq<TrialRecord>, p: seq<Signal>, q: nat)
    requires q <= |p|
    ensures Drained(records, p[..q]) <= Drained(records, p)
  {
    hide CallsOf;
    if q < |p| {
      DrainedPrefix(records, p[..|p| - 1], q);
      assert p[..|p| - 1][..q] == p[..q];
    } else {
      assert p[..q] == p;
    }
  }
}
