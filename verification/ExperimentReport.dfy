/** `run_experiment` from its checks to its verdict. */
module ExperimentReport {
  import opened Base
  import opened Trials
  import opened Experiment
  import opened Feedback
  import opened Schedule
  import opened ExperimentRun
  import opened ExperimentResult
  import E = PairedEffect
  import M = Metrics
  import G = Gate

  /** `consistent` stands for the checks on categories and on answers from the gold summary. */
  datatype Corpus = Corpus(fingerprint: string, memoryIds: seq<string>, tasks: seq<TaskSpec>, consistent: bool)

  predicate ValidCorpus(c: Corpus) {
    && |c.tasks| >= 20 && UniqueIds(c.tasks) && c.consistent
    && (exists t :: t in c.tasks && t.tail) && (exists t :: t in c.tasks && t.heldOut)
    && (forall t :: t in c.tasks ==> (forall id :: id in t.candidates ==> id in c.memoryIds) && t.gold in c.memoryIds)
    && (forall i, j :: 0 <= i < j < |c.tasks| ==> c.tasks[i].gold != c.tasks[j].gold)
  }

  /** What building a task from its record enforces. */
  predicate WellFormed(t: TaskSpec) {
    t.gold in t.candidates
  }

  datatype Error = InvalidInput | PrepareRaised | RunRaised(cause: Failure) | CloseRaised | StatisticsRaised

  datatype Report = Report(records: seq<TrialRecord>, effect: E.Effect, metrics: seq<M.Generation>, verdict: G.Verdict)

  /** `{task.id: task for task in tasks}`. */
  function TaskMap(list: seq<TaskSpec>): Tasks {
    if |list| == 0 then map[] else TaskMap(list[..|list| - 1])[list[|list| - 1].id := list[|list| - 1]]
  }

  lemma {:induction false} TaskMapHolds(list: seq<TaskSpec>)
    requires UniqueIds(list)
    ensures Registry(TaskMap(list), list)
    ensures forall id :: id in TaskMap(list) ==> TaskMap(list)[id] in list && TaskMap(list)[id].id == id
  {
    if |list| != 0 {
      var init, last := list[..|list| - 1], list[|list| - 1];
      TaskMapHolds(init);
      assert list == init + [last];
      forall i | 0 <= i < |list|
        ensures list[i].id in TaskMap(list) && TaskMap(list)[list[i].id] == list[i]
      {
        if i < |init| { assert init[i] == list[i] && list[i].id != last.id; }
      }
    }
  }

  lemma ShufflesAreRunnable(tasks: seq<TaskSpec>, orders: Orders)
    requires UniqueIds(tasks) && IsShuffle(orders, tasks)
    ensures Runnable(TaskMap(tasks), orders)
  {
    TaskMapHolds(tasks);
    forall g
      ensures Registry(TaskMap(tasks), orders(g)) && UniqueIds(orders(g))
    {
      ShuffledUnique(orders(g), tasks);
      forall i | 0 <= i < |orders(g)|
        ensures orders(g)[i] in tasks
      {
        assert orders(g)[i] in multiset(orders(g));
      }
    }
  }

  // ---- the statistics of a finished run are defined --------------------------

  lemma {:induction false} FlatMembers(pairs: seq<Pair>, r: TrialRecord)
    ensures r in Flat(pairs) <==> exists i :: 0 <= i < |pairs| && (r == pairs[i].0 || r == pairs[i].1)
  {
    if |pairs| != 0 {
      var init, last := pairs[..|pairs| - 1], pairs[|pairs| - 1];
      FlatMembers(init, r);
      assert forall i :: 0 <= i < |init| ==> init[i] == pairs[i];
    }
  }

  /** The records of a run: pairs on exactly the planned slots, scored in [0, 1]. */
  ghost predicate Planned(pairs: seq<Pair>, orders: Orders, generations: nat, reps: nat) {
    && Map(pairs, ControlSlot()) == Plan(orders, generations, reps)
    && forall i :: 0 <= i < |pairs| ==> IsPair(pairs[i]) && Unit(pairs[i].0.score) && Unit(pairs[i].1.score)
  }

  lemma RunIsPlanned(w: World, calls: seq<Call>, arms: ArmPair, m: Manifest, tasks: Tasks, orders: Orders, pairs: seq<Pair>, g: nat)
    requires RunSoFar(w, calls, arms, m, tasks, orders, pairs, g)
    ensures Planned(pairs, orders, g, m.repetitions)
  {
    hide FromOneTrial, Delivered, Unit, Plan, Balanced;
    forall i | 0 <= i < |pairs|
      ensures IsPair(pairs[i]) && Unit(pairs[i].0.score) && Unit(pairs[i].1.score)
    {
      assert Finished(w, calls, arms, m, tasks, pairs[i], g);
    }
  }

  /** A record of the run, and its partner in the other arm. */
  lemma RecordPair(pairs: seq<Pair>, orders: Orders, tasks: seq<TaskSpec>, generations: nat, reps: nat, r: TrialRecord)
    returns (i: nat)
    requires Planned(pairs, orders, generations, reps) && IsShuffle(orders, tasks) && r in Flat(pairs)
    ensures i < |pairs| && (r == pairs[i].0 || r == pairs[i].1)
    ensures pairs[i].0 in Flat(pairs) && pairs[i].1 in Flat(pairs)
    ensures HasTask(tasks, r.taskId) && r.generation < generations && Unit(r.score)
  {
    hide Plan, Flat, Unit, HasTask;
    FlatMembers(pairs, r);
    i :| 0 <= i < |pairs| && (r == pairs[i].0 || r == pairs[i].1);
    FlatMembers(pairs, pairs[i].0);
    FlatMembers(pairs, pairs[i].1);
    var slots := Map(pairs, ControlSlot());
    assert slots[i] in slots;
    PlanMembers(orders, tasks, generations, reps, slots[i]);
  }

  /** Every task of every generation has a pair of records. */
  lemma TaskHasPair(pairs: seq<Pair>, orders: Orders, tasks: seq<TaskSpec>, generations: nat, reps: nat, g: nat, id: string)
    returns (i: nat)
    requires Planned(pairs, orders, generations, reps) && IsShuffle(orders, tasks)
    requires g < generations && reps >= 1 && HasTask(tasks, id)
    ensures i < |pairs| && pairs[i].0.taskId == id && pairs[i].0.generation == g
    ensures pairs[i].0 in Flat(pairs) && pairs[i].1 in Flat(pairs)
  {
    hide Plan, Flat, Unit, HasTask;
    var s := Slot(Control, id, g, 0);
    PlanMembers(orders, tasks, generations, reps, s);
    var slots := Map(pairs, ControlSlot());
    i :| 0 <= i < |slots| && slots[i] == s;
    FlatMembers(pairs, pairs[i].0);
    FlatMembers(pairs, pairs[i].1);
  }

  lemma InCellNonempty(records: seq<TrialRecord>, g: nat, r: TrialRecord)
    requires r in records && r.generation == g
    ensures |E.Scores(records, g, r.taskId, r.arm)| > 0
  {
    FilterMembers(records, E.InCell(g, r.taskId, r.arm));
    assert r in Filter(records, E.InCell(g, r.taskId, r.arm));
  }

  lemma TwoTasks(records: seq<TrialRecord>, g: nat, a: TrialRecord, b: TrialRecord)
    requires a in records && b in records && a.generation == g == b.generation && a.taskId != b.taskId
    ensures |E.TaskIds(records, g)| >= 2
  {
    var ids := E.TaskIds(records, g);
    assert a.taskId in ids && b.taskId in ids - {a.taskId};
    assert |ids| == |ids - {a.taskId}| + 1;
  }

  /** The primary endpoint never raises on the records of a finished run. */
  lemma EndpointDefined(pairs: seq<Pair>, orders: Orders, tasks: seq<TaskSpec>, generations: nat, reps: nat, g: nat)
    requires Planned(pairs, orders, generations, reps) && IsShuffle(orders, tasks) && UniqueIds(tasks)
    requires |tasks| >= 2 && reps >= 1 && g < generations
    ensures forall task :: task in E.TaskIds(Flat(pairs), g) ==> E.IsPaired(Flat(pairs), g, task)
    ensures |E.TaskIds(Flat(pairs), g)| >= 2
  {
    hide Plan, Flat, Planned, E.Scores;
    forall task | task in E.TaskIds(Flat(pairs), g)
      ensures E.IsPaired(Flat(pairs), g, task)
    {
      var r :| r in Flat(pairs) && r.generation == g && r.taskId == task;
      var i := RecordPair(pairs, orders, tasks, generations, reps, r);
      PairHasBoth(pairs, orders, generations, reps, i);
      InCellNonempty(Flat(pairs), g, pairs[i].0);
      InCellNonempty(Flat(pairs), g, pairs[i].1);
    }
    assert HasTask(tasks, tasks[0].id) && HasTask(tasks, tasks[1].id);
    var i := TaskHasPair(pairs, orders, tasks, generations, reps, g, tasks[0].id);
    var j := TaskHasPair(pairs, orders, tasks, generations, reps, g, tasks[1].id);
    TwoTasks(Flat(pairs), g, pairs[i].0, pairs[j].0);
  }

  lemma PairHasBoth(pairs: seq<Pair>, orders: Orders, generations: nat, reps: nat, i: nat)
    requires Planned(pairs, orders, generations, reps) && i < |pairs|
    ensures IsPair(pairs[i])
  {
  }

  /** Neither does the gate: each generation it looks up ran both arms. */
  lemma GateDefined(pairs: seq<Pair>, orders: Orders, tasks: seq<TaskSpec>, generations: nat, reps: nat,
                    universe: seq<string>, entropy: M.Entropy)
    requires Planned(pairs, orders, generations, reps) && IsShuffle(orders, tasks)
    requires |tasks| >= 1 && reps >= 1 && generations >= 1
    ensures G.Complete(M.GenerationMetrics(Flat(pairs), TaskMap(tasks), universe, entropy))
  {
    hide Plan, Flat, Planned, M.GenerationMetrics, G.Complete, M.CellKey, TaskMap;
    assert HasTask(tasks, tasks[0].id);
    var k := TaskHasPair(pairs, orders, tasks, generations, reps, 0, tasks[0].id);
    forall g, arm | M.CellKey(arm, g) in M.Keys(Flat(pairs))
      ensures M.CellKey(Other(arm), g) in M.Keys(Flat(pairs))
    {
      var r :| r in Flat(pairs) && M.KeyOf(r) == M.CellKey(arm, g);
      M.CellKeyInverse(arm, g);
      M.CellKeyInverse(r.arm, r.generation);
      var i := RecordPair(pairs, orders, tasks, generations, reps, r);
      PairHasBoth(pairs, orders, generations, reps, i);
      assert M.KeyOf(if arm == Control then pairs[i].1 else pairs[i].0) == M.CellKey(Other(arm), g);
    }
    BothKeys(Flat(pairs));
    G.RunIsComplete(Flat(pairs), TaskMap(tasks), universe, entropy);
  }

  lemma BothKeys(records: seq<TrialRecord>)
    requires forall g, arm :: M.CellKey(arm, g) in M.Keys(records) ==> M.CellKey(Other(arm), g) in M.Keys(records)
    ensures forall g :: M.CellKey(Control, g) in M.Keys(records) <==> M.CellKey(Treatment, g) in M.Keys(records)
  {
    hide M.Keys, M.CellKey;
    assert Other(Control) == Treatment && Other(Treatment) == Control;
  }

  lemma RecordsCovered(pairs: seq<Pair>, orders: Orders, tasks: seq<TaskSpec>, generations: nat, reps: nat)
    requires Planned(pairs, orders, generations, reps) && IsShuffle(orders, tasks) && UniqueIds(tasks)
    requires forall t :: t in tasks ==> WellFormed(t)
    ensures M.Covered(Flat(pairs), TaskMap(tasks))
  {
    hide Plan, Flat, Planned, TaskMap;
    TaskMapHolds(tasks);
    forall r | r in Flat(pairs)
      ensures r.taskId in TaskMap(tasks) && |TaskMap(tasks)[r.taskId].candidates| > 0
    {
      var _ := RecordPair(pairs, orders, tasks, generations, reps, r);
      var i :| 0 <= i < |tasks| && tasks[i].id == r.taskId;
      assert WellFormed(tasks[i]);
    }
  }

  // ---- the whole run -------------------------------------------------------

  function Primary(m: Manifest): nat
    requires ValidManifest(m)
  {
    if m.primary.Some? then m.primary.value else m.generations - 1
  }

  /** The teardown is the last call and the only one, and everything before it is safe. */
  ghost predicate ClosedOnce(calls: seq<Call>, generations: nat) {
    |calls| >= 2 && calls[0] == Prepare && calls[|calls| - 1] == Close && Safe(calls[..|calls| - 1], generations)
  }

  /** What a completed run delivers. */
  ghost predicate Faithful(report: Report, w: World, calls: seq<Call>, m: Manifest, c: Corpus, rnd: Randomness,
                           draw: E.Draw, entropy: M.Entropy, pairs: seq<Pair>)
    requires ValidManifest(m) && E.IsRandrange(draw) && w.prepare.Some?
  {
    && report.records == Flat(pairs)
    && RunSoFar(w, calls, w.prepare.value, m, TaskMap(c.tasks), rnd.orders, pairs, m.generations)
    && E.EffectOf(report.records, m.thresholds, Primary(m), draw) == Ok(report.effect)
    && report.metrics == M.GenerationMetrics(report.records, TaskMap(c.tasks), c.memoryIds, entropy)
    && G.Judged(report.verdict, report.effect.ciLower, report.metrics, m.thresholds, m.host)
  }

  /** The body of the `try`: the arms are validated, then the generations run. */
  method RunArms(backend: Backend, arms: ArmPair, m: Manifest, tasks: Tasks, rnd: Randomness)
    returns (r: Result<seq<TrialRecord>, Failure>, ghost pairs: seq<Pair>)
    requires Runnable(tasks, rnd.orders) && backend.calls == [Prepare]
    modifies backend
    ensures [Prepare] <= backend.calls && Safe(backend.calls, m.generations)
    ensures r.Ok? ==>
      && ValidPair(arms, m) && r.value == Flat(pairs)
      && RunSoFar(backend.world, backend.calls, arms, m, tasks, rnd.orders, pairs, m.generations)
  {
    hide RunSoFar, Flat, Runnable;
    pairs := [];
    PrepareIsSafe(m.generations);
    if !ValidPair(arms, m) {
      return Err(InvariantBroken), pairs;
    }
    r, pairs := RunGenerations(backend, arms, m, tasks, rnd);
  }

  lemma PrepareIsSafe(g: nat)
    ensures AllBelow([Prepare], 0) && CleanGenerations([Prepare]) && Safe([Prepare], g)
  {
  }

  /**
   * `close` runs exactly once on every exit after `prepare` succeeded, its own exception hides any of the run, and the
   * statistics after it never raise.
   */
  method RunExperiment(backend: Backend, m: Manifest, c: Corpus, rnd: Randomness, draw: E.Draw, entropy: M.Entropy)
    returns (r: Result<Report, Error>, ghost pairs: seq<Pair>)
    requires ValidManifest(m) && E.IsRandrange(draw) && backend.calls == []
    requires IsShuffle(rnd.orders, c.tasks) && (forall t :: t in c.tasks ==> WellFormed(t))
    modifies backend
    ensures m.fingerprint != c.fingerprint || !ValidCorpus(c) ==> r == Err(InvalidInput) && backend.calls == []
    ensures m.fingerprint == c.fingerprint && ValidCorpus(c) ==>
      if backend.world.prepare.None? then r == Err(PrepareRaised) && backend.calls == [Prepare]
      else ClosedOnce(backend.calls, m.generations)
    ensures r != Err(StatisticsRaised)
    ensures ClosedOnce(backend.calls, m.generations) ==>
      (r == Err(CloseRaised) <==> !backend.world.close(backend.calls[..|backend.calls| - 1]))
    ensures r.Ok? ==>
      && ClosedOnce(backend.calls, m.generations) && backend.world.prepare.Some?
      && Faithful(r.value, backend.world, backend.calls[..|backend.calls| - 1], m, c, rnd, draw, entropy, pairs)
  {
    hide RunSoFar, Flat, Safe, Planned, IsShuffle, ValidPair, Runnable, G.Complete, G.Judged, M.GenerationMetrics, E.EffectOf;
    hide M.Covered, TaskMap, E.TaskIds, E.IsPaired, UniqueIds;
    pairs := [];
    if m.fingerprint != c.fingerprint || !ValidCorpus(c) {
      return Err(InvalidInput), pairs;
    }
    var arms := backend.PrepareArms();
    if arms.None? {
      return Err(PrepareRaised), pairs;
    }
    var tasks := TaskMap(c.tasks);
    ShufflesAreRunnable(c.tasks, rnd.orders);
    var run;
    run, pairs := RunArms(backend, arms.value, m, tasks, rnd);
    ghost var before := backend.calls;
    var closed := backend.CloseArms();
    assert backend.calls[..|backend.calls| - 1] == before;
    if !closed {
      return Err(CloseRaised), pairs;
    }
    if run.Err? {
      return Err(RunRaised(run.error)), pairs;
    }
    RunIsPlanned(backend.world, before, arms.value, m, tasks, rnd.orders, pairs, m.generations);
    r := Conclude(run.value, m, c, draw, entropy, rnd.orders, pairs);
  }

  /** Endpoint, metrics and gate. */
  method Conclude(records: seq<TrialRecord>, m: Manifest, c: Corpus, draw: E.Draw, entropy: M.Entropy,
                  ghost orders: Orders, ghost pairs: seq<Pair>)
    returns (r: Result<Report, Error>)
    requires ValidManifest(m) && E.IsRandrange(draw) && ValidCorpus(c)
    requires IsShuffle(orders, c.tasks) && (forall t :: t in c.tasks ==> WellFormed(t))
    requires records == Flat(pairs) && Planned(pairs, orders, m.generations, m.repetitions)
    ensures r.Ok? && r.value.records == records
    ensures E.EffectOf(records, m.thresholds, Primary(m), draw) == Ok(r.value.effect)
    ensures r.value.metrics == M.GenerationMetrics(records, TaskMap(c.tasks), c.memoryIds, entropy)
    ensures G.Judged(r.value.verdict, r.value.effect.ciLower, r.value.metrics, m.thresholds, m.host)
  {
    hide Flat, Planned, IsShuffle, G.Complete, G.Judged, M.GenerationMetrics, E.EffectOf, M.Covered, TaskMap;
    hide E.TaskIds, E.IsPaired, UniqueIds;
    EndpointDefined(pairs, orders, c.tasks, m.generations, m.repetitions, Primary(m));
    E.EffectDefined(records, m.thresholds, Primary(m), draw);
    var effect := E.ComputeEffect(records, m.thresholds, Primary(m), draw);
    RecordsCovered(pairs, orders, c.tasks, m.generations, m.repetitions);
    assert c.tasks[0] in c.tasks;
    var metrics := M.ComputeMetrics(records, TaskMap(c.tasks), c.memoryIds, entropy);
    GateDefined(pairs, orders, c.tasks, m.generations, m.repetitions, c.memoryIds, entropy);
    var verdict := G.Judge(effect.value.ciLower, metrics, m.thresholds, m.host);
    r := Ok(Report(records, effect.value, metrics, verdict.value));
  }

  // ---- what the report says ------------------------------------------------

  /** Two records per generation, task and repetition. */
  lemma {:induction false} RecordCount(pairs: seq<Pair>, orders: Orders, tasks: seq<TaskSpec>, generations: nat, reps: nat)
    requires Planned(pairs, orders, generations, reps) && IsShuffle(orders, tasks)
    ensures |Flat(pairs)| == 2 * (generations * (|tasks| * reps))
  {
    hide Plan;
    PlanLength(orders, tasks, generations, reps);
  }

  /** Every generation, task and repetition is tried exactly once. */
  lemma EveryTrialOnce(pairs: seq<Pair>, orders: Orders, tasks: seq<TaskSpec>, generations: nat, reps: nat,
                       g: nat, id: string, rep: nat)
    requires Planned(pairs, orders, generations, reps) && IsShuffle(orders, tasks) && UniqueIds(tasks)
    ensures Trialled(pairs)
    ensures (exists i :: 0 <= i < |pairs| && SlotOf(pairs[i].0) == Slot(Control, id, g, rep))
      <==> HasTask(tasks, id) && g < generations && rep < reps
  {
    hide Plan, HasTask;
    var slots, s := Map(pairs, ControlSlot()), Slot(Control, id, g, rep);
    PlanDistinct(orders, tasks, generations, reps);
    PlanMembers(orders, tasks, generations, reps, s);
    forall i, j | 0 <= i < j < |pairs|
      ensures SlotOf(pairs[i].0) != SlotOf(pairs[j].0)
    {
      assert slots[i] != slots[j];
    }
    assert s in slots <==> exists i :: 0 <= i < |pairs| && SlotOf(pairs[i].0) == s;
  }

  /** The reported lift and interval lie in [-1, 1], whatever was drawn. */
  lemma ReportedLiftInUnit(pairs: seq<Pair>, orders: Orders, tasks: seq<TaskSpec>, m: Manifest, draw: E.Draw)
    requires ValidManifest(m) && E.IsRandrange(draw)
    requires Planned(pairs, orders, m.generations, m.repetitions) && IsShuffle(orders, tasks)
    ensures var r := E.EffectOf(Flat(pairs), m.thresholds, Primary(m), draw);
            r.Ok? ==> -1.0 <= r.value.meanLift <= 1.0 && -1.0 <= r.value.ciLower <= r.value.ciUpper <= 1.0
  {
    hide Plan, Flat, Planned, E.EffectOf;
    forall r | r in Flat(pairs)
      ensures Unit(r.score)
    {
      var _ := RecordPair(pairs, orders, tasks, m.generations, m.repetitions, r);
    }
    E.EffectInUnit(Flat(pairs), m.thresholds, Primary(m), draw);
  }
}
