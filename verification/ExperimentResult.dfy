/** A whole run of the experiment: clean generations, equal journals, exact counts, one teardown, defined statistics. */
module ExperimentResult {
  import opened Base
  import opened Trials
  import opened Experiment
  import opened Feedback
  import opened Schedule
  import opened ExperimentRun

  // ---- what a run keeps ----------------------------------------------------

  /** The trial's writes, in both journals, are its labels, and both records say how many. */
  ghost predicate Delivered(tasks: Tasks, calls: seq<Call>, p: Pair) {
    var labels := PairLabels(tasks, p);
    && p.0.feedbackWrites == |labels| == p.1.feedbackWrites
    && Written(calls, SlotOf(p.0)) == labels == Written(calls, SlotOf(p.1))
  }

  ghost predicate Finished(w: World, calls: seq<Call>, arms: ArmPair, m: Manifest, tasks: Tasks, p: Pair, g: nat) {
    && IsPair(p) && Unit(p.0.score) && Unit(p.1.score) && p.0.generation < g
    && FromOneTrial(w, calls, arms, m, p.0, p.1)
    && Delivered(tasks, calls, p)
  }

  ghost predicate AllFinished(w: World, calls: seq<Call>, arms: ArmPair, m: Manifest, tasks: Tasks, pairs: seq<Pair>, g: nat) {
    forall i :: 0 <= i < |pairs| ==> Finished(w, calls, arms, m, tasks, pairs[i], g)
  }

  ghost predicate Balanced(calls: seq<Call>) {
    Journal(calls, Control) == Journal(calls, Treatment)
  }

  /** After `g` generations. */
  ghost predicate RunSoFar(w: World, calls: seq<Call>, arms: ArmPair, m: Manifest, tasks: Tasks, orders: Orders,
                           pairs: seq<Pair>, g: nat)
  {
    && AllBelow(calls, g) && CleanGenerations(calls) && Balanced(calls)
    && Map(pairs, ControlSlot()) == Plan(orders, g, m.repetitions)
    && AllFinished(w, calls, arms, m, tasks, pairs, g)
  }

  /** What holds even of a run that raised: clean generations, and a treatment journal that never runs ahead. */
  ghost predicate Safe(calls: seq<Call>, g: nat) {
    && AllBelow(calls, g) && CleanGenerations(calls)
    && Journal(calls, Treatment) <= Journal(calls, Control)
  }

  // ---- writes --------------------------------------------------------------

  lemma ArmWritesAre(s: Slot, labels: seq<Label>)
    ensures Writing(ArmWrites(s, labels), s.generation)
  {
  }

  lemma {:induction false} PhaseIsWriting(tasks: Tasks, pairs: seq<Pair>, g: nat)
    requires forall i :: 0 <= i < |pairs| ==> IsPair(pairs[i]) && pairs[i].0.generation == g
    ensures Writing(PhaseCalls(tasks, pairs), g)
  {
    hide ArmWrites, PairLabels;
    if |pairs| != 0 {
      var init, p := pairs[..|pairs| - 1], pairs[|pairs| - 1];
      PhaseIsWriting(tasks, init, g);
      ArmWritesAre(SlotOf(p.0), PairLabels(tasks, p));
      ArmWritesAre(SlotOf(p.1), PairLabels(tasks, p));
    }
  }

  lemma WrittenNone(calls: seq<Call>, s: Slot)
    requires forall i :: 0 <= i < |calls| ==> !(calls[i].Write? && calls[i].generation == s.generation)
    ensures Written(calls, s) == []
  {
    FilterNone(calls, IsWriteOf(s));
  }

  lemma JournalOfScoring(calls: seq<Call>, g: nat, arm: Arm)
    requires Scoring(calls, g)
    ensures Journal(calls, arm) == []
  {
    FilterNone(calls, WrittenBy(arm));
  }

  /** Calls of another generation do not touch a finished trial. */
  lemma FinishedKept(w: World, calls: seq<Call>, more: seq<Call>, arms: ArmPair, m: Manifest, tasks: Tasks, p: Pair, g: nat)
    requires Finished(w, calls, arms, m, tasks, p, g)
    requires forall i :: 0 <= i < |more| ==> !(more[i].Write? && more[i].generation == p.0.generation)
    ensures Finished(w, calls + more, arms, m, tasks, p, g + 1)
  {
    hide FromOneTrial, Written, PairLabels;
    FromOneTrialKept(w, calls, more, arms, m, p.0, p.1, p.0, p.1);
    WrittenConcat(calls, more, SlotOf(p.0));
    WrittenConcat(calls, more, SlotOf(p.1));
    WrittenNone(more, SlotOf(p.0));
    WrittenNone(more, SlotOf(p.1));
  }

  /** A trial of the generation just written: nothing was written for it before, and its labels now are. */
  lemma FinishedNow(w: World, calls: seq<Call>, arms: ArmPair, m: Manifest, tasks: Tasks, pairs: seq<Pair>, g: nat, i: nat)
    requires Trialled(pairs) && i < |pairs| && pairs[i].0.generation == g
    requires Fresh(w, calls, arms, m, pairs[i])
    requires forall k :: 0 <= k < |calls| ==> !(calls[k].Write? && calls[k].generation == g)
    ensures Finished(w, calls + PhaseCalls(tasks, pairs), arms, m, tasks, Counted(tasks)(pairs[i]), g + 1)
  {
    hide FromOneTrial, Written, Labels, PhaseCalls, Trialled, Unit;
    var p, more := pairs[i], PhaseCalls(tasks, pairs);
    var q := Counted(tasks)(p);
    FromOneTrialKept(w, calls, more, arms, m, p.0, p.1, q.0, q.1);
    WrittenConcat(calls, more, SlotOf(p.0));
    WrittenConcat(calls, more, SlotOf(p.1));
    WrittenNone(calls, SlotOf(p.0));
    WrittenNone(calls, SlotOf(p.1));
    WrittenOfPhase(tasks, pairs, i);
    CountedLabels(tasks, p);
  }

  lemma CountedLabels(tasks: Tasks, p: Pair)
    ensures PairLabels(tasks, Counted(tasks)(p)) == PairLabels(tasks, p)
  {
  }

  lemma CountedSlots(tasks: Tasks, pairs: seq<Pair>)
    ensures Map(Map(pairs, Counted(tasks)), ControlSlot()) == Map(pairs, ControlSlot())
  {
  }

  /** The scored trials of one generation are distinct trials of that generation. */
  lemma SlotsAreTrials(w: World, calls: seq<Call>, arms: ArmPair, m: Manifest, pairs: seq<Pair>, order: seq<TaskSpec>, g: nat)
    requires UniqueIds(order) && AllFresh(w, calls, arms, m, pairs)
    requires Map(pairs, ControlSlot()) == TaskSlots(order, g, m.repetitions)
    ensures Trialled(pairs) && forall i :: 0 <= i < |pairs| ==> pairs[i].0.generation == g
  {
    hide FromOneTrial, TaskSlots;
    var slots := Map(pairs, ControlSlot());
    TaskSlotsDistinct(order, g, m.repetitions);
    forall i | 0 <= i < |pairs|
      ensures pairs[i].0.generation == g && IsPair(pairs[i])
    {
      assert Fresh(w, calls, arms, m, pairs[i]);
      assert slots[i] in slots;
      TaskSlotsMembers(order, g, m.repetitions, slots[i]);
    }
    forall i, j | 0 <= i < j < |pairs|
      ensures SlotOf(pairs[i].0) != SlotOf(pairs[j].0)
    {
      assert slots[i] != slots[j];
    }
  }

  /** One more generation: scored on the snapshot of the earlier ones, then written. */
  lemma NextGeneration(w: World, calls: seq<Call>, scoring: seq<Call>, arms: ArmPair, m: Manifest, tasks: Tasks,
                       orders: Orders, pairs: seq<Pair>, scored: seq<Pair>, g: nat)
    requires RunSoFar(w, calls, arms, m, tasks, orders, pairs, g)
    requires Scoring(scoring, g) && AllFresh(w, calls + scoring, arms, m, scored) && UniqueIds(orders(g))
    requires Map(scored, ControlSlot()) == TaskSlots(orders(g), g, m.repetitions)
    ensures RunSoFar(w, calls + scoring + PhaseCalls(tasks, scored), arms, m, tasks, orders,
                     pairs + Map(scored, Counted(tasks)), g + 1)
  {
    hide Finished, Fresh, PhaseCalls, Journal, CleanGenerations, TaskSlots, Map, Trialled;
    var phase, counted := PhaseCalls(tasks, scored), Map(scored, Counted(tasks));
    SlotsAreTrials(w, calls + scoring, arms, m, scored, orders(g), g);
    TrialsArePairs(scored);
    PhaseIsWriting(tasks, scored, g);
    ScoringKeepsOrder(calls, scoring, g);
    WritingKeepsOrder(calls + scoring, phase, g);
    JournalsStayBalanced(calls, scoring, tasks, scored, g);
    MapConcat(pairs, counted, ControlSlot());
    CountedSlots(tasks, scored);
    EarlierStayFinished(w, calls, scoring, arms, m, tasks, pairs, phase, g);
    FreshGetFinished(w, calls, scoring, arms, m, tasks, scored, g);
  }

  lemma TrialsArePairs(pairs: seq<Pair>)
    requires Trialled(pairs)
    ensures forall i :: 0 <= i < |pairs| ==> IsPair(pairs[i])
  {
  }

  lemma JournalsStayBalanced(calls: seq<Call>, scoring: seq<Call>, tasks: Tasks, scored: seq<Pair>, g: nat)
    requires Balanced(calls) && Scoring(scoring, g) && forall i :: 0 <= i < |scored| ==> IsPair(scored[i])
    ensures Balanced(calls + scoring + PhaseCalls(tasks, scored))
  {
    hide Journal, PhaseCalls;
    forall arm
      ensures Journal(calls + scoring + PhaseCalls(tasks, scored), arm)
        == Journal(calls, arm) + [] + Journal(PhaseCalls(tasks, scored), arm)
    {
      JournalConcat(calls + scoring, PhaseCalls(tasks, scored), arm);
      JournalConcat(calls, scoring, arm);
      JournalOfScoring(scoring, g, arm);
    }
    JournalsOfPhase(tasks, scored);
  }

  lemma EarlierStayFinished(w: World, calls: seq<Call>, scoring: seq<Call>, arms: ArmPair, m: Manifest, tasks: Tasks,
                            pairs: seq<Pair>, phase: seq<Call>, g: nat)
    requires AllFinished(w, calls, arms, m, tasks, pairs, g) && Scoring(scoring, g) && Writing(phase, g)
    ensures AllFinished(w, calls + scoring + phase, arms, m, tasks, pairs, g + 1)
  {
    hide Finished;
    var more := scoring + phase;
    assert calls + scoring + phase == calls + more;
    forall i | 0 <= i < |pairs|
      ensures Finished(w, calls + scoring + phase, arms, m, tasks, pairs[i], g + 1)
    {
      EarlierGeneration(w, calls, arms, m, tasks, pairs[i], g);
      FinishedKept(w, calls, more, arms, m, tasks, pairs[i], g);
    }
  }

  lemma EarlierGeneration(w: World, calls: seq<Call>, arms: ArmPair, m: Manifest, tasks: Tasks, p: Pair, g: nat)
    requires Finished(w, calls, arms, m, tasks, p, g)
    ensures p.0.generation < g
  {
  }

  lemma FreshGetFinished(w: World, calls: seq<Call>, scoring: seq<Call>, arms: ArmPair, m: Manifest, tasks: Tasks,
                         scored: seq<Pair>, g: nat)
    requires AllBelow(calls, g) && Scoring(scoring, g) && AllFresh(w, calls + scoring, arms, m, scored)
    requires Trialled(scored) && forall i :: 0 <= i < |scored| ==> scored[i].0.generation == g
    ensures AllFinished(w, calls + scoring + PhaseCalls(tasks, scored), arms, m, tasks, Map(scored, Counted(tasks)), g + 1)
  {
    hide Finished, Fresh, PhaseCalls, Trialled;
    forall k | 0 <= k < |calls + scoring|
      ensures !((calls + scoring)[k].Write? && (calls + scoring)[k].generation == g)
    {
      if k < |calls| { assert Below(calls[k], g); }
    }
    forall i | 0 <= i < |scored|
      ensures Finished(w, calls + scoring + PhaseCalls(tasks, scored), arms, m, tasks, Counted(tasks)(scored[i]), g + 1)
    {
      assert Fresh(w, calls + scoring, arms, m, scored[i]);
      FinishedNow(w, calls + scoring, arms, m, tasks, scored, g, i);
    }
  }

  // ---- a run that raises ---------------------------------------------------

  lemma JournalPrefixOfArm(s: Slot, labels: seq<Label>, x: seq<Call>, arm: Arm)
    requires x <= ArmWrites(s, labels)
    ensures Journal(x, arm) <= Journal(ArmWrites(s, labels), arm)
  {
    hide Journal;
    var rest := ArmWrites(s, labels)[|x|..];
    assert ArmWrites(s, labels) == x + rest;
    JournalConcat(x, rest, arm);
  }

  /** Cutting a signal short leaves the treatment's journal behind the control's, never ahead. */
  lemma PartialSignal(c: TrialRecord, t: TrialRecord, labels: seq<Label>, x: seq<Call>)
    requires c.arm == Control && t.arm == Treatment && SlotOf(t).(arm := Control) == SlotOf(c)
    requires x <= SignalCalls(c, t, labels)
    ensures Journal(x, Treatment) <= Journal(x, Control)
  {
    hide Journal, ArmWrites, Map, NoteFor;
    var a, b := ArmWrites(SlotOf(c), labels), ArmWrites(SlotOf(t), labels);
    JournalOfArm(SlotOf(c), labels, Treatment);
    JournalOfArm(SlotOf(c), labels, Control);
    JournalOfArm(SlotOf(t), labels, Control);
    JournalOfArm(SlotOf(t), labels, Treatment);
    if |x| <= |a| {
      assert x <= a;
      JournalPrefixOfArm(SlotOf(c), labels, x, Treatment);
    } else {
      var y := x[|a|..];
      assert x == a + y && y <= b;
      JournalConcat(a, y, Treatment);
      JournalConcat(a, y, Control);
      JournalPrefixOfArm(SlotOf(t), labels, y, Treatment);
      SignalIsSymmetric(c, t, labels);
      JournalConcat(a, b, Treatment);
      JournalConcat(a, b, Control);
    }
  }

  lemma {:induction false} PartialPhase(tasks: Tasks, pairs: seq<Pair>, x: seq<Call>)
    requires forall i :: 0 <= i < |pairs| ==> IsPair(pairs[i])
    requires x <= PhaseCalls(tasks, pairs)
    ensures Journal(x, Treatment) <= Journal(x, Control)
  {
    hide Journal, SignalCalls;
    if |pairs| == 0 {
      assert x == [];
      NoJournal();
    } else {
      var init, p := pairs[..|pairs| - 1], pairs[|pairs| - 1];
      var before := PhaseCalls(tasks, init);
      if |x| <= |before| {
        assert x <= before;
        PartialPhase(tasks, init, x);
      } else {
        var y := x[|before|..];
        assert x == before + y && y <= PairCalls(tasks, p);
        JournalsOfPhase(tasks, init);
        PartialSignal(p.0, p.1, PairLabels(tasks, p), y);
        JournalConcat(before, y, Treatment);
        JournalConcat(before, y, Control);
      }
    }
  }

  lemma NoJournal()
    ensures forall arm :: Journal([], arm) == []
  {
  }

  /** However far a generation got, the run is still safe. */
  lemma PartialIsSafe(calls: seq<Call>, scoring: seq<Call>, tasks: Tasks, scored: seq<Pair>, x: seq<Call>, g: nat)
    requires AllBelow(calls, g) && CleanGenerations(calls) && Balanced(calls) && Scoring(scoring, g)
    requires forall i :: 0 <= i < |scored| ==> IsPair(scored[i]) && scored[i].0.generation == g
    requires x <= PhaseCalls(tasks, scored)
    ensures Safe(calls + scoring + x, g + 1)
  {
    hide Journal, PhaseCalls, CleanGenerations;
    PhaseIsWriting(tasks, scored, g);
    ScoringKeepsOrder(calls, scoring, g);
    WritingKeepsOrder(calls + scoring, x, g);
    PartialPhase(tasks, scored, x);
    forall arm
      ensures Journal(calls + scoring + x, arm) == Journal(calls, arm) + [] + Journal(x, arm)
    {
      JournalConcat(calls + scoring, x, arm);
      JournalConcat(calls, scoring, arm);
      JournalOfScoring(scoring, g, arm);
    }
  }

  lemma SafeLater(calls: seq<Call>, g: nat, h: nat)
    requires Safe(calls, g) && g <= h
    ensures Safe(calls, h)
  {
    hide Journal, CleanGenerations;
    forall i | 0 <= i < |calls|
      ensures Below(calls[i], h)
    {
      assert Below(calls[i], g);
    }
  }

  // ---- the loop over generations -------------------------------------------

  ghost predicate Runnable(tasks: Tasks, orders: Orders) {
    forall g :: Registry(tasks, orders(g)) && UniqueIds(orders(g))
  }

  method RunGenerations(backend: Backend, arms: ArmPair, m: Manifest, tasks: Tasks, rnd: Randomness)
    returns (r: Result<seq<TrialRecord>, Failure>, ghost pairs: seq<Pair>)
    requires Runnable(tasks, rnd.orders)
    requires AllBelow(backend.calls, 0) && CleanGenerations(backend.calls)
    modifies backend
    ensures old(backend.calls) <= backend.calls && Safe(backend.calls, m.generations)
    ensures r.Ok? ==>
      && r.value == Flat(pairs)
      && RunSoFar(backend.world, backend.calls, arms, m, tasks, rnd.orders, pairs, m.generations)
  {
    hide RunSoFar, Safe, Scoring, AllFresh, Flat, Drained, Settled, Pending, PhaseCalls, TaskSlots, Counted, Registry;
    ghost var start := backend.calls;
    var records: seq<TrialRecord> := [];
    pairs := [];
    RunStarts(backend.world, start, arms, m, tasks, rnd.orders);
    for g := 0 to m.generations
      invariant start <= backend.calls
      invariant records == Flat(pairs)
      invariant RunSoFar(backend.world, backend.calls, arms, m, tasks, rnd.orders, pairs, g)
    {
      ghost var before := backend.calls;
      var so, scored := ScoreGeneration(backend, arms, m, tasks, g, rnd);
      ghost var middle := backend.calls;
      ghost var scoring := middle[|before|..];
      assert middle == before + scoring;
      if so.Err? {
        CutWhileScoring(backend.world, before, scoring, arms, m, tasks, rnd.orders, pairs, g);
        SafeLater(middle, g + 1, m.generations);
        return Err(so.error), pairs;
      }
      PendingInRange(tasks, scored);
      var done := WriteFeedback(backend, so.value);
      DrainedIsPhase(tasks, scored);
      ghost var written := backend.calls[|middle|..];
      assert backend.calls == before + scoring + written;
      if done.Err? {
        CutWhileWriting(backend.world, before, scoring, arms, m, tasks, rnd.orders, pairs, scored, written, g);
        SafeLater(backend.calls, g + 1, m.generations);
        return Err(done.error), pairs;
      }
      NextGeneration(backend.world, before, scoring, arms, m, tasks, rnd.orders, pairs, scored, g);
      FreshCounts(backend.world, middle, arms, m, scored);
      SettledIsCounted(tasks, scored);
      FlatConcat(pairs, Map(scored, Counted(tasks)));
      records := records + done.value;
      pairs := pairs + Map(scored, Counted(tasks));
    }
    r := Ok(records);
    RunIsSafe(backend.world, backend.calls, arms, m, tasks, rnd.orders, pairs, m.generations);
  }

  lemma RunStarts(w: World, calls: seq<Call>, arms: ArmPair, m: Manifest, tasks: Tasks, orders: Orders)
    requires AllBelow(calls, 0) && CleanGenerations(calls)
    ensures RunSoFar(w, calls, arms, m, tasks, orders, [], 0) && Flat([]) == []
  {
    forall arm
      ensures Journal(calls, arm) == []
    {
      assert forall i :: 0 <= i < |calls| ==> Below(calls[i], 0);
      FilterNone(calls, WrittenBy(arm));
    }
  }

  lemma RunIsSafe(w: World, calls: seq<Call>, arms: ArmPair, m: Manifest, tasks: Tasks, orders: Orders, pairs: seq<Pair>, g: nat)
    requires RunSoFar(w, calls, arms, m, tasks, orders, pairs, g)
    ensures Safe(calls, g)
  {
    hide Journal, CleanGenerations, AllBelow, AllFinished;
  }

  lemma CutWhileScoring(w: World, calls: seq<Call>, scoring: seq<Call>, arms: ArmPair, m: Manifest, tasks: Tasks,
                        orders: Orders, pairs: seq<Pair>, g: nat)
    requires RunSoFar(w, calls, arms, m, tasks, orders, pairs, g) && Scoring(scoring, g)
    ensures Safe(calls + scoring, g + 1)
  {
    hide Journal, CleanGenerations, AllBelow, AllFinished, Scoring;
    PartialIsSafe(calls, scoring, tasks, [], [], g);
    assert calls + scoring + [] == calls + scoring;
  }

  lemma CutWhileWriting(w: World, calls: seq<Call>, scoring: seq<Call>, arms: ArmPair, m: Manifest, tasks: Tasks,
                        orders: Orders, pairs: seq<Pair>, scored: seq<Pair>, written: seq<Call>, g: nat)
    requires RunSoFar(w, calls, arms, m, tasks, orders, pairs, g) && Scoring(scoring, g)
    requires AllFresh(w, calls + scoring, arms, m, scored) && UniqueIds(orders(g))
    requires Map(scored, ControlSlot()) == TaskSlots(orders(g), g, m.repetitions)
    requires written <= PhaseCalls(tasks, scored)
    ensures Safe(calls + scoring + written, g + 1)
  {
    hide Journal, CleanGenerations, AllBelow, AllFinished, Scoring, AllFresh, Trialled, PhaseCalls, TaskSlots;
    SlotsAreTrials(w, calls + scoring, arms, m, scored, orders(g), g);
    TrialsArePairs(scored);
    PartialIsSafe(calls, scoring, tasks, scored, written, g);
  }

  lemma FreshCounts(w: World, calls: seq<Call>, arms: ArmPair, m: Manifest, scored: seq<Pair>)
    requires AllFresh(w, calls, arms, m, scored)
    ensures forall i :: 0 <= i < |scored| ==> scored[i].0.feedbackWrites == scored[i].1.feedbackWrites == 0
  {
    hide FromOneTrial;
    forall i | 0 <= i < |scored|
      ensures scored[i].0.feedbackWrites == scored[i].1.feedbackWrites == 0
    {
      assert Fresh(w, calls, arms, m, scored[i]);
    }
  }

  lemma {:induction false} FlatConcat(a: seq<Pair>, b: seq<Pair>)
    ensures Flat(a + b) == Flat(a) + Flat(b)
  {
    if |b| == 0 {
      assert a + b == a;
    } else {
      var init, last := b[..|b| - 1], b[|b| - 1];
      assert a + b == (a + init) + [last] && b == init + [last];
      FlatConcat(a, init);
      FlatSnoc(a + init, last);
      FlatSnoc(init, last);
    }
  }
}
