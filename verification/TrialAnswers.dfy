/** What a trial demands, records and writes, in terms of the envelopes and records only (eval/bootstrap_ab.py). */
module TrialAnswers {
  import opened Base
  import opened Trials
  import opened Experiment
  import opened Feedback
  import opened ExperimentRun
  import opened ExperimentResult
  import E = PairedEffect
  import G = Gate
  import M = Metrics
  import opened Schedule
  import R = ExperimentReport

  // ---- which trials count -----------------------------------------------------------------

  function Size(x: real): real {
    if x < 0.0 then -x else x
  }

  /** The two numbers differ by at most a billionth of the larger one, or by at most 10^-12. */
  predicate Near(a: real, b: real) {
    var d := Size(a - b);
    d <= 0.000000001 * Size(a) || d <= 0.000000001 * Size(b) || d <= 0.000000000001
  }

  lemma NearMeans(a: real, b: real)
    ensures IsClose(a, b) <==> Near(a, b)
  {
    assert 0.000000001 * MaxReal(Abs(a), Abs(b)) == MaxReal(0.000000001 * Abs(a), 0.000000001 * Abs(b));
  }

  /**
   * The envelope's stamp is the trial's: a recall that failed claims no selection, and one that answered used the seed, floor,
   * pool and reinforcement that were registered.
   */
  predicate Stamped(e: Envelope, h: Handle, m: Manifest, seed: int) {
    if !e.recallOk then e.policy.None? && e.declared.None?
    else
      && e.policy.Some? && e.policy.value.evaluationSeed == Some(seed)
      && e.policy.value.floor.Some? && Near(e.policy.value.floor.value, m.explorationFloor)
      && e.policy.value.pool == Some(m.candidatePoolK)
      && e.policy.value.ranking.Some? && e.policy.value.ranking.value.reinforce == Some(h.influence)
  }

  lemma StampedMeans(e: Envelope, h: Handle, m: Manifest, seed: int)
    ensures Validated(e, h, m, seed).Ok? <==> Stamped(e, h, m, seed)
    ensures Stamped(e, h, m, seed) ==>
              Validated(e, h, m, seed).value == if !e.recallOk then None else
                Some((Some(seed), e.policy.value.floor, Some(m.candidatePoolK), e.policy.value.other, e.policy.value.ranking.value.common))
  {
    if e.policy.Some? && e.policy.value.floor.Some? { NearMeans(e.policy.value.floor.value, m.explorationFloor); }
    hide IsClose, Near;
  }

  /**
   * A trial counts exactly when each arm was answered as its own agent in its own context, both stamps are the trial's, and the
   * envelopes differ at most in the reinforcement: the same floor, the same other settings of selection and ranking when both
   * recalls answered, and the same rest.
   */
  lemma ComparableMeans(pair: ArmPair, m: Manifest, seed: int, c: Envelope, t: Envelope)
    ensures Comparable(pair, m, seed, c, t) <==>
              && c.agentId == pair.control.agentId && c.contextId == pair.control.contextId
              && t.agentId == pair.treatment.agentId && t.contextId == pair.treatment.contextId
              && Stamped(c, pair.control, m, seed) && Stamped(t, pair.treatment, m, seed)
              && (c.recallOk && t.recallOk ==>
                    && c.policy.value.floor == t.policy.value.floor && c.policy.value.other == t.policy.value.other
                    && c.policy.value.ranking.value.common == t.policy.value.ranking.value.common)
              && c.nonRanking == t.nonRanking
  {
    StampedMeans(c, pair.control, m, seed);
    StampedMeans(t, pair.treatment, m, seed);
    hide Validated;
  }

  /** The arms that are accepted: one of each kind, only the treatment under influence, and nothing shared but the snapshot. */
  lemma ArmsMean(pair: ArmPair, m: Manifest)
    ensures ValidPair(pair, m) <==>
              && (pair.For(Control).arm, pair.For(Treatment).arm) == (Control, Treatment)
              && (pair.For(Control).influence, pair.For(Treatment).influence) == (false, true)
              && (forall arm: Arm :: pair.For(arm).fingerprint == m.fingerprint)
              && pair.For(Control).agentId != pair.For(Treatment).agentId
              && pair.For(Control).contextId != pair.For(Treatment).contextId
              && pair.For(Control).journal != pair.For(Treatment).journal
  {
    assert pair.For(Control) == pair.control && pair.For(Treatment) == pair.treatment;
  }

  /** The trial's bootstraps are calls `i` and `i + 1`, and each record holds what the envelope of its own arm says. */
  ghost predicate RecordedAt(w: World, calls: seq<Call>, c: TrialRecord, t: TrialRecord, i: nat)
    requires i + 4 <= |calls|
  {
    var ec, et := w.boot(calls[..i], calls[i]), w.boot(calls[..i + 1], calls[i + 1]);
    && ec.Some? && et.Some? && c.arm == Control && t.arm == Treatment
    && calls[i] == Boot(Control, c.taskId, c.generation, c.repetition, c.seed)
    && calls[i + 1] == Boot(Treatment, c.taskId, c.generation, c.repetition, c.seed)
    && t.taskId == c.taskId && t.generation == c.generation && t.repetition == c.repetition && t.seed == c.seed
    && Holds(c, ec.value) && Holds(t, et.value)
  }

  predicate Holds(r: TrialRecord, e: Envelope) {
    r.degraded == e.degraded && r.failures == e.failures && r.selected == e.selected && r.declared == e.declared
  }

  lemma RecordMeans(w: World, calls: seq<Call>, pair: ArmPair, m: Manifest, c: TrialRecord, t: TrialRecord)
    requires FromOneTrial(w, calls, pair, m, c, t)
    ensures exists i: nat :: i + 4 <= |calls| && RecordedAt(w, calls, c, t, i)
  {
    var i: nat, first: bool :| i + 4 <= |calls| && TrialAt(w, calls, pair, m, c, t, i, first);
    hide Comparable;
    var own := calls[i..i + 4];
    assert own[0] == calls[i] && own[1] == calls[i + 1];
    SameFields(c, w.boot(calls[..i], calls[i]).value);
    SameFields(t, w.boot(calls[..i + 1], calls[i + 1]).value);
    assert RecordedAt(w, calls, c, t, i);
  }

  lemma SameFields(r: TrialRecord, e: Envelope)
    requires r.(feedbackWrites := 0) == RecordOf(SlotOf(r), r.seed, e, r.score)
    ensures Holds(r, e)
  {
    var plain := r.(feedbackWrites := 0);
    assert plain.degraded == r.degraded && plain.failures == r.failures && plain.selected == r.selected && plain.declared == r.declared;
  }

  /** The actor's score is taken as it is when it lies in [0, 1], both included; any other observation cannot be built. */
  lemma ScoreMeans(score: Option<real>)
    ensures (score.Some? && 0.0 <= score.value && score.value <= 1.0 ==> InUnit(score) == score)
    ensures (score.None? || score.value < 0.0 || score.value > 1.0 ==> InUnit(score) == None)
  {
  }

  // ---- what is written ------------------------------------------------------------------------

  /** The trial labels the memory so: a candidate of its task that either arm selected, helpful when it is the gold one. */
  ghost predicate IsLabelled(tasks: Tasks, c: TrialRecord, t: TrialRecord, memory: string, helpful: bool) {
    && !c.degraded && !t.degraded && c.taskId in tasks
    && memory in tasks[c.taskId].candidates && (memory in c.selected || memory in t.selected)
    && (helpful <==> memory == tasks[c.taskId].gold)
  }

  lemma LabelsMean(tasks: Tasks, c: TrialRecord, t: TrialRecord, memory: string, helpful: bool)
    ensures (memory, helpful) in Labels(tasks, c, t) <==> IsLabelled(tasks, c, t, memory, helpful)
  {
    if !c.degraded && !t.degraded && c.taskId in tasks {
      var task := tasks[c.taskId];
      var kept := Filter(task.candidates, InEither(c.selected, t.selected));
      FilterMembers(task.candidates, InEither(c.selected, t.selected));
      hide Filter;
      var labels := Map(kept, Marked(task.gold));
      if (memory, helpful) in labels {
        var i :| 0 <= i < |labels| && labels[i] == (memory, helpful);
        assert kept[i] in kept;
      }
      if IsLabelled(tasks, c, t, memory, helpful) {
        assert memory in kept;
        var i :| 0 <= i < |kept| && kept[i] == memory;
        assert labels[i] == (memory, helpful);
      }
    }
  }

  lemma ArmWritesMean(s: Slot, labels: seq<Label>, call: Call)
    ensures call in ArmWrites(s, labels) <==>
              call.Write? && Slot(call.arm, call.task, call.generation, call.repetition) == s && (call.memory, call.helpful) in labels
  {
    var writes := ArmWrites(s, labels);
    if call in writes {
      var i :| 0 <= i < |writes| && writes[i] == call;
      assert labels[i] in labels;
    }
    if call.Write? && (call.memory, call.helpful) in labels {
      var i :| 0 <= i < |labels| && labels[i] == (call.memory, call.helpful);
      assert writes[i] == Write(s.arm, s.task, s.generation, s.repetition, call.memory, call.helpful);
    }
  }

  /** The call writes a label of this trial, into the journal of one of its arms. */
  ghost predicate WritesFor(tasks: Tasks, p: Pair, call: Call) {
    && call.Write? && IsLabelled(tasks, p.0, p.1, call.memory, call.helpful)
    && (SlotOf(p.0) == Slot(call.arm, call.task, call.generation, call.repetition)
        || SlotOf(p.1) == Slot(call.arm, call.task, call.generation, call.repetition))
  }

  /** A generation writes exactly the labels of its trials, in both journals. */
  lemma {:induction false} WritesMean(tasks: Tasks, pairs: seq<Pair>, call: Call)
    ensures call in PhaseCalls(tasks, pairs) <==> exists i :: 0 <= i < |pairs| && WritesFor(tasks, pairs[i], call)
  {
    if |pairs| != 0 {
      var init, last := pairs[..|pairs| - 1], pairs[|pairs| - 1];
      WritesMean(tasks, init, call);
      var labels := PairLabels(tasks, last);
      ArmWritesMean(SlotOf(last.0), labels, call);
      ArmWritesMean(SlotOf(last.1), labels, call);
      if call.Write? { LabelsMean(tasks, last.0, last.1, call.memory, call.helpful); }
      hide Labels, ArmWrites, IsLabelled;
      assert forall i :: 0 <= i < |init| ==> pairs[i] == init[i];
      assert pairs[|pairs| - 1] == last;
    }
  }

  // ---- what is refused before anything runs --------------------------------------------------------

  predicate Outside(x: real, lo: real, hi: real) {
    x < lo || x > hi
  }

  /** A manifest is refused exactly for too few generations or repetitions, a primary generation that is none, or a threshold. */
  lemma ManifestMeans(m: Manifest)
    ensures !ValidManifest(m) <==>
              || m.generations < 2 || m.repetitions < 1 || (m.primary.Some? && m.primary.value >= m.generations)
              || Outside(m.thresholds.deltaMin, -1.0, 1.0) || m.thresholds.confidence <= 0.5 || m.thresholds.confidence >= 1.0
              || m.thresholds.resamples < 100
              || Outside(m.thresholds.maxDegradedRate, 0.0, 1.0) || Outside(m.thresholds.maxTailRegression, 0.0, 1.0)
              || Outside(m.thresholds.maxEntropyDrop, 0.0, 1.0) || Outside(m.thresholds.utilityFlatTolerance, 0.0, 1.0)
              || Outside(m.thresholds.maxGoodhartDecline, 0.0, 1.0)
  {
  }

  /**
   * A corpus is refused exactly for fewer than twenty tasks, an id used twice, no tail task, no held-out task, a candidate or a
   * gold memory that is not in the snapshot, a gold memory used twice, or one of the checks that are not modelled.
   */
  lemma CorpusMeans(c: R.Corpus)
    ensures !R.ValidCorpus(c) <==>
              || |c.tasks| < 20 || !c.consistent
              || (exists i, j :: 0 <= i < j < |c.tasks| && c.tasks[i].id == c.tasks[j].id)
              || (forall i :: 0 <= i < |c.tasks| ==> !c.tasks[i].tail)
              || (forall i :: 0 <= i < |c.tasks| ==> !c.tasks[i].heldOut)
              || (exists i, id :: 0 <= i < |c.tasks| && id in c.tasks[i].candidates && id !in c.memoryIds)
              || (exists i :: 0 <= i < |c.tasks| && c.tasks[i].gold !in c.memoryIds)
              || (exists i, j :: 0 <= i < j < |c.tasks| && c.tasks[i].gold == c.tasks[j].gold)
  {
    assert forall i :: 0 <= i < |c.tasks| ==> c.tasks[i] in c.tasks;
    if forall i :: 0 <= i < |c.tasks| ==> !c.tasks[i].tail {
      assert forall t :: t in c.tasks ==> !t.tail;
    }
    if forall i :: 0 <= i < |c.tasks| ==> !c.tasks[i].heldOut {
      assert forall t :: t in c.tasks ==> !t.heldOut;
    }
  }

  // ---- what holds of the calls, and of a report ----------------------------------------------------

  /**
   * Whatever happens: a bootstrap sees every write of the generations before its own and none of its own or a later one, and
   * what the treatment's journal has was written to the control's first.
   */
  lemma CallsMean(calls: seq<Call>, generations: nat, i: nat, j: nat)
    requires Safe(calls, generations) && i < |calls| && j < |calls| && calls[i].Write? && calls[j].Boot?
    ensures i < j <==> calls[i].generation < calls[j].generation
    ensures calls[i].generation < generations && calls[j].generation < generations
    ensures Journal(calls, Treatment) == Journal(calls, Control)[..|Journal(calls, Treatment)|]
  {
    hide Journal;
    assert Below(calls[i], generations) && Below(calls[j], generations);
    if i < j { assert InOrder(calls[i], calls[j]); } else { assert InOrder(calls[j], calls[i]); }
  }

  /**
   * A report is of the run: its records are those of the trials, in order; each carries the number of labels written for it;
   * its effect is of the primary generation, the last one unless another is registered; and its verdict is the gate's on them.
   */
  lemma ReportMeans(report: R.Report, w: World, calls: seq<Call>, m: Manifest, c: R.Corpus, rnd: Randomness, draw: E.Draw,
                    entropy: M.Entropy, pairs: seq<Pair>, i: nat)
    requires ValidManifest(m) && E.IsRandrange(draw) && w.prepare.Some? && i < |pairs|
    requires R.Faithful(report, w, calls, m, c, rnd, draw, entropy, pairs)
    ensures |report.records| == 2 * |pairs| && report.records[2 * i] == pairs[i].0 && report.records[2 * i + 1] == pairs[i].1
    ensures pairs[i].0.feedbackWrites == |Written(calls, SlotOf(pairs[i].0))|
    ensures pairs[i].1.feedbackWrites == |Written(calls, SlotOf(pairs[i].1))|
    ensures report.effect.generation == (if m.primary.Some? then m.primary.value else m.generations - 1)
    ensures report.metrics == M.GenerationMetrics(report.records, R.TaskMap(c.tasks), c.memoryIds, entropy)
    ensures G.Judged(report.verdict, report.effect.ciLower, report.metrics, m.thresholds, m.host)
    ensures Journal(calls, Treatment) == Journal(calls, Control)
  {
    hide RunSoFar, Written, Journal, Flat, G.Judged, M.GenerationMetrics, R.TaskMap, E.EffectOf;
    FlatAt(pairs, i);
    TrialOf(w, calls, w.prepare.value, m, R.TaskMap(c.tasks), rnd.orders, pairs, i);
    EffectGeneration(report.records, m.thresholds, R.Primary(m), draw);
  }

  lemma TrialOf(w: World, calls: seq<Call>, arms: ArmPair, m: Manifest, tasks: Tasks, orders: Orders, pairs: seq<Pair>, i: nat)
    requires RunSoFar(w, calls, arms, m, tasks, orders, pairs, m.generations) && i < |pairs|
    ensures pairs[i].0.feedbackWrites == |Written(calls, SlotOf(pairs[i].0))|
    ensures pairs[i].1.feedbackWrites == |Written(calls, SlotOf(pairs[i].1))|
    ensures Journal(calls, Treatment) == Journal(calls, Control)
  {
    hide FromOneTrial, Written, Journal, PairLabels, Plan;
    assert Finished(w, calls, arms, m, tasks, pairs[i], m.generations);
  }

  lemma EffectGeneration(records: seq<TrialRecord>, t: Thresholds, g: nat, draw: E.Draw)
    requires Registered(t) && E.IsRandrange(draw)
    ensures var r := E.EffectOf(records, t, g, draw); r.Ok? ==> r.value.generation == g
  {
    hide E.Samples, E.Difference, E.TaskIds, E.FirstUnpaired;
  }

  lemma {:induction false} FlatAt(pairs: seq<Pair>, i: nat)
    requires i < |pairs|
    ensures Flat(pairs)[2 * i] == pairs[i].0 && Flat(pairs)[2 * i + 1] == pairs[i].1
  {
    if i < |pairs| - 1 { FlatAt(pairs[..|pairs| - 1], i); }
  }
}
