/** The gate's verdict, in terms of the entries of the metrics only (eval/bootstrap_ab.py, `_gate`). */
module GateAnswers {
  import opened Base
  import opened Metrics
  import opened NatOrder
  import opened Trials
  import opened Gate
  import Q = Quantiles

  /** One entry for an arm and generation, as in the metrics of a run. */
  ghost predicate OneEach(ms: seq<Generation>) {
    forall i, j :: 0 <= i < j < |ms| ==> ms[i].arm != ms[j].arm || ms[i].generation != ms[j].generation
  }

  /** Some generation's tail score falls further below the control's than allowed. */
  ghost predicate TailFalls(ms: seq<Generation>, t: Thresholds) {
    exists i, j :: 0 <= i < |ms| && 0 <= j < |ms| && ms[i].arm == Control && ms[j].arm == Treatment
      && ms[i].generation == ms[j].generation && ms[i].tailSuccess.Some? && ms[j].tailSuccess.Some?
      && ms[i].tailSuccess.value - ms[j].tailSuccess.value > t.maxTailRegression
  }

  /** From the first generation to a later one the treatment's entropy falls too far, and its success does not grow with it. */
  ghost predicate Narrows(ms: seq<Generation>, t: Thresholds) {
    exists i, j :: 0 <= i < |ms| && 0 <= j < |ms| && ms[i].arm == Treatment && ms[j].arm == Treatment
      && (forall k :: 0 <= k < |ms| ==> ms[i].generation <= ms[k].generation) && ms[i].generation < ms[j].generation
      && ms[i].entropy - ms[j].entropy > t.maxEntropyDrop
      && ms[j].taskSuccess <= ms[i].taskSuccess + t.utilityFlatTolerance
  }

  /** The treatment's held-out score falls too far from an earlier generation to a later one. */
  ghost predicate FallsBack(ms: seq<Generation>, t: Thresholds) {
    exists i, j :: 0 <= i < |ms| && 0 <= j < |ms| && ms[i].arm == Treatment && ms[j].arm == Treatment
      && ms[i].generation < ms[j].generation && ms[i].heldOutSuccess.Some? && ms[j].heldOutSuccess.Some?
      && ms[i].heldOutSuccess.value - ms[j].heldOutSuccess.value > t.maxGoodhartDecline
  }

  ghost predicate AllPositive(ms: seq<Generation>) {
    forall i :: 0 <= i < |ms| && ms[i].arm == Treatment ==> ms[i].minProbability.Some? && ms[i].minProbability.value > 0.0
  }

  lemma CellIs(ms: seq<Generation>, i: nat)
    requires OneEach(ms) && i < |ms|
    ensures Cell(ms, ms[i].arm, ms[i].generation) == Some(ms[i])
  {
    CellUnique(ms, ms[i].arm, ms[i].generation, i);
  }

  lemma CellFrom(ms: seq<Generation>, arm: Arm, g: nat) returns (i: nat)
    requires Cell(ms, arm, g).Some?
    ensures i < |ms| && ms[i] == Cell(ms, arm, g).value && ms[i].arm == arm && ms[i].generation == g
  {
    CellFound(ms, arm, g);
    i :| 0 <= i < |ms| && ms[i] == Cell(ms, arm, g).value;
  }

  lemma GenerationIn(ms: seq<Generation>, i: nat)
    requires i < |ms|
    ensures ms[i].generation in Ordered(Generations(ms))
  {
    assert ms[i] in ms;
  }

  lemma TailMeans(ms: seq<Generation>, t: Thresholds, x: real)
    requires OneEach(ms) && t.maxTailRegression >= 0.0 && IsMaxGap(ms, Ordered(Generations(ms)), x)
    ensures x > t.maxTailRegression <==> TailFalls(ms, t)
  {
    hide Cell, Ordered;
    var gs := Ordered(Generations(ms));
    if x > t.maxTailRegression {
      var g :| g in gs && TailGap(ms, g) == Some(x);
      var i := CellFrom(ms, Control, g);
      var j := CellFrom(ms, Treatment, g);
    }
    if i, j :| 0 <= i < |ms| && 0 <= j < |ms| && ms[i].arm == Control && ms[j].arm == Treatment
               && ms[i].generation == ms[j].generation && ms[i].tailSuccess.Some? && ms[j].tailSuccess.Some?
               && ms[i].tailSuccess.value - ms[j].tailSuccess.value > t.maxTailRegression {
      CellIs(ms, i);
      CellIs(ms, j);
      GenerationIn(ms, i);
      assert TailGap(ms, ms[i].generation) == Some(ms[i].tailSuccess.value - ms[j].tailSuccess.value);
    }
  }

  lemma FirstIsLeast(ms: seq<Generation>, k: nat)
    requires k < |ms|
    ensures var gs := Ordered(Generations(ms)); |gs| > 0 && gs[0] <= ms[k].generation
  {
    GenerationIn(ms, k);
    var gs := Ordered(Generations(ms));
    var n :| 0 <= n < |gs| && gs[n] == ms[k].generation;
  }

  lemma NarrowsMeans(ms: seq<Generation>, t: Thresholds)
    requires OneEach(ms)
    ensures AnyCollapse(ms, Ordered(Generations(ms)), t) <==> Narrows(ms, t)
  {
    hide OneEach, Ordered, Cell;
    if AnyCollapse(ms, Ordered(Generations(ms)), t) { NarrowsFrom(ms, t); }
    if Narrows(ms, t) { NarrowsTo(ms, t); }
  }

  lemma NarrowsFrom(ms: seq<Generation>, t: Thresholds)
    requires AnyCollapse(ms, Ordered(Generations(ms)), t)
    ensures Narrows(ms, t)
  {
    hide OneEach, Ordered, Cell;
    var gs := Ordered(Generations(ms));
    var n :| 1 <= n < |gs| && CollapsesAt(ms, gs[0], gs[n], t);
    var i := CellFrom(ms, Treatment, gs[0]);
    var j := CellFrom(ms, Treatment, gs[n]);
    Increasing(Generations(ms), 0, n);
    forall k | 0 <= k < |ms|
      ensures ms[i].generation <= ms[k].generation
    {
      FirstIsLeast(ms, k);
    }
  }

  lemma NarrowsTo(ms: seq<Generation>, t: Thresholds)
    requires OneEach(ms) && Narrows(ms, t)
    ensures AnyCollapse(ms, Ordered(Generations(ms)), t)
  {
    var gs := Ordered(Generations(ms));
    var i, j :| 0 <= i < |ms| && 0 <= j < |ms| && ms[i].arm == Treatment && ms[j].arm == Treatment
                && (forall k :: 0 <= k < |ms| ==> ms[i].generation <= ms[k].generation)
                && ms[i].generation < ms[j].generation && ms[i].entropy - ms[j].entropy > t.maxEntropyDrop
                && ms[j].taskSuccess <= ms[i].taskSuccess + t.utilityFlatTolerance;
    hide OneEach, Ordered, Cell;
    CellIs(ms, i);
    CellIs(ms, j);
    GenerationIn(ms, j);
    FirstIsLeast(ms, i);
    assert gs[0] in gs;
    FirstIs(ms, gs[0], i);
    var n :| 0 <= n < |gs| && gs[n] == ms[j].generation;
    assert CollapsesAt(ms, gs[0], gs[n], t);
  }

  lemma FirstIs(ms: seq<Generation>, g: nat, i: nat)
    requires g in Ordered(Generations(ms)) && i < |ms| && g <= ms[i].generation
    requires forall k :: 0 <= k < |ms| ==> ms[i].generation <= ms[k].generation
    ensures g == ms[i].generation
  {
    var m :| m in ms && m.generation == g;
    var k :| 0 <= k < |ms| && ms[k] == m;
  }

  /** The held-out score of the treatment in one generation. */
  lemma HeldOutIs(ms: seq<Generation>, i: nat)
    requires OneEach(ms) && i < |ms| && ms[i].arm == Treatment
    ensures HeldOutAt(ms, ms[i].generation) == ms[i].heldOutSuccess
  {
    CellIs(ms, i);
  }

  lemma HeldOutFrom(ms: seq<Generation>, g: nat) returns (i: nat)
    requires HeldOutAt(ms, g).Some?
    ensures i < |ms| && ms[i].arm == Treatment && ms[i].generation == g && ms[i].heldOutSuccess == HeldOutAt(ms, g)
  {
    i := CellFrom(ms, Treatment, g);
  }

  lemma OrderedBefore(ms: seq<Generation>, i: nat, j: nat) returns (a: nat, b: nat)
    requires i < |ms| && j < |ms| && ms[i].generation < ms[j].generation
    ensures var gs := Ordered(Generations(ms)); a < b < |gs| && gs[a] == ms[i].generation && gs[b] == ms[j].generation
  {
    var gs := Ordered(Generations(ms));
    GenerationIn(ms, i);
    GenerationIn(ms, j);
    a :| 0 <= a < |gs| && gs[a] == ms[i].generation;
    b :| 0 <= b < |gs| && gs[b] == ms[j].generation;
  }

  lemma FallsBackMeans(ms: seq<Generation>, t: Thresholds)
    requires OneEach(ms) && t.maxGoodhartDecline >= 0.0
    requires forall i :: 0 <= i < |ms| && ms[i].heldOutSuccess.Some? ==> ms[i].heldOutSuccess.value >= -1.0
    ensures Declines(ms, Ordered(Generations(ms)), t.maxGoodhartDecline) <==> FallsBack(ms, t)
  {
    hide HeldOutAt, Declines, Ordered, OneEach, FallsBack;
    var gs, drop := Ordered(Generations(ms)), t.maxGoodhartDecline;
    forall g | g in gs && HeldOutAt(ms, g).Some?
      ensures HeldOutAt(ms, g).value >= -1.0
    {
      var i := HeldOutFrom(ms, g);
    }
    GoodhartIsDecline(ms, gs, drop);
    if Declines(ms, gs, drop) {
      var a, b :| 0 <= a < b < |gs| && HeldOutAt(ms, gs[a]).Some? && HeldOutAt(ms, gs[b]).Some?
                  && HeldOutAt(ms, gs[a]).value - HeldOutAt(ms, gs[b]).value > drop;
      FallsBackFrom(ms, t, a, b);
    }
    if FallsBack(ms, t) {
      var a, b := FallsBackTo(ms, t);
    }
  }

  lemma FallsBackFrom(ms: seq<Generation>, t: Thresholds, a: nat, b: nat)
    requires a < b < |Ordered(Generations(ms))|
    requires var gs := Ordered(Generations(ms));
      HeldOutAt(ms, gs[a]).Some? && HeldOutAt(ms, gs[b]).Some?
      && HeldOutAt(ms, gs[a]).value - HeldOutAt(ms, gs[b]).value > t.maxGoodhartDecline
    ensures FallsBack(ms, t)
  {
    hide HeldOutAt, Ordered;
    var gs := Ordered(Generations(ms));
    var i := HeldOutFrom(ms, gs[a]);
    var j := HeldOutFrom(ms, gs[b]);
    Increasing(Generations(ms), a, b);
  }

  lemma FallsBackTo(ms: seq<Generation>, t: Thresholds) returns (a: nat, b: nat)
    requires OneEach(ms) && FallsBack(ms, t)
    ensures var gs := Ordered(Generations(ms));
            && a < b < |gs| && HeldOutAt(ms, gs[a]).Some? && HeldOutAt(ms, gs[b]).Some?
            && HeldOutAt(ms, gs[a]).value - HeldOutAt(ms, gs[b]).value > t.maxGoodhartDecline
  {
    hide HeldOutAt, Ordered, OneEach;
    var i, j :| 0 <= i < |ms| && 0 <= j < |ms| && ms[i].arm == Treatment && ms[j].arm == Treatment
                && ms[i].generation < ms[j].generation && ms[i].heldOutSuccess.Some? && ms[j].heldOutSuccess.Some?
                && ms[i].heldOutSuccess.value - ms[j].heldOutSuccess.value > t.maxGoodhartDecline;
    HeldOutIs(ms, i);
    HeldOutIs(ms, j);
    a, b := OrderedBefore(ms, i, j);
  }

  lemma Increasing(s: set<nat>, a: nat, b: nat)
    requires a < b < |Ordered(s)|
    ensures Ordered(s)[a] < Ordered(s)[b]
  {
    hide Ordered;
  }

  lemma PositiveMeans(ms: seq<Generation>)
    requires OneEach(ms) && forall g :: g in Ordered(Generations(ms)) ==> Cell(ms, Treatment, g).Some?
    ensures (forall g :: g in Ordered(Generations(ms)) ==> PositiveAt(ms, g)) <==> AllPositive(ms)
  {
    hide Cell, Ordered;
    var gs := Ordered(Generations(ms));
    if forall g :: g in gs ==> PositiveAt(ms, g) {
      forall i | 0 <= i < |ms| && ms[i].arm == Treatment
        ensures ms[i].minProbability.Some? && ms[i].minProbability.value > 0.0
      {
        CellIs(ms, i);
        GenerationIn(ms, i);
        assert PositiveAt(ms, ms[i].generation);
      }
    }
    if AllPositive(ms) {
      forall g | g in gs
        ensures PositiveAt(ms, g)
      {
        var i := CellFrom(ms, Treatment, g);
      }
    }
  }

  /**
   * On the metrics of any run, default-on is allowed exactly when the interval clears the margin, the feedback is the host's,
   * no entry is degraded too often, the treatment's tail never falls too far below the control's, its choices do not narrow
   * without gain, its held-out score never falls back too far, and every chance it declared is positive.
   */
  lemma DefaultOnAnswers(v: Verdict, ciLower: real, ms: seq<Generation>, t: Thresholds, host: bool)
    requires Registered(t) && Complete(ms) && OneEach(ms) && Judged(v, ciLower, ms, t, host)
    requires forall i :: 0 <= i < |ms| && ms[i].heldOutSuccess.Some? ==> ms[i].heldOutSuccess.value >= -1.0
    ensures v.defaultOn <==>
              && ciLower > t.deltaMin && host
              && (forall i :: 0 <= i < |ms| ==> ms[i].degradedRate <= t.maxDegradedRate)
              && !TailFalls(ms, t) && !Narrows(ms, t) && !FallsBack(ms, t) && AllPositive(ms)
  {
    DefaultOnMeans(v, ciLower, ms, t, host);
    CompleteMeans(ms);
    TailMeans(ms, t, v.maxTailRegression);
    NarrowsMeans(ms, t);
    FallsBackMeans(ms, t);
    PositiveMeans(ms);
    hide Ordered, AnyCollapse, Declines, PositiveAt, IsMaxGap, TailFalls, Narrows, FallsBack, AllPositive, Cell, Complete;
    assert forall i :: 0 <= i < |ms| ==> ms[i] in ms;
  }

  /** The metrics of any records with scores in [0, 1] are such a list. */
  lemma RunMetricsFit(records: seq<TrialRecord>, tasks: Tasks, universe: seq<string>, entropy: Entropy, i: nat)
    requires forall r :: r in records ==> Unit(r.score)
    requires i < |GenerationMetrics(records, tasks, universe, entropy)|
    ensures var ms := GenerationMetrics(records, tasks, universe, entropy);
            OneEach(ms) && (ms[i].heldOutSuccess.Some? ==> ms[i].heldOutSuccess.value >= -1.0)
  {
    CoverIsOneEach(records, tasks, universe, entropy);
    EntryHeldOut(records, tasks, universe, entropy, i);
    hide *;
  }

  lemma CoverIsOneEach(records: seq<TrialRecord>, tasks: Tasks, universe: seq<string>, entropy: Entropy)
    ensures OneEach(GenerationMetrics(records, tasks, universe, entropy))
  {
    hide CellKey, Keys, GenerationMetrics;
    MetricsCover(records, tasks, universe, entropy, Control, 0);
  }

  lemma EntryHeldOut(records: seq<TrialRecord>, tasks: Tasks, universe: seq<string>, entropy: Entropy, i: nat)
    requires forall r :: r in records ==> Unit(r.score)
    requires i < |GenerationMetrics(records, tasks, universe, entropy)|
    ensures var rate := GenerationMetrics(records, tasks, universe, entropy)[i].heldOutSuccess; rate.Some? ==> rate.value >= -1.0
  {
    hide Keys, MeanIfAny, ScoresWhere, MinDeclared, Counts;
    var k := Ordered(Keys(records))[i];
    FilterMembers(records, InGroup(k));
    hide Filter;
    HeldOutInUnit(Group(records, k), tasks);
  }

  lemma HeldOutInUnit(group: seq<TrialRecord>, tasks: Tasks)
    requires forall r :: r in group ==> Unit(r.score)
    ensures var rate := MeanIfAny(ScoresWhere(group, HeldOut(tasks))); rate.Some? ==> 0.0 <= rate.value <= 1.0
  {
    var part := Filter(group, HeldOut(tasks));
    FilterMembers(group, HeldOut(tasks));
    assert forall i :: 0 <= i < |part| ==> part[i] in part;
    if |part| > 0 { Q.MeanWithin(ScoresWhere(group, HeldOut(tasks)), 0.0, 1.0); }
  }
}
