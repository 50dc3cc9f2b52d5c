/** What each generation's metrics are, in totals and counts of its own records (eval/bootstrap_ab.py). */
module MetricsAnswers {
  import opened Base
  import opened Permutations
  import opened Trials
  import opened Metrics
  import G = GiniCoefficient
  import N = NatOrder
  import Q = Quantiles
  import E = EffectAnswers

  function Score(): TrialRecord -> real {
    (r: TrialRecord) => r.score
  }

  // ---- the measures of a group ---------------------------------------------------------------

  /** The rate, times the number of records, is the total of their scores. */
  ghost predicate IsRate(rate: real, part: seq<TrialRecord>) {
    rate * |part| as real == Q.Sum(Map(part, Score()))
  }

  ghost predicate IsRateIfAny(rate: Option<real>, part: seq<TrialRecord>) {
    (rate.Some? <==> |part| > 0) && (rate.Some? ==> IsRate(rate.value, part))
  }

  /** The share, times the whole, is the part. */
  ghost predicate IsShare(share: real, part: nat, whole: nat) {
    share * whole as real == part as real
  }

  lemma {:induction false} ScoresAre(part: seq<TrialRecord>)
    ensures Map(part, (r: TrialRecord) => r.score) == Map(part, Score())
  {
    if |part| != 0 { ScoresAre(part[1..]); }
  }

  lemma RateOf(group: seq<TrialRecord>, p: TrialRecord -> bool)
    ensures |Filter(group, p)| > 0 ==> IsRate(Q.Mean(ScoresWhere(group, p)), Filter(group, p))
    ensures IsRateIfAny(MeanIfAny(ScoresWhere(group, p)), Filter(group, p))
  {
    var part := Filter(group, p);
    ScoresAre(part);
    hide Filter, Map, Q.Mean, Q.Sum;
    E.MeanMeans(ScoresWhere(group, p));
  }

  lemma ShareOf(part: nat, whole: nat)
    requires part <= whole
    ensures IsShare(Ratio(part, whole), part, whole)
  {
  }

  /** What was selected in a group, and how often: the selections of all its records together. */
  lemma {:induction false} SelectedMeans(a: seq<TrialRecord>, b: seq<TrialRecord>, r: TrialRecord)
    ensures Selected([]) == multiset{} && Selected([r]) == multiset(r.selected)
    ensures Selected(a + b) == Selected(a) + Selected(b)
  {
    assert [r][..0] == [];
    if |b| == 0 {
      assert a + b == a;
    } else {
      var init := b[..|b| - 1];
      assert (a + b)[|a + b| - 1] == b[|b| - 1] && (a + b)[..|a + b| - 1] == a + init;
      SelectedMeans(a, init, r);
    }
  }

  /** The record declares a probability for each candidate of its task, and there are some. */
  predicate Declares(r: TrialRecord, tasks: Tasks) {
    r.taskId in tasks && tasks[r.taskId].candidates != [] && r.declared.Some?
      && forall i :: 0 <= i < |tasks[r.taskId].candidates| ==> tasks[r.taskId].candidates[i] in r.declared.value
  }

  lemma DeclaresMeans(r: TrialRecord, tasks: Tasks)
    ensures Declares(r, tasks) <==> DeclaresAll(r, tasks)
  {
    if r.taskId in tasks {
      var candidates := tasks[r.taskId].candidates;
      assert forall i :: 0 <= i < |candidates| ==> candidates[i] in candidates;
    }
  }

  /** The smallest probability that a record of the group declares for a candidate of its task. */
  ghost predicate IsLeast(group: seq<TrialRecord>, tasks: Tasks, x: real) {
    && (forall r, c :: r in group && Declares(r, tasks) && c in tasks[r.taskId].candidates ==> x <= r.declared.value[c])
    && (exists r, c :: r in group && Declares(r, tasks) && c in tasks[r.taskId].candidates && x == r.declared.value[c])
  }

  lemma RecordLeast(r: TrialRecord, tasks: Tasks)
    requires DeclaresAll(r, tasks)
    ensures forall c :: c in tasks[r.taskId].candidates ==> RecordMin(r, tasks) <= r.declared.value[c]
    ensures exists c :: c in tasks[r.taskId].candidates && RecordMin(r, tasks) == r.declared.value[c]
  {
    var declared, candidates := r.declared.value, tasks[r.taskId].candidates;
    var least := LeastOf(declared, candidates);
    var c :| c in candidates && declared[c] == least;
  }

  lemma OneLeast(r: TrialRecord, tasks: Tasks)
    requires DeclaresAll(r, tasks)
    ensures IsLeast([r], tasks, RecordMin(r, tasks))
  {
    RecordLeast(r, tasks);
    hide RecordMin, DeclaresAll;
    assert r in [r];
  }

  lemma LeastSnoc(group: seq<TrialRecord>, r: TrialRecord, tasks: Tasks, x: real)
    requires IsLeast(group, tasks, x) && DeclaresAll(r, tasks)
    ensures IsLeast(group + [r], tasks, MinReal(x, RecordMin(r, tasks)))
  {
    RecordLeast(r, tasks);
    hide RecordMin, DeclaresAll;
    var all := group + [r];
    assert r in all && forall q :: q in group ==> q in all;
    if x <= RecordMin(r, tasks) {
      var q, c :| q in group && DeclaresAll(q, tasks) && c in tasks[q.taskId].candidates && x == q.declared.value[c];
      assert q in all;
    }
  }

  lemma {:induction false} LeastOfGroup(group: seq<TrialRecord>, tasks: Tasks)
    requires MinDeclared(group, tasks).Some?
    ensures IsLeast(group, tasks, MinDeclared(group, tasks).value)
  {
    hide DeclaresAll, RecordMin, IsLeast;
    var r, rest := group[|group| - 1], group[..|group| - 1];
    assert group == rest + [r];
    if |rest| == 0 {
      assert group == [r] && MinDeclared(rest, tasks) == None;
      OneLeast(r, tasks);
    } else {
      LeastOfGroup(rest, tasks);
      LeastSnoc(rest, r, tasks, MinDeclared(rest, tasks).value);
    }
  }

  // ---- the measures of a generation --------------------------------------------------------------

  /** The records of one arm in one generation. */
  function Of(arm: Arm, g: nat): TrialRecord -> bool {
    (r: TrialRecord) => r.arm == arm && r.generation == g
  }

  function InTask(tasks: Tasks, p: TaskSpec -> bool): TrialRecord -> bool {
    (r: TrialRecord) => r.taskId in tasks && p(tasks[r.taskId])
  }

  lemma GroupIs(records: seq<TrialRecord>, arm: Arm, g: nat)
    ensures Group(records, CellKey(arm, g)) == Filter(records, Of(arm, g))
  {
    forall r | r in records
      ensures InGroup(CellKey(arm, g))(r) == Of(arm, g)(r)
    {
      CellKeyInverse(r.arm, r.generation);
      CellKeyInverse(arm, g);
    }
    FilterSame(records, InGroup(CellKey(arm, g)), Of(arm, g));
  }

  /** What the entry of an arm and generation measures, on the records of that arm and generation. */
  ghost predicate Measures(m: Generation, group: seq<TrialRecord>, tasks: Tasks, universe: seq<string>, entropy: Entropy) {
    && |group| > 0 && IsRate(m.taskSuccess, group)
    && IsRateIfAny(m.heldOutSuccess, Filter(group, InTask(tasks, (t: TaskSpec) => t.heldOut)))
    && IsRateIfAny(m.tailSuccess, Filter(group, InTask(tasks, (t: TaskSpec) => t.tail)))
    && IsShare(m.degradedRate, |Filter(group, (r: TrialRecord) => r.degraded)|, |group|)
    && (exists counts: seq<nat> ::
          && |counts| == |universe| && (forall i :: 0 <= i < |counts| ==> counts[i] == Selected(group)[universe[i]])
          && m.entropy == entropy(counts) && m.gini == G.Gini(counts)
          && IsShare(m.diversity, |Filter(counts, (n: nat) => n > 0)|, |universe|))
    && (m.minProbability.Some? <==> forall r :: r in group ==> Declares(r, tasks))
    && (m.minProbability.Some? ==> IsLeast(group, tasks, m.minProbability.value))
  }

  lemma HeldOutIs(group: seq<TrialRecord>, tasks: Tasks)
    ensures Filter(group, HeldOut(tasks)) == Filter(group, InTask(tasks, (t: TaskSpec) => t.heldOut))
    ensures Filter(group, TailTask(tasks)) == Filter(group, InTask(tasks, (t: TaskSpec) => t.tail))
    ensures Filter(group, Degraded()) == Filter(group, (r: TrialRecord) => r.degraded)
    ensures Filter(group, Anything()) == group
  {
    FilterSame(group, HeldOut(tasks), InTask(tasks, (t: TaskSpec) => t.heldOut));
    FilterSame(group, TailTask(tasks), InTask(tasks, (t: TaskSpec) => t.tail));
    FilterSame(group, Degraded(), (r: TrialRecord) => r.degraded);
    FilterKeepsAll(group, Anything());
  }

  lemma SelectedOften(group: seq<TrialRecord>, universe: seq<string>)
    ensures var counts := Counts(group, universe);
            && |counts| == |universe| && (forall i :: 0 <= i < |counts| ==> counts[i] == Selected(group)[universe[i]])
            && |Filter(counts, Positive())| <= |counts|
            && Filter(counts, Positive()) == Filter(counts, (n: nat) => n > 0)
  {
    var counts := Counts(group, universe);
    FilterSame(counts, Positive(), (n: nat) => n > 0);
    FilterShorter(counts, Positive());
  }

  lemma {:induction false} FilterShorter<T>(s: seq<T>, p: T -> bool)
    ensures |Filter(s, p)| <= |s|
  {
    if |s| != 0 { FilterShorter(s[1..], p); }
  }

  lemma LeastMeans(group: seq<TrialRecord>, tasks: Tasks)
    requires |group| > 0
    ensures MinDeclared(group, tasks).Some? <==> forall r :: r in group ==> Declares(r, tasks)
    ensures MinDeclared(group, tasks).Some? ==> IsLeast(group, tasks, MinDeclared(group, tasks).value)
  {
    forall r
      ensures Declares(r, tasks) <==> DeclaresAll(r, tasks)
    {
      DeclaresMeans(r, tasks);
    }
    MinDeclaredSome(group, tasks);
    hide MinDeclared, DeclaresAll, Declares, IsLeast;
    if MinDeclared(group, tasks).Some? { LeastOfGroup(group, tasks); }
  }

  lemma RatesMean(group: seq<TrialRecord>, tasks: Tasks)
    requires |group| > 0
    ensures IsRate(Q.Mean(ScoresWhere(group, Anything())), group)
    ensures IsRateIfAny(MeanIfAny(ScoresWhere(group, HeldOut(tasks))), Filter(group, InTask(tasks, (t: TaskSpec) => t.heldOut)))
    ensures IsRateIfAny(MeanIfAny(ScoresWhere(group, TailTask(tasks))), Filter(group, InTask(tasks, (t: TaskSpec) => t.tail)))
    ensures IsShare(Ratio(|Filter(group, Degraded())|, |group|), |Filter(group, (r: TrialRecord) => r.degraded)|, |group|)
  {
    HeldOutIs(group, tasks);
    hide IsRate, IsRateIfAny, IsShare, Filter, ScoresWhere, Q.Mean, MeanIfAny, Ratio;
    RateOf(group, Anything());
    RateOf(group, HeldOut(tasks));
    RateOf(group, TailTask(tasks));
    FilterShorter(group, Degraded());
    ShareOf(|Filter(group, Degraded())|, |group|);
  }

  lemma MetricsMeasure(k: nat, group: seq<TrialRecord>, tasks: Tasks, universe: seq<string>, entropy: Entropy)
    requires |group| > 0
    ensures Measures(MetricsOf(k, group, tasks, universe, entropy), group, tasks, universe, entropy)
  {
    hide IsRate, IsRateIfAny, IsShare, IsLeast, Declares, DeclaresAll, Selected, Filter, ScoresWhere, Q.Mean, MeanIfAny, Ratio,
      Counts, G.Gini, MinDeclared;
    var m, counts := MetricsOf(k, group, tasks, universe, entropy), Counts(group, universe);
    RatesMean(group, tasks);
    SelectedOften(group, universe);
    ShareOf(|Filter(counts, Positive())|, |counts|);
    LeastMeans(group, tasks);
    assert m.entropy == entropy(counts) && m.gini == G.Gini(counts);
  }

  /** Each entry of the metrics measures the records of its arm and generation, and there are some. */
  lemma MetricsMean(records: seq<TrialRecord>, tasks: Tasks, universe: seq<string>, entropy: Entropy, i: nat)
    requires i < |GenerationMetrics(records, tasks, universe, entropy)|
    ensures var m := GenerationMetrics(records, tasks, universe, entropy)[i];
            Measures(m, Filter(records, Of(m.arm, m.generation)), tasks, universe, entropy)
  {
    var keys := N.Ordered(Keys(records));
    var m := GenerationMetrics(records, tasks, universe, entropy)[i];
    assert keys[i] in keys;
    MeasuredKey(records, tasks, universe, entropy, keys[i]);
    GroupNonempty(records, keys[i]);
    GroupIs(records, m.arm, m.generation);
    hide MetricsOf, Measures, Group, Filter, Keys, CellKey;
    MetricsMeasure(keys[i], Group(records, keys[i]), tasks, universe, entropy);
  }

  // ---- the order of the records ---------------------------------------------------------------------

  lemma {:induction false} SelectedPermutes(a: seq<TrialRecord>, b: seq<TrialRecord>)
    requires Same(a, b)
    ensures Selected(a) == Selected(b)
  {
    SameMembers(a, b);
    if |a| != 0 {
      var before, after := SplitSame(a, b);
      hide Same, Selected;
      SelectedPermutes(a[1..], before + after);
      SelectedMeans(before, after, a[0]);
      SelectedMeans(before + [a[0]], after, a[0]);
      SelectedMeans(before, [a[0]], a[0]);
      SelectedMeans([a[0]], a[1..], a[0]);
      assert a == [a[0]] + a[1..];
    }
  }

  lemma ScoresPermute(a: seq<TrialRecord>, b: seq<TrialRecord>, p: TrialRecord -> bool)
    requires Same(a, b)
    ensures |Filter(a, p)| == |Filter(b, p)|
    ensures Q.Mean(ScoresWhere(a, p)) == Q.Mean(ScoresWhere(b, p)) && MeanIfAny(ScoresWhere(a, p)) == MeanIfAny(ScoresWhere(b, p))
  {
    FilterPermutes(a, b, p);
    var f := (r: TrialRecord) => r.score;
    MapPermutes(Filter(a, p), Filter(b, p), f);
    SameMembers(Filter(a, p), Filter(b, p));
    ScoresAre(Filter(a, p));
    ScoresAre(Filter(b, p));
    MapPermutes(Filter(a, p), Filter(b, p), Score());
    hide Filter, Map, Q.Sum;
    SameMembers(ScoresWhere(a, p), ScoresWhere(b, p));
    E.SumPermutes(ScoresWhere(a, p), ScoresWhere(b, p));
  }

  lemma LeastAtMost(a: seq<TrialRecord>, b: seq<TrialRecord>, tasks: Tasks, x: real, y: real)
    requires forall r :: r in a <==> r in b
    requires IsLeast(a, tasks, x) && IsLeast(b, tasks, y)
    ensures x <= y
  {
    var r, c :| r in b && DeclaresAll(r, tasks) && c in tasks[r.taskId].candidates && y == r.declared.value[c];
    assert r in a;
  }

  lemma LeastPermutes(a: seq<TrialRecord>, b: seq<TrialRecord>, tasks: Tasks)
    requires Same(a, b)
    ensures MinDeclared(a, tasks) == MinDeclared(b, tasks)
  {
    SameMembers(a, b);
    MinDeclaredSome(a, tasks);
    MinDeclaredSome(b, tasks);
    hide Same, DeclaresAll, MinDeclared, IsLeast;
    if MinDeclared(a, tasks).Some? {
      assert MinDeclared(b, tasks).Some?;
      LeastOfGroup(a, tasks);
      LeastOfGroup(b, tasks);
      LeastAtMost(a, b, tasks, MinDeclared(a, tasks).value, MinDeclared(b, tasks).value);
      LeastAtMost(b, a, tasks, MinDeclared(b, tasks).value, MinDeclared(a, tasks).value);
    }
  }

  lemma MeasuredPermutes(k: nat, a: seq<TrialRecord>, b: seq<TrialRecord>, tasks: Tasks, universe: seq<string>, entropy: Entropy)
    requires Same(a, b)
    ensures MetricsOf(k, a, tasks, universe, entropy) == MetricsOf(k, b, tasks, universe, entropy)
  {
    SameMembers(a, b);
    SelectedPermutes(a, b);
    assert Counts(a, universe) == Counts(b, universe);
    ScoresPermute(a, b, Anything());
    ScoresPermute(a, b, HeldOut(tasks));
    ScoresPermute(a, b, TailTask(tasks));
    ScoresPermute(a, b, Degraded());
    LeastPermutes(a, b, tasks);
    hide Filter, ScoresWhere, Q.Mean, MeanIfAny, Counts, MinDeclared, Same, Ratio;
  }

  /** The order of the records changes nothing in the metrics. */
  lemma MetricsPermute(a: seq<TrialRecord>, b: seq<TrialRecord>, tasks: Tasks, universe: seq<string>, entropy: Entropy)
    requires multiset(a) == multiset(b)
    ensures GenerationMetrics(a, tasks, universe, entropy) == GenerationMetrics(b, tasks, universe, entropy)
  {
    SameMembers(a, b);
    assert Keys(a) == Keys(b);
    var keys := N.Ordered(Keys(a));
    hide Keys, MetricsOf;
    forall i | 0 <= i < |keys|
      ensures Measured(a, tasks, universe, entropy)(keys[i]) == Measured(b, tasks, universe, entropy)(keys[i])
    {
      FilterPermutes(a, b, InGroup(keys[i]));
      MeasuredPermutes(keys[i], Group(a, keys[i]), Group(b, keys[i]), tasks, universe, entropy);
    }
  }
}
