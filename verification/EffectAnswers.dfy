/** What the endpoint and the metrics are, in totals and counts of the records' own scores (eval/bootstrap_ab.py). */
module EffectAnswers {
  import opened Base
  import opened Permutations
  import opened Quantiles
  import opened Sorting
  import opened StringOrder
  import opened Trials
  import opened PairedEffect

  // ---- totals and quantiles ---------------------------------------------------------------

  /** What a total is. */
  lemma {:induction false} SumMeans(a: seq<real>, b: seq<real>, x: real)
    ensures Sum([]) == 0.0 && Sum([x]) == x && Sum(a + b) == Sum(a) + Sum(b)
  {
    assert [x][1..] == [];
    if |a| == 0 {
      assert a + b == b;
    } else {
      assert (a + b)[0] == a[0] && (a + b)[1..] == a[1..] + b;
      SumMeans(a[1..], b, x);
    }
  }

  lemma {:induction false} SumPermutes(a: seq<real>, b: seq<real>)
    requires Same(a, b)
    ensures Sum(a) == Sum(b)
  {
    SameMembers(a, b);
    if |a| != 0 {
      var before, after := SplitSame(a, b);
      hide Same, Sum;
      SumPermutes(a[1..], before + after);
      SumMeans(before, after, a[0]);
      SumMeans(before + [a[0]], after, a[0]);
      SumMeans(before, [a[0]], a[0]);
      SumMeans([a[0]], a[1..], a[0]);
      assert a == [a[0]] + a[1..];
    }
  }

  /** A mean, times the count, is the total. */
  lemma MeanMeans(s: seq<real>)
    ensures |s| > 0 ==> Mean(s) * |s| as real == Sum(s) && Mean(s) == Sum(s) / |s| as real
  {
  }

  /** The quantile interpolates linearly between the samples: on evenly spaced samples it is exact. */
  lemma QuantileIsLinear(s: seq<real>, p: real, c: real, d: real)
    requires |s| > 0 && 0.0 <= p <= 1.0 && forall i :: 0 <= i < |s| ==> s[i] == c + d * (i as real)
    ensures Quantile(s, p).Ok? && Quantile(s, p).value == c + d * ((|s| - 1) as real * p)
  {
    var x := Position(|s|, p);
    var lower := x.Floor;
    hide Position;
    if lower == Ceiling(x) {
      assert x == lower as real;
    } else {
      assert Ceiling(x) == lower + 1;
      var w := x - lower as real;
      hide Ceiling;
      Evenly(c, d, lower as real, w);
    }
  }

  lemma Evenly(c: real, d: real, n: real, w: real)
    ensures (c + d * n) * (1.0 - w) + (c + d * (n + 1.0)) * w == c + d * (n + w)
  {
    assert (c + d * n) * (1.0 - w) + (c + d * (n + 1.0)) * w == (c + d * n) * (1.0 - w + w) + d * w;
    assert d * (n + w) == d * n + d * w;
  }

  /** It depends on the two samples around its position alone, and mixes them by the distance. */
  lemma QuantileIsLocal(s: seq<real>, p: real, x: real, k: nat)
    requires k + 1 < |s| && 0.0 <= p <= 1.0 && x == (|s| - 1) as real * p && k as real <= x < (k + 1) as real
    ensures Quantile(s, p) == Ok(s[k] * (1.0 - (x - k as real)) + s[k + 1] * (x - k as real))
  {
    PositionIs(|s|, p, x);
    hide Position, At;
    AtIsLocal(s, x, k);
  }

  lemma PositionIs(n: nat, p: real, x: real)
    requires n > 0 && 0.0 <= p <= 1.0 && x == (n - 1) as real * p
    ensures Position(n, p) == x && 0.0 <= x <= (n - 1) as real
  {
  }

  lemma AtIsLocal(s: seq<real>, x: real, k: nat)
    requires k + 1 < |s| && k as real <= x < (k + 1) as real
    ensures At(s, x) == s[k] * (1.0 - (x - k as real)) + s[k + 1] * (x - k as real)
  {
    assert x.Floor == k;
    if Ceiling(x) == k {
      NoWeight(s[k], s[k + 1], x - k as real);
    }
  }

  lemma NoWeight(a: real, b: real, w: real)
    requires w == 0.0
    ensures a * (1.0 - w) + b * w == a
  {
  }

  // ---- the scores of a cell -------------------------------------------------------------------

  /** The scores of a task in an arm are those of its own records of the generation, in order. */
  lemma ScoresMean(a: seq<TrialRecord>, b: seq<TrialRecord>, r: TrialRecord, g: nat, task: string, arm: Arm)
    ensures Scores([], g, task, arm) == []
    ensures Scores([r], g, task, arm) == if r.generation == g && r.taskId == task && r.arm == arm then [r.score] else []
    ensures Scores(a + b, g, task, arm) == Scores(a, g, task, arm) + Scores(b, g, task, arm)
  {
    var p := InCell(g, task, arm);
    FilterConcat(a, b, p);
    MapConcat(Filter(a, p), Filter(b, p), ScoreOf());
    assert [r][1..] == [] && Filter([r], p) == if p(r) then [r] else [];
    MapNothing(ScoreOf());
    assert Map([r], ScoreOf()) == [r.score];
  }

  /** Some record of the generation has the task. */
  ghost predicate HasTask(records: seq<TrialRecord>, g: nat, task: string) {
    exists i :: 0 <= i < |records| && records[i].generation == g && records[i].taskId == task
  }

  lemma TaskIdsAre(records: seq<TrialRecord>, g: nat, task: string)
    ensures task in TaskIds(records, g) <==> HasTask(records, g, task)
  {
    if HasTask(records, g, task) {
      var i :| 0 <= i < |records| && records[i].generation == g && records[i].taskId == task;
      assert records[i] in records;
    }
    if task in TaskIds(records, g) {
      var r :| r in records && r.generation == g && r.taskId == task;
      var i :| 0 <= i < |records| && records[i] == r;
    }
  }

  // ---- the lift -----------------------------------------------------------------------------------

  function Values(e: Effect): (v: seq<real>)
    ensures |v| == |e.differences| && forall i :: 0 <= i < |v| ==> v[i] == e.differences[i].1
  {
    seq(|e.differences|, i requires 0 <= i < |e.differences| => e.differences[i].1)
  }

  /** The lift, times the number of tasks, is the total of the task differences. */
  ghost predicate IsLift(e: Effect) {
    e.taskCount == |e.differences| > 0 && e.meanLift * e.taskCount as real == Sum(Values(e))
  }

  /** The total over the count of the treatment's scores, minus that of the control's. */
  ghost predicate IsDifference(records: seq<TrialRecord>, g: nat, task: string, value: real) {
    var treatment, control := Scores(records, g, task, Treatment), Scores(records, g, task, Control);
    |treatment| > 0 && |control| > 0
      && value == Sum(treatment) / |treatment| as real - Sum(control) / |control| as real
  }

  /** The differences are one for each task of the generation, in order. */
  ghost predicate Covers(records: seq<TrialRecord>, g: nat, e: Effect) {
    && (forall task :: HasTask(records, g, task) <==> exists j :: 0 <= j < |e.differences| && e.differences[j].0 == task)
    && (forall i :: 0 <= i && i + 1 < |e.differences| ==> Less(e.differences[i].0, e.differences[i + 1].0))
  }

  /** What the lift is. */
  lemma LiftMeans(records: seq<TrialRecord>, t: Thresholds, g: nat, draw: Draw, i: nat)
    requires Registered(t) && IsRandrange(draw) && EffectOf(records, t, g, draw).Ok?
    ensures var e := EffectOf(records, t, g, draw).value;
            && e.generation == g && IsLift(e) && Covers(records, g, e)
            && (i < |e.differences| ==> IsDifference(records, g, e.differences[i].0, e.differences[i].1))
  {
    hide *;
    var ids := Sorted(TaskIds(records, g));
    var e := EffectOf(records, t, g, draw).value;
    SummaryIs(records, t, g, draw);
    LiftIs(e);
    TasksAre(records, g, ids, e);
    if i < |ids| {
      PairedAre(records, g, ids, i);
    }
  }

  lemma LiftIs(e: Effect)
    requires e.taskCount == |e.differences| > 0 && e.meanLift == Mean(Values(e))
    ensures IsLift(e)
  {
    hide Values, Sum;
    MeanMeans(Values(e));
  }

  lemma SummaryIs(records: seq<TrialRecord>, t: Thresholds, g: nat, draw: Draw)
    requires Registered(t) && IsRandrange(draw) && EffectOf(records, t, g, draw).Ok?
    ensures var ids := Sorted(TaskIds(records, g));
            var values := Map(ids, Difference(records, g));
            var e := EffectOf(records, t, g, draw).value;
            && e.generation == g && e.taskCount == |ids| && e.meanLift == Mean(values) && |ids| > 0
            && |e.differences| == |ids| && Values(e) == values
            && (forall i :: 0 <= i < |ids| ==> e.differences[i] == (ids[i], values[i]))
            && FirstUnpaired(records, g, ids) == None
  {
    hide Scores, Sort, TaskIds, Sum, Samples, ValueAt, Tail, Difference, Mean, Sorted, FirstUnpaired;
    assert Values(EffectOf(records, t, g, draw).value) == Map(Sorted(TaskIds(records, g)), Difference(records, g));
  }

  lemma TasksAre(records: seq<TrialRecord>, g: nat, ids: seq<string>, e: Effect)
    requires ids == Sorted(TaskIds(records, g)) && |e.differences| == |ids|
    requires forall i :: 0 <= i < |ids| ==> e.differences[i].0 == ids[i]
    ensures Covers(records, g, e)
  {
    hide TaskIds, HasTask, Less;
    forall task
      ensures HasTask(records, g, task) <==> exists j :: 0 <= j < |e.differences| && e.differences[j].0 == task
    {
      TaskIdsAre(records, g, task);
      assert task in TaskIds(records, g) <==> task in ids;
      if task in ids {
        var j :| 0 <= j < |ids| && ids[j] == task;
        assert e.differences[j].0 == task;
      }
    }
  }

  lemma PairedAre(records: seq<TrialRecord>, g: nat, ids: seq<string>, i: nat)
    requires FirstUnpaired(records, g, ids) == None && i < |ids|
    ensures IsDifference(records, g, ids[i], Map(ids, Difference(records, g))[i])
  {
    NoneUnpaired(records, g, ids);
    hide Scores, Sum, FirstUnpaired;
    assert ids[i] in ids;
  }

  /** Value `k` of the bootstrap: the average of as many differences as there are tasks, each drawn. */
  ghost function Drawn(values: seq<real>, draw: Draw, k: nat): (r: seq<real>)
    requires IsRandrange(draw)
    ensures |r| == |values| && forall i :: 0 <= i < |r| ==> r[i] == values[draw(k, i, |values|)]
  {
    seq(|values|, i requires 0 <= i < |values| => values[draw(k, i, |values|)])
  }

  /** The average of each resample: as many differences as there are tasks, each drawn. */
  ghost predicate AreAverages(values: seq<real>, draw: Draw, averages: seq<real>)
    requires IsRandrange(draw)
  {
    |values| > 0 && forall k :: 0 <= k < |averages| ==> averages[k] == Sum(Drawn(values, draw, k)) / |values| as real
  }

  predicate IsAscending(s: seq<real>) {
    forall k, l :: 0 <= k < l < |s| ==> s[k] <= s[l]
  }

  /** The two quantiles at half of what the confidence leaves on either side. */
  predicate AreEnds(samples: seq<real>, confidence: real, lower: real, upper: real)
    requires 0.5 < confidence < 1.0
  {
    && Quantile(samples, (1.0 - confidence) / 2.0) == Ok(lower)
    && Quantile(samples, 1.0 - (1.0 - confidence) / 2.0) == Ok(upper)
  }

  /** The interval is the two quantiles of the averages of the drawn differences, in ascending order. */
  lemma IntervalMeans(records: seq<TrialRecord>, t: Thresholds, g: nat, draw: Draw)
    requires Registered(t) && IsRandrange(draw) && EffectOf(records, t, g, draw).Ok?
    ensures var e := EffectOf(records, t, g, draw).value;
            exists averages, samples ::
              && |averages| == t.resamples && AreAverages(Values(e), draw, averages)
              && IsAscending(samples) && multiset(samples) == multiset(averages)
              && AreEnds(samples, t.confidence, e.ciLower, e.ciUpper)
  {
    hide *;
    var values := Map(Sorted(TaskIds(records, g)), Difference(records, g));
    var e := EffectOf(records, t, g, draw).value;
    EffectIs(records, t, g, draw);
    SummaryIs(records, t, g, draw);
    var averages := Samples(values, draw, t.resamples);
    var samples := Sort(averages, Self);
    AveragesAre(values, draw, t.resamples);
    AscendingAre(averages);
    EndsAre(samples, t.confidence, e);
  }

  lemma EffectIs(records: seq<TrialRecord>, t: Thresholds, g: nat, draw: Draw)
    requires Registered(t) && IsRandrange(draw) && EffectOf(records, t, g, draw).Ok?
    ensures var values := Map(Sorted(TaskIds(records, g)), Difference(records, g));
            var e, samples := EffectOf(records, t, g, draw).value, Sort(Samples(values, draw, t.resamples), Self);
            && 0.5 < t.confidence < 1.0 && t.resamples > 0
            && e.ciLower == ValueAt(samples, Tail(t.confidence)) && e.ciUpper == ValueAt(samples, 1.0 - Tail(t.confidence))
  {
    hide TaskIds, Difference, Samples, Sort, ValueAt, Mean, Sorted, FirstUnpaired;
  }

  lemma AveragesAre(values: seq<real>, draw: Draw, count: nat)
    requires IsRandrange(draw) && |values| > 0
    ensures |Samples(values, draw, count)| == count && AreAverages(values, draw, Samples(values, draw, count))
  {
    forall k | 0 <= k < count
      ensures Samples(values, draw, count)[k] == Sum(Drawn(values, draw, k)) / |values| as real
    {
      assert Resample(values, draw, k) == Drawn(values, draw, k);
      hide Resample, Drawn, Sum;
      MeanMeans(Resample(values, draw, k));
    }
  }

  lemma AscendingAre(averages: seq<real>)
    ensures var samples := Sort(averages, Self);
            |samples| == |averages| && multiset(samples) == multiset(averages) && IsAscending(samples)
  {
    SortAscends(averages, Self);
    hide Sort;
    var samples := Sort(averages, Self);
    SameMembers(samples, averages);
    forall k, l | 0 <= k < l < |samples|
      ensures samples[k] <= samples[l]
    {
      assert Self(samples[k]) <= Self(samples[l]);
    }
  }

  lemma EndsAre(samples: seq<real>, confidence: real, e: Effect)
    requires |samples| > 0 && 0.5 < confidence < 1.0
    requires e.ciLower == ValueAt(samples, Tail(confidence)) && e.ciUpper == ValueAt(samples, 1.0 - Tail(confidence))
    ensures AreEnds(samples, confidence, e.ciLower, e.ciUpper)
  {
    hide At, Position;
  }

  // ---- the order of the records -----------------------------------------------------------------

  lemma ScoresPermute(a: seq<TrialRecord>, b: seq<TrialRecord>, g: nat, task: string, arm: Arm)
    requires Same(a, b)
    ensures Same(Scores(a, g, task, arm), Scores(b, g, task, arm))
  {
    FilterPermutes(a, b, InCell(g, task, arm));
    MapPermutes(Filter(a, InCell(g, task, arm)), Filter(b, InCell(g, task, arm)), ScoreOf());
  }

  lemma CellPermutes(a: seq<TrialRecord>, b: seq<TrialRecord>, g: nat, task: string, arm: Arm)
    requires Same(a, b)
    ensures |Scores(a, g, task, arm)| == |Scores(b, g, task, arm)|
    ensures Mean(Scores(a, g, task, arm)) == Mean(Scores(b, g, task, arm))
  {
    ScoresPermute(a, b, g, task, arm);
    hide Scores;
    SameMembers(Scores(a, g, task, arm), Scores(b, g, task, arm));
    SumPermutes(Scores(a, g, task, arm), Scores(b, g, task, arm));
  }

  lemma TasksPermute(a: seq<TrialRecord>, b: seq<TrialRecord>, g: nat)
    requires Same(a, b)
    ensures TaskIds(a, g) == TaskIds(b, g)
  {
    SameMembers(a, b);
  }

  lemma {:induction false} UnpairedPermutes(a: seq<TrialRecord>, b: seq<TrialRecord>, g: nat, ids: seq<string>)
    requires Same(a, b)
    ensures FirstUnpaired(a, g, ids) == FirstUnpaired(b, g, ids)
  {
    hide Same, Scores, Mean;
    if |ids| != 0 {
      CellPermutes(a, b, g, ids[0], Control);
      CellPermutes(a, b, g, ids[0], Treatment);
      UnpairedPermutes(a, b, g, ids[1..]);
    }
  }

  lemma DifferencesPermute(a: seq<TrialRecord>, b: seq<TrialRecord>, g: nat, ids: seq<string>)
    requires Same(a, b)
    ensures Map(ids, Difference(a, g)) == Map(ids, Difference(b, g))
  {
    hide Same, Scores, Mean;
    forall i | 0 <= i < |ids|
      ensures Difference(a, g)(ids[i]) == Difference(b, g)(ids[i])
    {
      CellPermutes(a, b, g, ids[i], Control);
      CellPermutes(a, b, g, ids[i], Treatment);
    }
  }

  /** The order of the records changes nothing in the effect. */
  lemma EffectPermutes(a: seq<TrialRecord>, b: seq<TrialRecord>, t: Thresholds, g: nat, draw: Draw)
    requires multiset(a) == multiset(b) && Registered(t) && IsRandrange(draw)
    ensures EffectOf(a, t, g, draw) == EffectOf(b, t, g, draw)
  {
    TasksPermute(a, b, g);
    UnpairedPermutes(a, b, g, Sorted(TaskIds(a, g)));
    DifferencesPermute(a, b, g, Sorted(TaskIds(a, g)));
    hide Sorted, TaskIds, FirstUnpaired, Difference, Summary, Sort, Samples;
  }

  /** All that is assumed of the draws is their range. */
  lemma DrawsMean(draw: Draw)
    ensures IsRandrange(draw) <==> forall k, i, n :: n == 0 || draw(k, i, n) < n
  {
  }
}
