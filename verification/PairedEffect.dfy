/** The primary endpoint: paired task differences and their bootstrap interval (eval/bootstrap_ab.py, `_paired_effect`). */
module PairedEffect {
  import opened Base
  import opened Permutations
  import opened Quantiles
  import opened Sorting
  import opened StringOrder
  import opened Trials

  datatype Effect = Effect(
    generation: nat, taskCount: nat, meanLift: real, ciLower: real, ciUpper: real, differences: seq<(string, real)>)

  datatype EffectError = Unpaired(task: string) | TooFewTasks

  /** `rng.randrange(n)`: the index drawn for position `i` of resample `k`. */
  type Draw = (nat, nat, nat) -> nat

  ghost predicate IsRandrange(draw: Draw) {
    forall k, i, n :: n > 0 ==> draw(k, i, n) < n
  }

  // ---- the specification ---------------------------------------------------

  function InCell(g: nat, task: string, arm: Arm): TrialRecord -> bool {
    (r: TrialRecord) => r.generation == g && r.taskId == task && r.arm == arm
  }

  function ScoreOf(): TrialRecord -> real {
    (r: TrialRecord) => r.score
  }

  /** The scores of one task in one arm of generation `g`, in record order. */
  function Scores(records: seq<TrialRecord>, g: nat, task: string, arm: Arm): seq<real> {
    Map(Filter(records, InCell(g, task, arm)), ScoreOf())
  }

  function TaskIds(records: seq<TrialRecord>, g: nat): set<string> {
    set r | r in records && r.generation == g :: r.taskId
  }

  predicate IsPaired(records: seq<TrialRecord>, g: nat, task: string) {
    |Scores(records, g, task, Control)| > 0 && |Scores(records, g, task, Treatment)| > 0
  }

  function FirstUnpaired(records: seq<TrialRecord>, g: nat, ids: seq<string>): Option<string> {
    if |ids| == 0 then None
    else if !IsPaired(records, g, ids[0]) then Some(ids[0])
    else FirstUnpaired(records, g, ids[1..])
  }

  function Difference(records: seq<TrialRecord>, g: nat): string -> real {
    (task: string) => Mean(Scores(records, g, task, Treatment)) - Mean(Scores(records, g, task, Control))
  }

  ghost function Resample(values: seq<real>, draw: Draw, k: nat): (r: seq<real>)
    requires IsRandrange(draw)
    ensures |r| == |values|
  {
    seq(|values|, i requires 0 <= i < |values| => values[draw(k, i, |values|)])
  }

  ghost function Samples(values: seq<real>, draw: Draw, count: nat): (r: seq<real>)
    requires IsRandrange(draw)
    ensures |r| == count
    ensures forall k :: 0 <= k < count ==> r[k] == Mean(Resample(values, draw, k))
  {
    seq(count, k requires 0 <= k < count => Mean(Resample(values, draw, k)))
  }

  function Tail(confidence: real): real {
    (1.0 - confidence) / 2.0
  }

  /** What `_paired_effect` returns for the given draws. */
  ghost function EffectOf(records: seq<TrialRecord>, t: Thresholds, g: nat, draw: Draw): Result<Effect, EffectError>
    requires Registered(t) && IsRandrange(draw)
  {
    var ids := Sorted(TaskIds(records, g));
    match FirstUnpaired(records, g, ids)
    case Some(task) => Err(Unpaired(task))
    case None =>
      if |ids| < 2 then Err(TooFewTasks)
      else
        var values := Map(ids, Difference(records, g));
        Ok(Summary(g, ids, values, Sort(Samples(values, draw, t.resamples), Self), Tail(t.confidence)))
  }

  function Summary(g: nat, ids: seq<string>, values: seq<real>, samples: seq<real>, alpha: real): Effect
    requires |values| == |ids| && 0.0 <= alpha <= 1.0
  {
    Effect(g, |values|, Mean(values), ValueAt(samples, alpha), ValueAt(samples, 1.0 - alpha),
           seq(|ids|, i requires 0 <= i < |ids| => (ids[i], values[i])))
  }

  /** The samples are never empty: at least a hundred resamples are registered. */
  function ValueAt(samples: seq<real>, p: real): real
    requires 0.0 <= p <= 1.0
  {
    match Quantile(samples, p) case Ok(v) => v case Err(_) => 0.0
  }

  // ---- the computation -----------------------------------------------------

  type Cells = map<(string, Arm), seq<real>>

  function CellOf(cells: Cells, task: string, arm: Arm): seq<real> {
    if (task, arm) in cells then cells[(task, arm)] else []
  }

  ghost predicate Grouped(cells: Cells, records: seq<TrialRecord>, g: nat) {
    && (forall task, arm :: CellOf(cells, task, arm) == Scores(records, g, task, arm))
    && (forall key :: key in cells ==> key.0 in TaskIds(records, g))
    && (forall task :: task in TaskIds(records, g) ==> exists arm :: (task, arm) in cells)
  }

  /** The grouping loop over the records of the generation. */
  method GroupScores(records: seq<TrialRecord>, g: nat) returns (cells: Cells)
    ensures Grouped(cells, records, g)
  {
    hide Grouped;
    cells := map[];
    NothingGrouped(g);
    for i := 0 to |records|
      invariant Grouped(cells, records[..i], g)
    {
      var r := records[i];
      assert records[..i + 1] == records[..i] + [r];
      ghost var before := cells;
      if r.generation == g {
        cells := cells[(r.taskId, r.arm) := CellOf(cells, r.taskId, r.arm) + [r.score]];
      }
      GroupedSnoc(before, cells, records[..i], r, g);
    }
    assert records[..|records|] == records;
  }

  lemma NothingGrouped(g: nat)
    ensures Grouped(map[], [], g)
  {
  }

  lemma GroupedSnoc(before: Cells, after: Cells, records: seq<TrialRecord>, r: TrialRecord, g: nat)
    requires Grouped(before, records, g)
    requires after == if r.generation == g
                      then before[(r.taskId, r.arm) := CellOf(before, r.taskId, r.arm) + [r.score]] else before
    ensures Grouped(after, records + [r], g)
  {
    forall task, arm
      ensures CellOf(after, task, arm) == Scores(records + [r], g, task, arm)
    {
      assert CellOf(before, task, arm) == Scores(records, g, task, arm);
      ScoresSnoc(records, r, g, task, arm);
    }
    TaskIdsSnoc(records, r, g);
    forall task | task in TaskIds(records + [r], g)
      ensures exists arm :: (task, arm) in after
    {
      if task in TaskIds(records, g) {
        var arm :| (task, arm) in before;
        assert (task, arm) in after;
      } else {
        assert (task, r.arm) in after;
      }
    }
  }

  lemma ScoresSnoc(records: seq<TrialRecord>, r: TrialRecord, g: nat, task: string, arm: Arm)
    ensures Scores(records + [r], g, task, arm)
      == Scores(records, g, task, arm) + if InCell(g, task, arm)(r) then [r.score] else []
  {
    FilterSnoc(records, r, InCell(g, task, arm));
    MapSnoc(Filter(records, InCell(g, task, arm)), r, ScoreOf());
  }

  lemma TaskIdsSnoc(records: seq<TrialRecord>, r: TrialRecord, g: nat)
    ensures TaskIds(records + [r], g) == TaskIds(records, g) + if r.generation == g then {r.taskId} else {}
  {
  }

  method ComputeEffect(records: seq<TrialRecord>, t: Thresholds, g: nat, draw: Draw)
    returns (result: Result<Effect, EffectError>)
    requires Registered(t) && IsRandrange(draw)
    ensures result == EffectOf(records, t, g, draw)
  {
    hide Scores, Sort, Summary, TaskIds, Grouped, FirstUnpaired, Difference, Resample;
    var cells := GroupScores(records, g);
    var ids := Sorted(set key | key in cells :: key.0);
    SameTasks(cells, records, g);
    var values :- TaskDifferences(cells, ids, records, g);
    if |values| < 2 {
      return Err(TooFewTasks);
    }
    var samples := DrawSamples(values, draw, t.resamples);
    result := Ok(Summary(g, ids, values, Sort(samples, Self), Tail(t.confidence)));
  }

  /** The loop over the sorted tasks; it raises on the first task without both arms. */
  method TaskDifferences(cells: Cells, ids: seq<string>, records: seq<TrialRecord>, g: nat)
    returns (result: Result<seq<real>, EffectError>)
    requires Grouped(cells, records, g)
    ensures result == match FirstUnpaired(records, g, ids)
                      case Some(task) => Err(Unpaired(task))
                      case None => Ok(Map(ids, Difference(records, g)))
  {
    hide Scores, TaskIds, Mean, Map;
    MapNothing(Difference(records, g));
    var values: seq<real> := [];
    for i := 0 to |ids|
      invariant FirstUnpaired(records, g, ids) == FirstUnpaired(records, g, ids[i..])
      invariant values == Map(ids[..i], Difference(records, g))
    {
      var control, treatment := CellOf(cells, ids[i], Control), CellOf(cells, ids[i], Treatment);
      assert ids[i..][1..] == ids[i + 1..];
      if |control| == 0 || |treatment| == 0 {
        return Err(Unpaired(ids[i]));
      }
      MapSnoc(ids[..i], ids[i], Difference(records, g));
      assert ids[..i + 1] == ids[..i] + [ids[i]];
      values := values + [Mean(treatment) - Mean(control)];
    }
    assert ids[..|ids|] == ids;
    result := Ok(values);
  }

  lemma SameTasks(cells: Cells, records: seq<TrialRecord>, g: nat)
    requires Grouped(cells, records, g)
    ensures (set key | key in cells :: key.0) == TaskIds(records, g)
  {
    forall task | task in TaskIds(records, g)
      ensures task in set key | key in cells :: key.0
    {
      var arm :| (task, arm) in cells;
    }
  }

  method DrawSamples(values: seq<real>, draw: Draw, count: nat) returns (samples: seq<real>)
    requires IsRandrange(draw)
    ensures samples == Samples(values, draw, count)
  {
    samples := [];
    for k := 0 to count
      invariant samples == Samples(values, draw, k)
    {
      var sample := seq(|values|, i requires 0 <= i < |values| => values[draw(k, i, |values|)]);
      assert sample == Resample(values, draw, k);
      samples := samples + [Mean(sample)];
    }
  }

  // ---- when it is defined --------------------------------------------------

  lemma {:induction false} NoneUnpaired(records: seq<TrialRecord>, g: nat, ids: seq<string>)
    ensures FirstUnpaired(records, g, ids) == None <==> forall task :: task in ids ==> IsPaired(records, g, task)
  {
    if |ids| != 0 {
      NoneUnpaired(records, g, ids[1..]);
      assert ids == [ids[0]] + ids[1..];
    }
  }

  /** The endpoint exists exactly when every task of the generation ran in both arms and there are two tasks. */
  lemma EffectDefined(records: seq<TrialRecord>, t: Thresholds, g: nat, draw: Draw)
    requires Registered(t) && IsRandrange(draw)
    ensures EffectOf(records, t, g, draw).Ok?
      <==> (forall task :: task in TaskIds(records, g) ==> IsPaired(records, g, task)) && |TaskIds(records, g)| >= 2
  {
    NoneUnpaired(records, g, Sorted(TaskIds(records, g)));
  }

  // ---- bounds --------------------------------------------------------------

  /** Any bounds on the task differences bound the lift and its interval, and the interval is not inverted. */
  lemma EffectBounded(records: seq<TrialRecord>, t: Thresholds, g: nat, draw: Draw, lo: real, hi: real)
    requires Registered(t) && IsRandrange(draw)
    requires forall task :: task in TaskIds(records, g) ==> lo <= Difference(records, g)(task) <= hi
    ensures var r := EffectOf(records, t, g, draw);
            r.Ok? ==> lo <= r.value.meanLift <= hi && lo <= r.value.ciLower <= r.value.ciUpper <= hi
  {
    hide Scores, Sort, TaskIds, FirstUnpaired, Difference, Summary, Tail, Within, Samples, Sorted;
    if EffectOf(records, t, g, draw).Ok? {
      var ids := Sorted(TaskIds(records, g));
      var values := Map(ids, Difference(records, g));
      DifferencesWithin(records, g, lo, hi);
      SummaryBounded(g, ids, values, t, draw, lo, hi);
    }
  }

  lemma DifferencesWithin(records: seq<TrialRecord>, g: nat, lo: real, hi: real)
    requires forall task :: task in TaskIds(records, g) ==> lo <= Difference(records, g)(task) <= hi
    ensures Within(Map(Sorted(TaskIds(records, g)), Difference(records, g)), lo, hi)
  {
    hide Difference, TaskIds;
    var ids := Sorted(TaskIds(records, g));
    assert forall i :: 0 <= i < |ids| ==> ids[i] in ids;
  }

  lemma SummaryBounded(g: nat, ids: seq<string>, values: seq<real>, t: Thresholds, draw: Draw, lo: real, hi: real)
    requires Registered(t) && IsRandrange(draw)
    requires |values| == |ids| > 0 && Within(values, lo, hi)
    ensures var e := Summary(g, ids, values, Sort(Samples(values, draw, t.resamples), Self), Tail(t.confidence));
            lo <= e.meanLift <= hi && lo <= e.ciLower <= e.ciUpper <= hi
  {
    hide Sort, ValueAt, Mean, Within, Resample;
    MeanWithin(values, lo, hi);
    SamplesWithin(values, draw, t.resamples, lo, hi);
    IntervalWithin(Samples(values, draw, t.resamples), Tail(t.confidence), lo, hi);
  }

  lemma SamplesWithin(values: seq<real>, draw: Draw, count: nat, lo: real, hi: real)
    requires IsRandrange(draw) && |values| > 0 && Within(values, lo, hi)
    ensures Within(Samples(values, draw, count), lo, hi)
  {
    forall k | 0 <= k < count
      ensures lo <= Samples(values, draw, count)[k] <= hi
    {
      MeanWithin(Resample(values, draw, k), lo, hi);
    }
  }

  lemma IntervalWithin(samples: seq<real>, alpha: real, lo: real, hi: real)
    requires |samples| > 0 && Within(samples, lo, hi) && 0.0 <= alpha <= 0.5
    ensures lo <= ValueAt(Sort(samples, Self), alpha) <= ValueAt(Sort(samples, Self), 1.0 - alpha) <= hi
  {
    hide *;
    SortAscends(samples, Self);
    SortWithin(samples, lo, hi);
    AscendingInterval(Sort(samples, Self), alpha, lo, hi);
  }

  lemma SortWithin(samples: seq<real>, lo: real, hi: real)
    requires Within(samples, lo, hi)
    ensures |Sort(samples, Self)| == |samples| && Within(Sort(samples, Self), lo, hi)
  {
    var s := Sort(samples, Self);
    SameMembers(s, samples);
    hide Sort;
    forall i | 0 <= i < |s|
      ensures lo <= s[i] <= hi
    {
      assert s[i] in s && s[i] in samples;
    }
  }

  lemma AscendingInterval(s: seq<real>, alpha: real, lo: real, hi: real)
    requires |s| > 0 && Ascending(s, Self) && Within(s, lo, hi) && 0.0 <= alpha <= 0.5
    ensures lo <= ValueAt(s, alpha) <= ValueAt(s, 1.0 - alpha) <= hi
  {
    hide At, Position, Ascending, Within;
    QuantileWithin(s, alpha, lo, hi);
    QuantileWithin(s, 1.0 - alpha, lo, hi);
    QuantileMonotone(s, alpha, 1.0 - alpha);
  }

  /** With scores in [0, 1] the lift and both interval ends lie in [-1, 1]. */
  lemma EffectInUnit(records: seq<TrialRecord>, t: Thresholds, g: nat, draw: Draw)
    requires Registered(t) && IsRandrange(draw)
    requires forall r :: r in records ==> Unit(r.score)
    ensures var r := EffectOf(records, t, g, draw);
            r.Ok? ==> -1.0 <= r.value.meanLift <= 1.0 && -1.0 <= r.value.ciLower <= r.value.ciUpper <= 1.0
  {
    forall task
      ensures -1.0 <= Difference(records, g)(task) <= 1.0
    {
      MeanScoreInUnit(records, g, task, Control);
      MeanScoreInUnit(records, g, task, Treatment);
    }
    EffectBounded(records, t, g, draw, -1.0, 1.0);
  }

  lemma MeanScoreInUnit(records: seq<TrialRecord>, g: nat, task: string, arm: Arm)
    requires forall r :: r in records ==> Unit(r.score)
    ensures 0.0 <= Mean(Scores(records, g, task, arm)) <= 1.0
  {
    var cell := Filter(records, InCell(g, task, arm));
    FilterMembers(records, InCell(g, task, arm));
    assert forall i :: 0 <= i < |cell| ==> cell[i] in cell;
    if |cell| > 0 { MeanWithin(Map(cell, ScoreOf()), 0.0, 1.0); }
  }

  // ---- exchanging the arms -------------------------------------------------

  function Exchanged(): TrialRecord -> TrialRecord {
    (r: TrialRecord) => r.(arm := Other(r.arm))
  }

  function Negated(values: seq<real>): (r: seq<real>)
    ensures |r| == |values| && forall i :: 0 <= i < |values| ==> r[i] == -values[i]
  {
    seq(|values|, i requires 0 <= i < |values| => -values[i])
  }

  lemma ScoresExchanged(records: seq<TrialRecord>, g: nat, task: string, arm: Arm)
    ensures Scores(Map(records, Exchanged()), g, task, arm) == Scores(records, g, task, Other(arm))
  {
    var p := InCell(g, task, arm);
    FilterMap(records, Exchanged(), p);
    FilterSame(records, After(Exchanged(), p), InCell(g, task, Other(arm)));
  }

  lemma TaskIdsExchanged(records: seq<TrialRecord>, g: nat)
    ensures TaskIds(Map(records, Exchanged()), g) == TaskIds(records, g)
  {
    var swapped := Map(records, Exchanged());
    forall i | 0 <= i < |records|
      ensures swapped[i] in swapped && records[i] in records
    {
    }
    forall task | task in TaskIds(records, g)
      ensures task in TaskIds(swapped, g)
    {
      var i :| 0 <= i < |records| && records[i].generation == g && records[i].taskId == task;
      assert swapped[i].taskId == task && swapped[i].generation == g;
    }
  }

  lemma {:induction false} SumNegated(values: seq<real>)
    ensures Sum(Negated(values)) == -Sum(values)
  {
    if |values| != 0 {
      SumNegated(values[1..]);
      assert Negated(values)[1..] == Negated(values[1..]);
    }
  }

  lemma MeanNegated(values: seq<real>)
    ensures Mean(Negated(values)) == -Mean(values)
  {
    SumNegated(values);
  }

  lemma SamplesNegated(values: seq<real>, draw: Draw, count: nat)
    requires IsRandrange(draw)
    ensures Samples(Negated(values), draw, count) == Negated(Samples(values, draw, count))
  {
    forall k | 0 <= k < count
      ensures Samples(Negated(values), draw, count)[k] == -Samples(values, draw, count)[k]
    {
      assert Resample(Negated(values), draw, k) == Negated(Resample(values, draw, k));
      MeanNegated(Resample(values, draw, k));
    }
  }

  lemma {:induction false} NegatedCounts(values: seq<real>, x: real)
    ensures multiset(Negated(values))[x] == multiset(values)[-x]
  {
    if |values| != 0 {
      NegatedCounts(values[1..], x);
      NegatedOne(values[0], values[1..], x);
      assert values == [values[0]] + values[1..];
    }
  }

  lemma NegatedCons(v: real, rest: seq<real>)
    ensures Negated([v] + rest) == [-v] + Negated(rest)
  {
  }

  lemma NegatedOne(v: real, rest: seq<real>, x: real)
    requires multiset(Negated(rest))[x] == multiset(rest)[-x]
    ensures multiset(Negated([v] + rest))[x] == multiset([v] + rest)[-x]
  {
    hide Negated;
    NegatedCons(v, rest);
    OneMoreCount(v, rest, -x);
    OneMoreCount(-v, Negated(rest), x);
  }

  lemma OneMoreCount(v: real, rest: seq<real>, x: real)
    ensures multiset([v] + rest)[x] == multiset(rest)[x] + if v == x then 1 else 0
    ensures multiset(rest + [v])[x] == multiset(rest)[x] + if v == x then 1 else 0
  {
  }

  lemma {:induction false} ReflectedCounts(values: seq<real>, x: real)
    ensures multiset(Reflected(values))[x] == multiset(values)[-x]
  {
    if |values| != 0 {
      ReflectedCounts(values[1..], x);
      assert values == [values[0]] + values[1..];
      assert Reflected(values) == Reflected(values[1..]) + [-values[0]];
      OneMoreCount(values[0], values[1..], -x);
      OneMoreCount(-values[0], Reflected(values[1..]), x);
    }
  }

  lemma SortNegated(samples: seq<real>)
    ensures Sort(Negated(samples), Self) == Reflected(Sort(samples, Self))
  {
    var a, b := Sort(Negated(samples), Self), Reflected(Sort(samples, Self));
    SortAscends(Negated(samples), Self);
    SortAscends(samples, Self);
    ReflectedAscends(Sort(samples, Self));
    forall x: real
      ensures multiset(a)[x] == multiset(b)[x]
    {
      NegatedCounts(samples, x);
      ReflectedCounts(Sort(samples, Self), x);
    }
    assert multiset(a) == multiset(b);
    AscendingUnique(a, b);
  }

  /**
   * The comparison is fair: exchanging the arms negates every difference and the lift, and turns the interval round,
   * for every resampling. A failure stays the same failure.
   */
  lemma EffectAntisymmetric(records: seq<TrialRecord>, t: Thresholds, g: nat, draw: Draw)
    requires Registered(t) && IsRandrange(draw)
    ensures var r, s := EffectOf(records, t, g, draw), EffectOf(Map(records, Exchanged()), t, g, draw);
            match r
            case Err(e) => s == Err(e)
            case Ok(e) => s.Ok? && s.value.meanLift == -e.meanLift
                          && s.value.ciLower == -e.ciUpper && s.value.ciUpper == -e.ciLower
  {
    hide Scores, Sort, TaskIds, FirstUnpaired, Difference, Summary, Resample, Samples;
    var swapped, ids := Map(records, Exchanged()), Sorted(TaskIds(records, g));
    TaskIdsExchanged(records, g);
    UnpairedExchanged(records, g, ids);
    if EffectOf(records, t, g, draw).Ok? {
      var values := Map(ids, Difference(records, g));
      DifferencesExchanged(records, g, ids);
      SummaryReflects(ids, values, draw, t, g);
    }
  }

  lemma {:induction false} UnpairedExchanged(records: seq<TrialRecord>, g: nat, ids: seq<string>)
    ensures FirstUnpaired(Map(records, Exchanged()), g, ids) == FirstUnpaired(records, g, ids)
  {
    if |ids| != 0 {
      ScoresExchanged(records, g, ids[0], Control);
      ScoresExchanged(records, g, ids[0], Treatment);
      UnpairedExchanged(records, g, ids[1..]);
    }
  }

  lemma DifferencesExchanged(records: seq<TrialRecord>, g: nat, ids: seq<string>)
    ensures Map(ids, Difference(Map(records, Exchanged()), g)) == Negated(Map(ids, Difference(records, g)))
  {
    hide Difference;
    forall i | 0 <= i < |ids|
      ensures Difference(Map(records, Exchanged()), g)(ids[i]) == -Difference(records, g)(ids[i])
    {
      DifferenceExchanged(records, g, ids[i]);
    }
  }

  lemma DifferenceExchanged(records: seq<TrialRecord>, g: nat, task: string)
    ensures Difference(Map(records, Exchanged()), g)(task) == -Difference(records, g)(task)
  {
    hide Scores, Mean, Map;
    ScoresExchanged(records, g, task, Control);
    ScoresExchanged(records, g, task, Treatment);
  }

  lemma SummaryReflects(ids: seq<string>, values: seq<real>, draw: Draw, t: Thresholds, g: nat)
    requires Registered(t) && IsRandrange(draw) && |ids| == |values|
    ensures var alpha := Tail(t.confidence);
            var e := Summary(g, ids, values, Sort(Samples(values, draw, t.resamples), Self), alpha);
            var s := Summary(g, ids, Negated(values), Sort(Samples(Negated(values), draw, t.resamples), Self), alpha);
            s.meanLift == -e.meanLift && s.ciLower == -e.ciUpper && s.ciUpper == -e.ciLower
  {
    hide Sort, At, Position, Mean, Resample;
    var alpha, samples := Tail(t.confidence), Samples(values, draw, t.resamples);
    MeanNegated(values);
    SamplesNegated(values, draw, t.resamples);
    SortNegated(samples);
    SameMembers(Sort(samples, Self), samples);
    QuantileReflects(Sort(samples, Self), alpha);
    QuantileReflects(Sort(samples, Self), 1.0 - alpha);
  }
}
