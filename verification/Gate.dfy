/** The default-on gate (eval/bootstrap_ab.py, `_gate`): its loops, and the verdict they amount to. */
module Gate {
  import opened Base
  import opened Metrics
  import opened NatOrder
  import opened Trials

  datatype Reason =
    | LiftNotCleared
    | NotHostStamped
    | TooDegraded
    | TailRegressed
    | Collapsed
    | Declined
    | NotPositive

  datatype Verdict = Verdict(
    defaultOn: bool, reasons: seq<Reason>, collapse: bool, goodhart: bool, maxTailRegression: real, positivity: bool)

  /** The lookups that raise: a generation with only one arm, or no metrics at all. */
  datatype GateError = MissingCell(arm: Arm, generation: nat) | NoGenerations

  // ---- the metrics by arm and generation -----------------------------------

  function Generations(ms: seq<Generation>): set<nat> {
    set m | m in ms :: m.generation
  }

  /** The dict built from the list: a later entry replaces an earlier one. */
  function Cell(ms: seq<Generation>, arm: Arm, g: nat): Option<Generation> {
    if |ms| == 0 then None
    else
      var last := ms[|ms| - 1];
      if last.arm == arm && last.generation == g then Some(last) else Cell(ms[..|ms| - 1], arm, g)
  }

  predicate Complete(ms: seq<Generation>) {
    |ms| > 0 && forall m :: m in ms ==> Cell(ms, Control, m.generation).Some? && Cell(ms, Treatment, m.generation).Some?
  }

  // ---- the verdict, declaratively ------------------------------------------

  /** How far the treatment's tail score is below the control's in one generation. */
  function TailGap(ms: seq<Generation>, g: nat): Option<real> {
    match (Cell(ms, Control, g), Cell(ms, Treatment, g))
    case (Some(c), Some(t)) =>
      if c.tailSuccess.Some? && t.tailSuccess.Some? then Some(c.tailSuccess.value - t.tailSuccess.value) else None
    case _ => None
  }

  /** The largest gap over `gs`, floored at 0. */
  ghost predicate IsMaxGap(ms: seq<Generation>, gs: seq<nat>, x: real) {
    && x >= 0.0
    && (forall g :: g in gs && TailGap(ms, g).Some? ==> TailGap(ms, g).value <= x)
    && (x == 0.0 || exists g :: g in gs && TailGap(ms, g) == Some(x))
  }

  function HeldOutAt(ms: seq<Generation>, g: nat): Option<real> {
    match Cell(ms, Treatment, g) case Some(m) => m.heldOutSuccess case None => None
  }

  /** Rise then fall: the treatment's held-out score falls below an earlier one, or below -1, by more than `drop`. */
  ghost predicate Declines(ms: seq<Generation>, gs: seq<nat>, drop: real) {
    exists j :: 0 <= j < |gs| && HeldOutAt(ms, gs[j]).Some? && FallsAt(ms, gs, j, drop)
  }

  ghost predicate FallsAt(ms: seq<Generation>, gs: seq<nat>, j: nat, drop: real)
    requires j < |gs| && HeldOutAt(ms, gs[j]).Some?
  {
    var value := HeldOutAt(ms, gs[j]).value;
    || -1.0 - value > drop
    || exists i :: 0 <= i < j && HeldOutAt(ms, gs[i]).Some? && HeldOutAt(ms, gs[i]).value - value > drop
  }

  predicate Collapses(baseline: Generation, m: Generation, t: Thresholds) {
    && baseline.entropy - m.entropy > t.maxEntropyDrop
    && m.taskSuccess <= baseline.taskSuccess + t.utilityFlatTolerance
  }

  predicate AnyCollapse(ms: seq<Generation>, gs: seq<nat>, t: Thresholds) {
    exists j | 1 <= j < |gs| :: CollapsesAt(ms, gs[0], gs[j], t)
  }

  predicate CollapsesAt(ms: seq<Generation>, first: nat, g: nat, t: Thresholds) {
    match (Cell(ms, Treatment, first), Cell(ms, Treatment, g))
    case (Some(baseline), Some(m)) => Collapses(baseline, m, t)
    case _ => false
  }

  predicate PositiveAt(ms: seq<Generation>, g: nat) {
    match Cell(ms, Treatment, g)
    case Some(m) => m.minProbability.Some? && m.minProbability.value > 0.0
    case None => false
  }

  predicate AnyDegraded(ms: seq<Generation>, t: Thresholds) {
    exists m | m in ms :: m.degradedRate > t.maxDegradedRate
  }

  function If(b: bool, reason: Reason): seq<Reason> {
    if b then [reason] else []
  }

  function Reasons(ciLower: real, host: bool, degraded: bool, v: Verdict, t: Thresholds): seq<Reason> {
    If(ciLower <= t.deltaMin, LiftNotCleared) + If(!host, NotHostStamped) + If(degraded, TooDegraded)
    + If(v.maxTailRegression > t.maxTailRegression, TailRegressed) + If(v.collapse, Collapsed)
    + If(v.goodhart, Declined) + If(!v.positivity, NotPositive)
  }

  ghost predicate Judged(v: Verdict, ciLower: real, ms: seq<Generation>, t: Thresholds, host: bool) {
    var gs := Ordered(Generations(ms));
    && IsMaxGap(ms, gs, v.maxTailRegression)
    && (v.collapse <==> AnyCollapse(ms, gs, t))
    && (v.goodhart <==> Declines(ms, gs, t.maxGoodhartDecline))
    && (v.positivity <==> forall g :: g in gs ==> PositiveAt(ms, g))
    && v.reasons == Reasons(ciLower, host, AnyDegraded(ms, t), v, t)
    && v.defaultOn == (v.reasons == [])
  }

  /** Default-on is allowed exactly when every condition holds. */
  lemma DefaultOnMeans(v: Verdict, ciLower: real, ms: seq<Generation>, t: Thresholds, host: bool)
    requires Judged(v, ciLower, ms, t, host)
    ensures var gs := Ordered(Generations(ms));
            v.defaultOn <==>
              && ciLower > t.deltaMin && host
              && (forall m :: m in ms ==> m.degradedRate <= t.maxDegradedRate)
              && v.maxTailRegression <= t.maxTailRegression
              && !AnyCollapse(ms, gs, t) && !Declines(ms, gs, t.maxGoodhartDecline)
              && (forall g :: g in gs ==> PositiveAt(ms, g))
  {
    hide Ordered, AnyCollapse, Declines, PositiveAt, IsMaxGap;
  }

  // ---- the computation -----------------------------------------------------

  method Judge(ciLower: real, ms: seq<Generation>, t: Thresholds, host: bool) returns (r: Result<Verdict, GateError>)
    requires Registered(t)
    ensures r.Ok? <==> Complete(ms)
    ensures r.Ok? ==> Judged(r.value, ciLower, ms, t, host)
  {
    hide Complete, BothArms, IsMaxGap, AnyCollapse, Declines, PositiveAt, AnyDegraded, Ordered, Generations;
    CompleteMeans(ms);
    var reasons := If(ciLower <= t.deltaMin, LiftNotCleared) + If(!host, NotHostStamped) + If(AnyDegraded(ms, t), TooDegraded);
    var gs := Ordered(Generations(ms));
    var maxTail :- TailRegression(ms, gs);
    reasons := reasons + If(maxTail > t.maxTailRegression, TailRegressed);
    if |gs| == 0 {
      return Err(NoGenerations);
    }
    var collapse := AnyCollapse(ms, gs, t);
    reasons := reasons + If(collapse, Collapsed);
    var goodhart := FindDecline(ms, gs, t.maxGoodhartDecline);
    reasons := reasons + If(goodhart, Declined);
    var positivity := forall g | g in gs :: PositiveAt(ms, g);
    reasons := reasons + If(!positivity, NotPositive);
    r := Ok(Verdict(reasons == [], reasons, collapse, goodhart, maxTail, positivity));
  }

  lemma CompleteMeans(ms: seq<Generation>)
    ensures var gs := Ordered(Generations(ms));
            Complete(ms) <==> |gs| > 0 && forall g :: g in gs ==> BothArms(ms, g)
  {
    hide Cell;
    var gs := Ordered(Generations(ms));
    OrderedNonempty(Generations(ms));
    assert forall m :: m in ms ==> m.generation in gs;
    if |ms| > 0 {
      assert ms[0] in ms;
    }
  }

  predicate BothArms(ms: seq<Generation>, g: nat) {
    Cell(ms, Control, g).Some? && Cell(ms, Treatment, g).Some?
  }

  method TailRegression(ms: seq<Generation>, gs: seq<nat>) returns (r: Result<real, GateError>)
    ensures r.Ok? <==> forall g :: g in gs ==> BothArms(ms, g)
    ensures r.Ok? ==> IsMaxGap(ms, gs, r.value)
  {
    var largest := 0.0;
    for i := 0 to |gs|
      invariant forall g :: g in gs[..i] ==> BothArms(ms, g)
      invariant IsMaxGap(ms, gs[..i], largest)
    {
      var g, before := gs[i], largest;
      assert g in gs;
      var control, treatment := Cell(ms, Control, g), Cell(ms, Treatment, g);
      if control.None? { return Err(MissingCell(Control, g)); }
      if treatment.None? { return Err(MissingCell(Treatment, g)); }
      var c, t := control.value.tailSuccess, treatment.value.tailSuccess;
      if c.Some? && t.Some? && c.value - t.value > largest {
        largest := c.value - t.value;
      }
      assert gs[..i + 1] == gs[..i] + [g];
      GapSnoc(ms, gs[..i], g, before, largest);
    }
    assert gs[..|gs|] == gs;
    r := Ok(largest);
  }

  lemma GapSnoc(ms: seq<Generation>, gs: seq<nat>, g: nat, before: real, after: real)
    requires IsMaxGap(ms, gs, before)
    requires after == if TailGap(ms, g).Some? && TailGap(ms, g).value > before then TailGap(ms, g).value else before
    ensures IsMaxGap(ms, gs + [g], after)
  {
    hide TailGap;
    if after == before && after != 0.0 {
      var h :| h in gs && TailGap(ms, h) == Some(before);
      assert h in gs + [g];
    } else if after != before {
      assert g in gs + [g];
    }
  }

  /** The peak loop. */
  method FindDecline(ms: seq<Generation>, gs: seq<nat>, drop: real) returns (goodhart: bool)
    requires drop >= 0.0
    ensures goodhart <==> Declines(ms, gs, drop)
  {
    hide HeldOutAt;
    goodhart := false;
    var peak := -1.0;
    for j := 0 to |gs|
      invariant IsPeak(ms, gs[..j], peak)
      invariant goodhart <==> Declines(ms, gs[..j], drop)
    {
      var value, before := HeldOutAt(ms, gs[j]), peak;
      assert gs[..j + 1] == gs[..j] + [gs[j]];
      if value.Some? {
        peak := if value.value > peak then value.value else peak;
        if peak - value.value > drop {
          goodhart := true;
        }
      }
      PeakSnoc(ms, gs[..j], gs[j], before, peak);
      DeclinesSnoc(ms, gs[..j], gs[j], before, drop);
    }
    assert gs[..|gs|] == gs;
  }

  /** The largest held-out score so far, floored at -1. */
  ghost predicate IsPeak(ms: seq<Generation>, gs: seq<nat>, peak: real) {
    && peak >= -1.0
    && (forall i :: 0 <= i < |gs| && HeldOutAt(ms, gs[i]).Some? ==> HeldOutAt(ms, gs[i]).value <= peak)
    && (peak == -1.0 || exists i :: 0 <= i < |gs| && HeldOutAt(ms, gs[i]) == Some(peak))
  }

  lemma PeakSnoc(ms: seq<Generation>, gs: seq<nat>, g: nat, before: real, after: real)
    requires IsPeak(ms, gs, before)
    requires after == if HeldOutAt(ms, g).Some? && HeldOutAt(ms, g).value > before then HeldOutAt(ms, g).value else before
    ensures IsPeak(ms, gs + [g], after)
  {
    hide HeldOutAt;
    var more := gs + [g];
    assert more[|gs|] == g;
    if after == before && after != -1.0 {
      var i :| 0 <= i < |gs| && HeldOutAt(ms, gs[i]) == Some(before);
      assert more[i] == gs[i];
    }
  }

  lemma DeclinesSnoc(ms: seq<Generation>, gs: seq<nat>, g: nat, peak: real, drop: real)
    requires IsPeak(ms, gs, peak) && drop >= 0.0
    ensures Declines(ms, gs + [g], drop)
      <==> Declines(ms, gs, drop) || (HeldOutAt(ms, g).Some? && peak - HeldOutAt(ms, g).value > drop)
  {
    hide HeldOutAt;
    var more, n := gs + [g], |gs|;
    assert more[n] == g && forall i :: 0 <= i < n ==> more[i] == gs[i];
    forall j | 0 <= j < n && HeldOutAt(ms, gs[j]).Some?
      ensures FallsAt(ms, more, j, drop) <==> FallsAt(ms, gs, j, drop)
    {
    }
    if HeldOutAt(ms, g).Some? {
      FallsFromPeak(ms, gs, g, peak, drop);
    }
    assert Declines(ms, gs, drop) ==> Declines(ms, more, drop) by {
      if Declines(ms, gs, drop) {
        var j :| 0 <= j < n && HeldOutAt(ms, gs[j]).Some? && FallsAt(ms, gs, j, drop);
        assert HeldOutAt(ms, more[j]).Some? && FallsAt(ms, more, j, drop);
      }
    }
  }

  lemma FallsFromPeak(ms: seq<Generation>, gs: seq<nat>, g: nat, peak: real, drop: real)
    requires IsPeak(ms, gs, peak) && HeldOutAt(ms, g).Some?
    ensures var more := gs + [g];
            more[|gs|] == g && (FallsAt(ms, more, |gs|, drop) <==> peak - HeldOutAt(ms, g).value > drop)
  {
    hide HeldOutAt;
    var more, n := gs + [g], |gs|;
    assert more[n] == g && forall i :: 0 <= i < n ==> more[i] == gs[i];
    if peak - HeldOutAt(ms, g).value > drop && peak != -1.0 {
      var i :| 0 <= i < n && HeldOutAt(ms, gs[i]) == Some(peak);
      assert HeldOutAt(ms, more[i]).Some?;
    }
  }

  // ---- on the records of a run ---------------------------------------------

  /** Scores are never below -1, so the flag is a fall below an earlier generation's score. */
  lemma GoodhartIsDecline(ms: seq<Generation>, gs: seq<nat>, drop: real)
    requires drop >= 0.0
    requires forall g :: g in gs && HeldOutAt(ms, g).Some? ==> HeldOutAt(ms, g).value >= -1.0
    ensures Declines(ms, gs, drop) <==>
            exists i, j :: 0 <= i < j < |gs| && HeldOutAt(ms, gs[i]).Some? && HeldOutAt(ms, gs[j]).Some?
                           && HeldOutAt(ms, gs[i]).value - HeldOutAt(ms, gs[j]).value > drop
  {
    hide HeldOutAt;
    assert forall j :: 0 <= j < |gs| ==> gs[j] in gs;
    if i, j :| 0 <= i < j < |gs| && HeldOutAt(ms, gs[i]).Some? && HeldOutAt(ms, gs[j]).Some?
               && HeldOutAt(ms, gs[i]).value - HeldOutAt(ms, gs[j]).value > drop {
      assert FallsAt(ms, gs, j, drop);
    }
  }

  lemma {:induction false} CellFound(ms: seq<Generation>, arm: Arm, g: nat)
    ensures Cell(ms, arm, g).Some? <==> exists i :: 0 <= i < |ms| && ms[i].arm == arm && ms[i].generation == g
    ensures Cell(ms, arm, g).Some? ==>
              Cell(ms, arm, g).value in ms && Cell(ms, arm, g).value.arm == arm && Cell(ms, arm, g).value.generation == g
  {
    if |ms| != 0 {
      var init := ms[..|ms| - 1];
      CellFound(init, arm, g);
      assert forall i :: 0 <= i < |init| ==> ms[i] == init[i];
    }
  }

  /** The gate answers on the metrics of any records in which each generation ran both arms. */
  lemma RunIsComplete(records: seq<TrialRecord>, tasks: Tasks, universe: seq<string>, entropy: Entropy)
    requires |records| > 0
    requires forall g :: CellKey(Control, g) in Keys(records) <==> CellKey(Treatment, g) in Keys(records)
    ensures Complete(GenerationMetrics(records, tasks, universe, entropy))
  {
    hide Measured, Group, Keys, CellKey, Cell;
    var ms := GenerationMetrics(records, tasks, universe, entropy);
    forall m | m in ms
      ensures Cell(ms, Control, m.generation).Some? && Cell(ms, Treatment, m.generation).Some?
    {
      var g := m.generation;
      MetricsCover(records, tasks, universe, entropy, Control, g);
      MetricsCover(records, tasks, universe, entropy, Treatment, g);
      CellFound(ms, Control, g);
      CellFound(ms, Treatment, g);
      assert m.arm == Control || m.arm == Treatment;
    }
    SomeMetrics(records);
  }

  lemma SomeMetrics(records: seq<TrialRecord>)
    requires |records| > 0
    ensures |Ordered(Keys(records))| > 0
  {
    assert records[0] in records;
    OrderedNonempty(Keys(records));
    assert KeyOf(records[0]) in Keys(records);
  }

  lemma {:induction false} CellUnique(ms: seq<Generation>, arm: Arm, g: nat, i: nat)
    requires i < |ms| && ms[i].arm == arm && ms[i].generation == g
    requires forall j :: i < j < |ms| ==> !(ms[j].arm == arm && ms[j].generation == g)
    ensures Cell(ms, arm, g) == Some(ms[i])
  {
    if i < |ms| - 1 {
      var init := ms[..|ms| - 1];
      CellUnique(init, arm, g, i);
    }
  }

  /** The cell the gate looks up is the measurement of exactly that arm's records of that generation. */
  lemma CellMeasures(records: seq<TrialRecord>, tasks: Tasks, universe: seq<string>, entropy: Entropy, arm: Arm, g: nat)
    requires CellKey(arm, g) in Keys(records)
    ensures Cell(GenerationMetrics(records, tasks, universe, entropy), arm, g)
      == Some(MetricsOf(CellKey(arm, g), Group(records, CellKey(arm, g)), tasks, universe, entropy))
  {
    hide MetricsOf, Group, Keys, CellKey, Cell;
    var ms, keys, k := GenerationMetrics(records, tasks, universe, entropy), Ordered(Keys(records)), CellKey(arm, g);
    assert k in keys;
    var i :| 0 <= i < |keys| && keys[i] == k;
    MetricsCover(records, tasks, universe, entropy, arm, g);
    MeasuredKey(records, tasks, universe, entropy, k);
    CellKeyInverse(ms[i].arm, ms[i].generation);
    CellKeyInverse(arm, g);
    CellUnique(ms, arm, g, i);
  }

  /** What the positivity flag proves: every treatment record gave every candidate of its task a positive chance. */
  lemma PositivityMeans(records: seq<TrialRecord>, tasks: Tasks, universe: seq<string>, entropy: Entropy, g: nat)
    requires CellKey(Treatment, g) in Keys(records)
    ensures PositiveAt(GenerationMetrics(records, tasks, universe, entropy), g)
      <==> forall r :: r in records && r.arm == Treatment && r.generation == g ==> Explores(r, tasks)
  {
    hide Cell, Explores, Keys;
    var k := CellKey(Treatment, g);
    CellMeasures(records, tasks, universe, entropy, Treatment, g);
    GroupNonempty(records, k);
    MinDeclaredPositive(Group(records, k), tasks);
    FilterMembers(records, InGroup(k));
    forall r: TrialRecord
      ensures InGroup(k)(r) <==> r.arm == Treatment && r.generation == g
    {
      CellKeyInverse(r.arm, r.generation);
      CellKeyInverse(Treatment, g);
    }
    assert forall r :: r in Group(records, k) <==> r in records && r.arm == Treatment && r.generation == g;
  }
}
