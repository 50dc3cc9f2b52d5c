/** Per-arm, per-generation metrics of the experiment (eval/bootstrap_ab.py, `_generation_metrics`). */
module Metrics {
  import opened Base
  import opened GiniCoefficient
  import opened NatOrder
  import opened Quantiles
  import opened Trials

  datatype Generation = Generation(
    arm: Arm,
    generation: nat,
    taskSuccess: real,
    heldOutSuccess: Option<real>,
    tailSuccess: Option<real>,
    diversity: real,
    entropy: real,
    gini: real,
    minProbability: Option<real>,
    degradedRate: real)

  /** What the corpus checks guarantee about the records of a run. */
  predicate Covered(records: seq<TrialRecord>, tasks: Tasks) {
    forall r :: r in records ==> r.taskId in tasks && |tasks[r.taskId].candidates| > 0
  }

  // ---- groups --------------------------------------------------------------

  /** The sort key `(generation, arm)` as one number. */
  function CellKey(arm: Arm, g: nat): nat {
    2 * g + if arm.Control? then 0 else 1
  }

  function KeyOf(r: TrialRecord): nat {
    CellKey(r.arm, r.generation)
  }

  function InGroup(k: nat): TrialRecord -> bool {
    (r: TrialRecord) => KeyOf(r) == k
  }

  function Group(records: seq<TrialRecord>, k: nat): seq<TrialRecord> {
    Filter(records, InGroup(k))
  }

  function Keys(records: seq<TrialRecord>): set<nat> {
    set r | r in records :: KeyOf(r)
  }

  // ---- the measures of one group -------------------------------------------

  function ScoresWhere(group: seq<TrialRecord>, p: TrialRecord -> bool): seq<real> {
    Map(Filter(group, p), (r: TrialRecord) => r.score)
  }

  function MeanIfAny(s: seq<real>): Option<real> {
    if |s| > 0 then Some(Mean(s)) else None
  }

  function Anything(): TrialRecord -> bool {
    (r: TrialRecord) => true
  }

  function HeldOut(tasks: Tasks): TrialRecord -> bool {
    (r: TrialRecord) => r.taskId in tasks && tasks[r.taskId].heldOut
  }

  function TailTask(tasks: Tasks): TrialRecord -> bool {
    (r: TrialRecord) => r.taskId in tasks && tasks[r.taskId].tail
  }

  function Degraded(): TrialRecord -> bool {
    (r: TrialRecord) => r.degraded
  }

  function Selected(group: seq<TrialRecord>): multiset<string> {
    if |group| == 0 then multiset{} else Selected(group[..|group| - 1]) + multiset(group[|group| - 1].selected)
  }

  /** How often each memory of the snapshot was selected. */
  function Counts(group: seq<TrialRecord>, universe: seq<string>): (v: seq<nat>)
    ensures |v| == |universe|
  {
    var all := Selected(group);
    seq(|universe|, i requires 0 <= i < |universe| => all[universe[i]])
  }

  function Positive(): nat -> bool {
    (n: nat) => n > 0
  }

  /** One record declares a probability for each candidate of its task. */
  predicate DeclaresAll(r: TrialRecord, tasks: Tasks) {
    && r.taskId in tasks && |tasks[r.taskId].candidates| > 0 && r.declared.Some?
    && forall c :: c in tasks[r.taskId].candidates ==> c in r.declared.value
  }

  function LeastOf(declared: map<string, real>, candidates: seq<string>): (m: real)
    requires |candidates| > 0 && forall c :: c in candidates ==> c in declared
    ensures forall c :: c in candidates ==> m <= declared[c]
    ensures exists c :: c in candidates && declared[c] == m
  {
    var first := candidates[0];
    assert candidates == [first] + candidates[1..];
    if |candidates| == 1 then declared[first]
    else MinReal(declared[first], LeastOf(declared, candidates[1..]))
  }

  function MinReal(a: real, b: real): real {
    if a <= b then a else b
  }

  function RecordMin(r: TrialRecord, tasks: Tasks): (m: real)
    requires DeclaresAll(r, tasks)
  {
    LeastOf(r.declared.value, tasks[r.taskId].candidates)
  }

  /** The smallest probability declared in the group; None when some record declares too little, or there is none. */
  function MinDeclared(group: seq<TrialRecord>, tasks: Tasks): Option<real> {
    if |group| == 0 then None
    else
      var r, rest := group[|group| - 1], group[..|group| - 1];
      var before := MinDeclared(rest, tasks);
      if !DeclaresAll(r, tasks) || (before.None? && |rest| > 0) then None
      else Some(match before case None => RecordMin(r, tasks) case Some(m) => MinReal(m, RecordMin(r, tasks)))
  }

  /** The record gives every candidate of its task a positive probability. */
  predicate Explores(r: TrialRecord, tasks: Tasks) {
    DeclaresAll(r, tasks) && forall c :: c in tasks[r.taskId].candidates ==> r.declared.value[c] > 0.0
  }

  lemma LeastPositive(r: TrialRecord, tasks: Tasks)
    requires DeclaresAll(r, tasks)
    ensures RecordMin(r, tasks) > 0.0 <==> Explores(r, tasks)
  {
  }

  /** It is missing exactly when the group is empty or some record declares too little. */
  lemma {:induction false} MinDeclaredSome(group: seq<TrialRecord>, tasks: Tasks)
    ensures MinDeclared(group, tasks).Some? <==> |group| > 0 && forall r :: r in group ==> DeclaresAll(r, tasks)
  {
    hide DeclaresAll, RecordMin;
    if |group| != 0 {
      MinDeclaredSome(group[..|group| - 1], tasks);
      AllDeclareButLast(group, tasks);
    }
  }

  lemma AllDeclareButLast(group: seq<TrialRecord>, tasks: Tasks)
    requires |group| > 0
    ensures (forall r :: r in group ==> DeclaresAll(r, tasks)) <==>
            DeclaresAll(group[|group| - 1], tasks) && (forall r :: r in group[..|group| - 1] ==> DeclaresAll(r, tasks))
  {
    hide DeclaresAll;
    assert group == group[..|group| - 1] + [group[|group| - 1]];
  }

  /** A positive minimum means that every record of the group explores every candidate of its task. */
  lemma {:induction false} MinDeclaredPositive(group: seq<TrialRecord>, tasks: Tasks)
    requires |group| > 0
    ensures MinDeclared(group, tasks).Some? && MinDeclared(group, tasks).value > 0.0
      <==> forall r :: r in group ==> Explores(r, tasks)
  {
    var r, rest := group[|group| - 1], group[..|group| - 1];
    ExploresDeclares(r, tasks);
    hide DeclaresAll, RecordMin, Explores;
    if |rest| > 0 {
      MinDeclaredPositive(rest, tasks);
    }
    AllButLast(group, tasks);
  }

  lemma ExploresDeclares(r: TrialRecord, tasks: Tasks)
    ensures Explores(r, tasks) <==> DeclaresAll(r, tasks) && RecordMin(r, tasks) > 0.0
  {
    if DeclaresAll(r, tasks) { LeastPositive(r, tasks); }
  }

  lemma AllButLast(group: seq<TrialRecord>, tasks: Tasks)
    requires |group| > 0
    ensures (forall r :: r in group ==> Explores(r, tasks)) <==>
            Explores(group[|group| - 1], tasks) && (forall r :: r in group[..|group| - 1] ==> Explores(r, tasks))
  {
    hide Explores;
    assert group == group[..|group| - 1] + [group[|group| - 1]];
  }

  /** The loop with its early exit. */
  method ComputeMinDeclared(group: seq<TrialRecord>, tasks: Tasks) returns (m: Option<real>)
    ensures m == MinDeclared(group, tasks)
  {
    hide DeclaresAll, RecordMin;
    m := None;
    for i := 0 to |group|
      invariant m == MinDeclared(group[..i], tasks) && (m.Some? <==> i > 0)
    {
      var r := group[i];
      assert group[..i + 1][..i] == group[..i];
      if !DeclaresAll(r, tasks) {
        MinDeclaredSome(group, tasks);
        assert r in group;
        return None;
      }
      var least := RecordMin(r, tasks);
      m := Some(match m case None => least case Some(x) => MinReal(x, least));
    }
    assert group[..|group|] == group;
  }

  // ---- the metrics of a run ------------------------------------------------

  /** Selection entropy needs logarithms: any function of the counts. */
  type Entropy = seq<nat> -> real

  function Ratio(part: nat, whole: nat): real {
    if whole == 0 then 0.0 else part as real / whole as real
  }

  function MetricsOf(k: nat, group: seq<TrialRecord>, tasks: Tasks, universe: seq<string>, entropy: Entropy): Generation {
    MetricsWith(k, group, tasks, universe, entropy, MinDeclared(group, tasks))
  }

  /** The measurement, given the smallest declared probability. */
  function MetricsWith(k: nat, group: seq<TrialRecord>, tasks: Tasks, universe: seq<string>, entropy: Entropy,
                       least: Option<real>): Generation
  {
    var counts := Counts(group, universe);
    Generation(
      if k % 2 == 0 then Control else Treatment, k / 2,
      Mean(ScoresWhere(group, Anything())),
      MeanIfAny(ScoresWhere(group, HeldOut(tasks))),
      MeanIfAny(ScoresWhere(group, TailTask(tasks))),
      Ratio(|Filter(counts, Positive())|, |counts|),
      entropy(counts), Gini(counts),
      least,
      Ratio(|Filter(group, Degraded())|, |group|))
  }

  function Measured(records: seq<TrialRecord>, tasks: Tasks, universe: seq<string>, entropy: Entropy): nat -> Generation {
    (k: nat) => MetricsOf(k, Group(records, k), tasks, universe, entropy)
  }

  /** The metrics of every group that has a record, in the order of `(generation, arm)`. */
  function GenerationMetrics(records: seq<TrialRecord>, tasks: Tasks, universe: seq<string>, entropy: Entropy)
    : seq<Generation>
  {
    Map(Ordered(Keys(records)), Measured(records, tasks, universe, entropy))
  }

  type Groups = map<nat, seq<TrialRecord>>

  ghost predicate Grouped(groups: Groups, records: seq<TrialRecord>) {
    groups.Keys == Keys(records) && forall k :: k in groups ==> groups[k] == Group(records, k)
  }

  /** `universe` is not empty: the corpus checks require a gold memory per task. */
  method ComputeMetrics(records: seq<TrialRecord>, tasks: Tasks, universe: seq<string>, entropy: Entropy)
    returns (ms: seq<Generation>)
    requires |universe| > 0 && Covered(records, tasks)
    ensures ms == GenerationMetrics(records, tasks, universe, entropy)
  {
    hide Map, MetricsWith, MinDeclared, Group, Keys;
    var groups := GroupRecords(records);
    var keys := Ordered(groups.Keys);
    MapNothing(Measured(records, tasks, universe, entropy));
    ms := [];
    for i := 0 to |keys|
      invariant ms == Map(keys[..i], Measured(records, tasks, universe, entropy))
    {
      var k := keys[i];
      assert k in keys && keys[..i + 1] == keys[..i] + [k];
      MapSnoc(keys[..i], k, Measured(records, tasks, universe, entropy));
      var least := ComputeMinDeclared(groups[k], tasks);
      assert MetricsOf(k, groups[k], tasks, universe, entropy) == MetricsWith(k, groups[k], tasks, universe, entropy, least);
      ms := ms + [MetricsWith(k, groups[k], tasks, universe, entropy, least)];
    }
    assert keys[..|keys|] == keys;
  }

  method GroupRecords(records: seq<TrialRecord>) returns (groups: Groups)
    ensures Grouped(groups, records)
  {
    groups := map[];
    for i := 0 to |records|
      invariant Grouped(groups, records[..i])
    {
      var r, before := records[i], groups;
      var k := KeyOf(r);
      groups := groups[k := (if k in groups then groups[k] else []) + [r]];
      assert records[..i + 1] == records[..i] + [r];
      GroupedSnoc(before, records[..i], r);
    }
    assert records[..|records|] == records;
  }

  lemma GroupedSnoc(groups: Groups, records: seq<TrialRecord>, r: TrialRecord)
    requires Grouped(groups, records)
    ensures Grouped(groups[KeyOf(r) := (if KeyOf(r) in groups then groups[KeyOf(r)] else []) + [r]], records + [r])
  {
    var k := KeyOf(r);
    KeysSnoc(records, r);
    GroupNonempty(records, k);
    forall x
      ensures Group(records + [r], x) == Group(records, x) + if x == k then [r] else []
    {
      FilterSnoc(records, r, InGroup(x));
    }
  }

  lemma KeysSnoc(records: seq<TrialRecord>, r: TrialRecord)
    ensures Keys(records + [r]) == Keys(records) + {KeyOf(r)}
  {
  }

  lemma GroupNonempty(records: seq<TrialRecord>, k: nat)
    ensures |Group(records, k)| > 0 <==> k in Keys(records)
  {
    var group := Group(records, k);
    FilterMembers(records, InGroup(k));
    if |group| > 0 {
      assert group[0] in group;
    }
    if k in Keys(records) {
      var r :| r in records && KeyOf(r) == k;
      assert r in group;
    }
  }

  // ---- what is in the list -------------------------------------------------

  lemma CellKeyInverse(arm: Arm, g: nat)
    ensures CellKey(arm, g) / 2 == g && CellKey(arm, g) % 2 == if arm.Control? then 0 else 1
  {
  }

  lemma MeasuredKey(records: seq<TrialRecord>, tasks: Tasks, universe: seq<string>, entropy: Entropy, k: nat)
    ensures var m := Measured(records, tasks, universe, entropy)(k); CellKey(m.arm, m.generation) == k
  {
    hide Group, Counts, MinDeclared, ScoresWhere, Mean, Filter;
  }

  /** The list has an entry for an arm and generation exactly when a record does, and never two. */
  lemma MetricsCover(records: seq<TrialRecord>, tasks: Tasks, universe: seq<string>, entropy: Entropy, arm: Arm, g: nat)
    ensures var ms := GenerationMetrics(records, tasks, universe, entropy);
            && ((exists i :: 0 <= i < |ms| && ms[i].arm == arm && ms[i].generation == g)
                <==> CellKey(arm, g) in Keys(records))
            && (forall i, j :: 0 <= i < j < |ms| ==> CellKey(ms[i].arm, ms[i].generation) < CellKey(ms[j].arm, ms[j].generation))
  {
    hide Keys, Measured, CellKey;
    var keys := Ordered(Keys(records));
    var ms := GenerationMetrics(records, tasks, universe, entropy);
    forall i | 0 <= i < |ms|
      ensures CellKey(ms[i].arm, ms[i].generation) == keys[i]
    {
      MeasuredKey(records, tasks, universe, entropy, keys[i]);
    }
    if CellKey(arm, g) in Keys(records) {
      assert CellKey(arm, g) in keys;
      var i :| 0 <= i < |keys| && keys[i] == CellKey(arm, g);
      CellKeyInverse(ms[i].arm, ms[i].generation);
      CellKeyInverse(arm, g);
      assert ms[i].arm == arm && ms[i].generation == g;
    }
    if i :| 0 <= i < |ms| && ms[i].arm == arm && ms[i].generation == g {
      assert keys[i] in keys;
    }
  }
}
