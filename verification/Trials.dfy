/** The records and thresholds of the paired bootstrap experiment (eval/bootstrap_ab.py). */
module Trials {
  import opened Base

  datatype Arm = Control | Treatment

  function Other(arm: Arm): Arm {
    if arm.Control? then Treatment else Control
  }

  datatype TaskSpec = TaskSpec(
    id: string, query: string, gold: string, candidates: seq<string>, tail: bool, heldOut: bool)

  /** The tasks by id. */
  type Tasks = map<string, TaskSpec>

  datatype TrialRecord = TrialRecord(
    taskId: string,
    arm: Arm,
    generation: nat,
    repetition: nat,
    seed: int,
    score: real,
    degraded: bool,
    failures: seq<string>,
    selected: seq<string>,
    declared: Option<map<string, real>>,
    feedbackWrites: nat)

  datatype Thresholds = Thresholds(
    deltaMin: real,
    confidence: real,
    resamples: nat,
    maxDegradedRate: real,
    maxTailRegression: real,
    maxEntropyDrop: real,
    utilityFlatTolerance: real,
    maxGoodhartDecline: real)

  predicate Unit(x: real) {
    0.0 <= x <= 1.0
  }

  /** What the constructor of the thresholds enforces. */
  predicate Registered(t: Thresholds) {
    && -1.0 <= t.deltaMin <= 1.0
    && 0.5 < t.confidence < 1.0
    && t.resamples >= 100
    && Unit(t.maxDegradedRate) && Unit(t.maxTailRegression) && Unit(t.maxEntropyDrop)
    && Unit(t.utilityFlatTolerance) && Unit(t.maxGoodhartDecline)
  }
}
