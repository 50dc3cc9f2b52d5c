/** The feedback phase of a generation: which memories are labelled, and the writes that reach both journals. */
module Feedback {
  import opened Base
  import opened Trials
  import opened Experiment

  /** A candidate memory and whether it is the task's gold memory. */
  type Label = (string, bool)

  function InEither(a: seq<string>, b: seq<string>): string -> bool {
    (id: string) => id in a || id in b
  }

  function Marked(gold: string): string -> Label {
    (id: string) => (id, id == gold)
  }

  /** The labels of one paired trial: its candidates that either arm recalled, unless an arm was degraded. */
  function Labels(tasks: Tasks, c: TrialRecord, t: TrialRecord): seq<Label> {
    if c.degraded || t.degraded || c.taskId !in tasks then []
    else
      var task := tasks[c.taskId];
      Map(Filter(task.candidates, InEither(c.selected, t.selected)), Marked(task.gold))
  }

  function WriteCall(s: Slot): Label -> Call {
    (l: Label) => Write(s.arm, s.task, s.generation, s.repetition, l.0, l.1)
  }

  function ArmWrites(s: Slot, labels: seq<Label>): seq<Call> {
    Map(labels, WriteCall(s))
  }

  /** Both journals receive the same labels, the control's first. */
  function SignalCalls(c: TrialRecord, t: TrialRecord, labels: seq<Label>): seq<Call> {
    ArmWrites(SlotOf(c), labels) + ArmWrites(SlotOf(t), labels)
  }

  /** The records of one trial: control, then treatment. */
  type Pair = (TrialRecord, TrialRecord)

  function PairLabels(tasks: Tasks, p: Pair): seq<Label> {
    Labels(tasks, p.0, p.1)
  }

  function PairCalls(tasks: Tasks, p: Pair): seq<Call> {
    SignalCalls(p.0, p.1, PairLabels(tasks, p))
  }

  /** The writes a generation's trials must produce. */
  function PhaseCalls(tasks: Tasks, pairs: seq<Pair>): seq<Call> {
    if |pairs| == 0 then [] else PhaseCalls(tasks, pairs[..|pairs| - 1]) + PairCalls(tasks, pairs[|pairs| - 1])
  }

  // ---- projections ---------------------------------------------------------

  datatype Note = Note(task: string, generation: nat, repetition: nat, mark: Label)

  function WrittenBy(arm: Arm): Call -> bool {
    (e: Call) => e.Write? && e.arm == arm
  }

  function NoteOf(): Call -> Note {
    (e: Call) => if e.Write? then Note(e.task, e.generation, e.repetition, (e.memory, e.helpful)) else Note("", 0, 0, ("", false))
  }

  function NoteFor(task: string, g: nat, rep: nat): Label -> Note {
    (l: Label) => Note(task, g, rep, l)
  }

  /** The journal of one arm: its writes, without the arm. */
  function Journal(calls: seq<Call>, arm: Arm): seq<Note> {
    Map(Filter(calls, WrittenBy(arm)), NoteOf())
  }

  lemma JournalConcat(a: seq<Call>, b: seq<Call>, arm: Arm)
    ensures Journal(a + b, arm) == Journal(a, arm) + Journal(b, arm)
  {
    FilterConcat(a, b, WrittenBy(arm));
    MapConcat(Filter(a, WrittenBy(arm)), Filter(b, WrittenBy(arm)), NoteOf());
  }

  /** What a block of writes of one arm adds to each journal. */
  lemma {:induction false} JournalOfArm(s: Slot, labels: seq<Label>, arm: Arm)
    ensures Journal(ArmWrites(s, labels), arm)
      == if s.arm == arm then Map(labels, NoteFor(s.task, s.generation, s.repetition)) else []
  {
    if |labels| != 0 {
      JournalOfArm(s, labels[1..], arm);
      assert ArmWrites(s, labels)[1..] == ArmWrites(s, labels[1..]);
    }
  }

  /** A whole signal adds the same notes to both journals. */
  lemma SignalIsSymmetric(c: TrialRecord, t: TrialRecord, labels: seq<Label>)
    requires c.arm == Control && t.arm == Treatment && SlotOf(t).(arm := Control) == SlotOf(c)
    ensures Journal(SignalCalls(c, t, labels), Control) == Journal(SignalCalls(c, t, labels), Treatment)
  {
    forall arm
      ensures Journal(SignalCalls(c, t, labels), arm)
        == Map(labels, NoteFor(c.taskId, c.generation, c.repetition))
    {
      JournalConcat(ArmWrites(SlotOf(c), labels), ArmWrites(SlotOf(t), labels), arm);
      JournalOfArm(SlotOf(c), labels, arm);
      JournalOfArm(SlotOf(t), labels, arm);
    }
  }

  function IsWriteOf(s: Slot): Call -> bool {
    (e: Call) => e.Write? && Slot(e.arm, e.task, e.generation, e.repetition) == s
  }

  function LabelOf(): Call -> Label {
    (e: Call) => if e.Write? then (e.memory, e.helpful) else ("", false)
  }

  /** The labels written for one trial slot. */
  function Written(calls: seq<Call>, s: Slot): seq<Label> {
    Map(Filter(calls, IsWriteOf(s)), LabelOf())
  }

  lemma WrittenConcat(a: seq<Call>, b: seq<Call>, s: Slot)
    ensures Written(a + b, s) == Written(a, s) + Written(b, s)
  {
    FilterConcat(a, b, IsWriteOf(s));
    MapConcat(Filter(a, IsWriteOf(s)), Filter(b, IsWriteOf(s)), LabelOf());
  }

  lemma {:induction false} WrittenOfArm(from: Slot, labels: seq<Label>, s: Slot)
    ensures Written(ArmWrites(from, labels), s) == if from == s then labels else []
  {
    if |labels| != 0 {
      WrittenOfArm(from, labels[1..], s);
      assert ArmWrites(from, labels)[1..] == ArmWrites(from, labels[1..]);
      assert [labels[0]] + labels[1..] == labels;
    }
  }

  lemma WrittenOfSignal(c: TrialRecord, t: TrialRecord, labels: seq<Label>, s: Slot)
    requires SlotOf(c) != SlotOf(t)
    ensures Written(SignalCalls(c, t, labels), s) == if s == SlotOf(c) || s == SlotOf(t) then labels else []
  {
    WrittenConcat(ArmWrites(SlotOf(c), labels), ArmWrites(SlotOf(t), labels), s);
    WrittenOfArm(SlotOf(c), labels, s);
    WrittenOfArm(SlotOf(t), labels, s);
  }

  // ---- pairs ---------------------------------------------------------------

  predicate IsPair(p: Pair) {
    && p.0.arm == Control && p.1.arm == Treatment && p.0.taskId == p.1.taskId
    && p.0.generation == p.1.generation && p.0.repetition == p.1.repetition && p.0.seed == p.1.seed
  }

  /** Every trial once. */
  ghost predicate Trialled(pairs: seq<Pair>) {
    && (forall i :: 0 <= i < |pairs| ==> IsPair(pairs[i]))
    && (forall i, j :: 0 <= i < j < |pairs| ==> SlotOf(pairs[i].0) != SlotOf(pairs[j].0))
  }

  lemma WrittenOfPair(tasks: Tasks, p: Pair, q: Pair)
    requires IsPair(p) && IsPair(q)
    ensures var labels := if SlotOf(p.0) == SlotOf(q.0) then PairLabels(tasks, p) else [];
            Written(PairCalls(tasks, p), SlotOf(q.0)) == labels == Written(PairCalls(tasks, p), SlotOf(q.1))
  {
    hide Labels, Written;
    WrittenOfSignal(p.0, p.1, PairLabels(tasks, p), SlotOf(q.0));
    WrittenOfSignal(p.0, p.1, PairLabels(tasks, p), SlotOf(q.1));
  }

  /** Trials outside the list get no write from its phase. */
  lemma {:induction false} WrittenElsewhere(tasks: Tasks, pairs: seq<Pair>, q: Pair)
    requires IsPair(q) && forall i :: 0 <= i < |pairs| ==> IsPair(pairs[i]) && SlotOf(pairs[i].0) != SlotOf(q.0)
    ensures Written(PhaseCalls(tasks, pairs), SlotOf(q.0)) == [] == Written(PhaseCalls(tasks, pairs), SlotOf(q.1))
  {
    if |pairs| != 0 {
      var init, last := pairs[..|pairs| - 1], pairs[|pairs| - 1];
      WrittenElsewhere(tasks, init, q);
      WrittenOfPair(tasks, last, q);
      WrittenConcat(PhaseCalls(tasks, init), PairCalls(tasks, last), SlotOf(q.0));
      WrittenConcat(PhaseCalls(tasks, init), PairCalls(tasks, last), SlotOf(q.1));
    }
  }

  /** What the phase writes for a trial of the list is exactly that trial's labels, in both journals. */
  lemma {:induction false} WrittenOfPhase(tasks: Tasks, pairs: seq<Pair>, i: nat)
    requires Trialled(pairs) && i < |pairs|
    ensures Written(PhaseCalls(tasks, pairs), SlotOf(pairs[i].0)) == PairLabels(tasks, pairs[i])
    ensures Written(PhaseCalls(tasks, pairs), SlotOf(pairs[i].1)) == PairLabels(tasks, pairs[i])
  {
    hide PairLabels, Written, PairCalls;
    var init, last, q := pairs[..|pairs| - 1], pairs[|pairs| - 1], pairs[i];
    WrittenConcat(PhaseCalls(tasks, init), PairCalls(tasks, last), SlotOf(q.0));
    WrittenConcat(PhaseCalls(tasks, init), PairCalls(tasks, last), SlotOf(q.1));
    WrittenOfPair(tasks, last, q);
    if i < |init| {
      WrittenOfPhase(tasks, init, i);
      assert init[i] == q && SlotOf(pairs[i].0) != SlotOf(pairs[|pairs| - 1].0);
    } else {
      WrittenElsewhere(tasks, init, q);
    }
  }

  lemma {:induction false} JournalsOfPhase(tasks: Tasks, pairs: seq<Pair>)
    requires forall i :: 0 <= i < |pairs| ==> IsPair(pairs[i])
    ensures Journal(PhaseCalls(tasks, pairs), Control) == Journal(PhaseCalls(tasks, pairs), Treatment)
  {
    if |pairs| != 0 {
      var init, last := pairs[..|pairs| - 1], pairs[|pairs| - 1];
      JournalsOfPhase(tasks, init);
      SignalIsSymmetric(last.0, last.1, PairLabels(tasks, last));
      hide Journal, PairLabels;
      JournalConcat(PhaseCalls(tasks, init), PairCalls(tasks, last), Control);
      JournalConcat(PhaseCalls(tasks, init), PairCalls(tasks, last), Treatment);
    }
  }

  // ---- pending signals: the loop's own bookkeeping ---------------------------

  /** A trial that has something to write: the index of its control record, and its labels. */
  datatype Signal = Signal(index: nat, labels: seq<Label>)

  /** The flat list of records, two by two. */
  function Flat(pairs: seq<Pair>): (r: seq<TrialRecord>)
    ensures |r| == 2 * |pairs|
  {
    if |pairs| == 0 then [] else Flat(pairs[..|pairs| - 1]) + [pairs[|pairs| - 1].0, pairs[|pairs| - 1].1]
  }

  /** The signals queued while scoring. */
  function Pending(tasks: Tasks, pairs: seq<Pair>): seq<Signal> {
    if |pairs| == 0 then []
    else
      var last := |pairs| - 1;
      var labels := PairLabels(tasks, pairs[last]);
      Pending(tasks, pairs[..last]) + if |labels| == 0 then [] else [Signal(2 * last, labels)]
  }

  ghost predicate InRange(signals: seq<Signal>, n: nat) {
    forall q :: 0 <= q < |signals| ==> signals[q].index + 1 < n
  }

  /** The calls of a list of signals. */
  function Drained(records: seq<TrialRecord>, signals: seq<Signal>): seq<Call> {
    if |signals| == 0 then []
    else Drained(records, signals[..|signals| - 1]) + CallsOf(records, signals[|signals| - 1])
  }

  function CallsOf(records: seq<TrialRecord>, s: Signal): seq<Call> {
    if s.index + 1 < |records| then SignalCalls(records[s.index], records[s.index + 1], s.labels) else []
  }

  function Credited(r: TrialRecord, writes: nat): TrialRecord {
    r.(feedbackWrites := writes)
  }

  /** The records after their signals were written: each of the two records gets its own count. */
  function Settled(records: seq<TrialRecord>, signals: seq<Signal>): (r: seq<TrialRecord>)
    ensures |r| == |records|
  {
    if |signals| == 0 then records
    else Credit(Settled(records, signals[..|signals| - 1]), signals[|signals| - 1].index, |signals[|signals| - 1].labels|)
  }

  function Credit(records: seq<TrialRecord>, i: nat, n: nat): (r: seq<TrialRecord>)
    ensures |r| == |records|
  {
    if i + 1 < |records| then records[i := Credited(records[i], n)][i + 1 := Credited(records[i + 1], n)] else records
  }

  lemma {:induction false} PendingInRange(tasks: Tasks, pairs: seq<Pair>)
    ensures InRange(Pending(tasks, pairs), 2 * |pairs|)
  {
    if |pairs| != 0 { PendingInRange(tasks, pairs[..|pairs| - 1]); }
  }

  /** Signals on a prefix do not see what follows it. */
  lemma {:induction false} DrainedOnPrefix(records: seq<TrialRecord>, more: seq<TrialRecord>, signals: seq<Signal>)
    requires InRange(signals, |records|)
    ensures Drained(records + more, signals) == Drained(records, signals)
    ensures Settled(records + more, signals) == Settled(records, signals) + more
  {
    hide SignalCalls;
    if |signals| != 0 {
      DrainedOnPrefix(records, more, signals[..|signals| - 1]);
    }
  }

  lemma PendingSnoc(tasks: Tasks, init: seq<Pair>, last: Pair)
    ensures var labels := PairLabels(tasks, last);
            Pending(tasks, init + [last]) == Pending(tasks, init) + if |labels| == 0 then [] else [Signal(2 * |init|, labels)]
  {
    hide PairLabels;
    var all := init + [last];
    assert all[..|all| - 1] == init;
  }

  lemma OneMoreSignal(records: seq<TrialRecord>, p: seq<Signal>, s: Signal)
    ensures Drained(records, p + [s]) == Drained(records, p) + CallsOf(records, s)
    ensures Settled(records, p + [s]) == Credit(Settled(records, p), s.index, |s.labels|)
  {
    hide CallsOf, Credit;
    assert (p + [s])[..|p|] == p;
  }

  /** The pair with both counts set to the writes made for it. */
  function Counted(tasks: Tasks): Pair -> Pair {
    (p: Pair) => var n := |PairLabels(tasks, p)|; (Credited(p.0, n), Credited(p.1, n))
  }

  /** One more scored trial: its signal comes last, and nothing is queued when it has no labels. */
  lemma OneMoreDrained(tasks: Tasks, init: seq<Pair>, last: Pair)
    ensures var all := init + [last];
            Drained(Flat(all), Pending(tasks, all)) == Drained(Flat(init), Pending(tasks, init)) + PairCalls(tasks, last)
  {
    hide Drained, Settled, PairLabels, SignalCalls, Pending, Flat, InRange;
    var p, labels, tail := Pending(tasks, init), PairLabels(tasks, last), [last.0, last.1];
    FlatSnoc(init, last);
    PendingSnoc(tasks, init, last);
    PendingInRange(tasks, init);
    DrainedOnPrefix(Flat(init), tail, p);
    if |labels| == 0 {
      NoSignal(last.0, last.1);
      assert p + [] == p;
    } else {
      OneMoreSignal(Flat(init) + tail, p, Signal(2 * |init|, labels));
    }
  }

  lemma OneMoreSettled(tasks: Tasks, init: seq<Pair>, last: Pair)
    requires last.0.feedbackWrites == last.1.feedbackWrites == 0
    ensures var all := init + [last];
            Settled(Flat(all), Pending(tasks, all))
            == Settled(Flat(init), Pending(tasks, init)) + [Counted(tasks)(last).0, Counted(tasks)(last).1]
  {
    hide Drained, Settled, PairLabels, SignalCalls, Pending, Flat, InRange, Credit;
    var p, labels, tail := Pending(tasks, init), PairLabels(tasks, last), [last.0, last.1];
    FlatSnoc(init, last);
    PendingSnoc(tasks, init, last);
    PendingInRange(tasks, init);
    DrainedOnPrefix(Flat(init), tail, p);
    if |labels| == 0 {
      assert p + [] == p;
    } else {
      OneMoreSignal(Flat(init) + tail, p, Signal(2 * |init|, labels));
      CreditTail(Settled(Flat(init), p), last.0, last.1, |labels|);
    }
  }

  lemma NoSignal(c: TrialRecord, t: TrialRecord)
    ensures SignalCalls(c, t, []) == []
  {
  }

  lemma CreditTail(a: seq<TrialRecord>, c: TrialRecord, t: TrialRecord, n: nat)
    ensures Credit(a + [c, t], |a|, n) == a + [Credited(c, n), Credited(t, n)]
  {
  }

  lemma NothingPending(tasks: Tasks)
    ensures Drained(Flat([]), Pending(tasks, [])) == []
    ensures Settled(Flat([]), Pending(tasks, [])) == Flat([])
  {
  }

  /** Draining the queue makes exactly the phase's calls. */
  lemma {:induction false} DrainedIsPhase(tasks: Tasks, pairs: seq<Pair>)
    ensures Drained(Flat(pairs), Pending(tasks, pairs)) == PhaseCalls(tasks, pairs)
  {
    hide Drained, Flat, Pending, PairCalls;
    if |pairs| != 0 {
      var init, last := pairs[..|pairs| - 1], pairs[|pairs| - 1];
      DrainedIsPhase(tasks, init);
      OneMoreDrained(tasks, init, last);
      assert pairs == init + [last];
    } else {
      NothingPending(tasks);
      assert pairs == [];
    }
  }

  /** After the queue is drained every record carries the number of labels of its trial, or still 0 when there are none. */
  lemma {:induction false} SettledIsCounted(tasks: Tasks, pairs: seq<Pair>)
    requires forall i :: 0 <= i < |pairs| ==> pairs[i].0.feedbackWrites == pairs[i].1.feedbackWrites == 0
    ensures Settled(Flat(pairs), Pending(tasks, pairs)) == Flat(Map(pairs, Counted(tasks)))
  {
    hide Counted, Settled, Pending, Flat, Map;
    if |pairs| != 0 {
      var init, last := pairs[..|pairs| - 1], pairs[|pairs| - 1];
      SettledIsCounted(tasks, init);
      OneMoreSettled(tasks, init, last);
      assert pairs == init + [last];
      MapSnoc(init, last, Counted(tasks));
      FlatSnoc(Map(init, Counted(tasks)), Counted(tasks)(last));
    } else {
      NothingPending(tasks);
      MapNothing(Counted(tasks));
      assert pairs == [];
    }
  }

  lemma FlatSnoc(pairs: seq<Pair>, p: Pair)
    ensures Flat(pairs + [p]) == Flat(pairs) + [p.0, p.1]
  {
    assert (pairs + [p])[..|pairs|] == pairs;
  }
}
