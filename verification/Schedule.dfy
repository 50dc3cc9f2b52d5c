/** The order in which the experiment runs its trials: generations, then shuffled tasks, then repetitions. */
module Schedule {
  import opened Base
  import opened Trials
  import opened Experiment

  function RepSlots(task: string, g: nat, reps: nat): (s: seq<Slot>)
    ensures |s| == reps
  {
    if reps == 0 then [] else RepSlots(task, g, reps - 1) + [Slot(Control, task, g, reps - 1)]
  }

  function TaskSlots(order: seq<TaskSpec>, g: nat, reps: nat): seq<Slot> {
    if |order| == 0 then []
    else TaskSlots(order[..|order| - 1], g, reps) + RepSlots(order[|order| - 1].id, g, reps)
  }

  type Orders = nat -> seq<TaskSpec>

  /** The control slots of a whole run. */
  function Plan(orders: Orders, generations: nat, reps: nat): seq<Slot> {
    if generations == 0 then []
    else Plan(orders, generations - 1, reps) + TaskSlots(orders(generations - 1), generations - 1, reps)
  }

  ghost predicate IsShuffle(orders: Orders, tasks: seq<TaskSpec>) {
    forall g :: multiset(orders(g)) == multiset(tasks)
  }

  predicate UniqueIds(tasks: seq<TaskSpec>) {
    forall i, j :: 0 <= i < j < |tasks| ==> tasks[i].id != tasks[j].id
  }

  // ---- what is scheduled ---------------------------------------------------

  lemma {:induction false} RepSlotsMembers(task: string, g: nat, reps: nat, s: Slot)
    ensures s in RepSlots(task, g, reps) <==> s.arm == Control && s.task == task && s.generation == g && s.repetition < reps
    ensures NoRepeats(RepSlots(task, g, reps))
  {
    if reps != 0 {
      RepSlotsMembers(task, g, reps - 1, s);
      var last := Slot(Control, task, g, reps - 1);
      RepSlotsMembers(task, g, reps - 1, last);
    }
  }

  ghost predicate HasTask(tasks: seq<TaskSpec>, id: string) {
    exists i :: 0 <= i < |tasks| && tasks[i].id == id
  }

  lemma {:induction false} TaskSlotsMembers(order: seq<TaskSpec>, g: nat, reps: nat, s: Slot)
    ensures s in TaskSlots(order, g, reps)
      <==> s.arm == Control && HasTask(order, s.task) && s.generation == g && s.repetition < reps
  {
    if |order| != 0 {
      var init, last := order[..|order| - 1], order[|order| - 1];
      TaskSlotsMembers(init, g, reps, s);
      RepSlotsMembers(last.id, g, reps, s);
      assert HasTask(order, s.task) <==> HasTask(init, s.task) || last.id == s.task by {
        if i :| 0 <= i < |init| && init[i].id == s.task { assert order[i] == init[i]; }
      }
    }
  }

  lemma {:induction false} TaskSlotsDistinct(order: seq<TaskSpec>, g: nat, reps: nat)
    requires UniqueIds(order)
    ensures NoRepeats(TaskSlots(order, g, reps))
  {
    if |order| != 0 {
      var init, last := order[..|order| - 1], order[|order| - 1];
      TaskSlotsDistinct(init, g, reps);
      RepSlotsMembers(last.id, g, reps, Slot(Control, "", 0, 0));
      forall s | s in TaskSlots(init, g, reps)
        ensures s !in RepSlots(last.id, g, reps)
      {
        TaskSlotsMembers(init, g, reps, s);
        RepSlotsMembers(last.id, g, reps, s);
      }
      JoinDistinct(TaskSlots(init, g, reps), RepSlots(last.id, g, reps));
    }
  }

  lemma JoinDistinct(a: seq<Slot>, b: seq<Slot>)
    requires NoRepeats(a) && NoRepeats(b) && forall s :: s in a ==> s !in b
    ensures NoRepeats(a + b)
  {
    forall i, j | 0 <= i < j < |a + b|
      ensures (a + b)[i] != (a + b)[j]
    {
      if i < |a| <= j {
        assert a[i] in a && b[j - |a|] in b;
      }
    }
  }

  lemma ShuffledHas(orders: Orders, tasks: seq<TaskSpec>, g: nat, id: string)
    requires IsShuffle(orders, tasks)
    ensures HasTask(orders(g), id) <==> HasTask(tasks, id)
    ensures |orders(g)| == |tasks|
  {
    var order := orders(g);
    assert |multiset(order)| == |order| && |multiset(tasks)| == |tasks|;
    forall t
      ensures t in order <==> t in tasks
    {
      assert t in multiset(order) <==> t in multiset(tasks);
    }
    if i :| 0 <= i < |order| && order[i].id == id { assert order[i] in tasks; }
    if i :| 0 <= i < |tasks| && tasks[i].id == id { assert tasks[i] in order; }
  }

  lemma {:induction false} ShuffledUnique(order: seq<TaskSpec>, tasks: seq<TaskSpec>)
    requires multiset(order) == multiset(tasks) && UniqueIds(tasks)
    ensures UniqueIds(order)
  {
    forall i, j | 0 <= i < j < |order|
      ensures order[i].id != order[j].id
    {
      assert order[i] in multiset(tasks) && order[j] in multiset(tasks);
      if order[i] == order[j] {
        TwiceCounted(order, i, j);
        OnceCounted(tasks, order[i]);
      } else {
        var a :| 0 <= a < |tasks| && tasks[a] == order[i];
        var b :| 0 <= b < |tasks| && tasks[b] == order[j];
        assert a != b;
      }
    }
  }

  lemma TwiceCounted(s: seq<TaskSpec>, i: nat, j: nat)
    requires i < j < |s| && s[i] == s[j]
    ensures multiset(s)[s[i]] >= 2
  {
    assert s == s[..i] + [s[i]] + s[i + 1..j] + [s[j]] + s[j + 1..];
  }

  lemma {:induction false} OnceCounted(s: seq<TaskSpec>, t: TaskSpec)
    requires UniqueIds(s)
    ensures multiset(s)[t] <= 1
  {
    if |s| != 0 {
      OnceCounted(s[1..], t);
      assert s == [s[0]] + s[1..];
      forall k | 0 <= k < |s[1..]|
        ensures s[1..][k] != s[0]
      {
        assert s[k + 1].id != s[0].id;
      }
    }
  }

  lemma {:induction false} TaskSlotsLength(order: seq<TaskSpec>, g: nat, reps: nat)
    ensures |TaskSlots(order, g, reps)| == |order| * reps
  {
    if |order| != 0 {
      TaskSlotsLength(order[..|order| - 1], g, reps);
      OneMoreTime(|order|, reps);
    }
  }

  /** Every task of every generation is tried `reps` times. */
  lemma {:induction false} PlanLength(orders: Orders, tasks: seq<TaskSpec>, generations: nat, reps: nat)
    requires IsShuffle(orders, tasks)
    ensures |Plan(orders, generations, reps)| == generations * (|tasks| * reps)
  {
    if generations != 0 {
      PlanLength(orders, tasks, generations - 1, reps);
      TaskSlotsLength(orders(generations - 1), generations - 1, reps);
      ShuffledHas(orders, tasks, generations - 1, "");
      var each := |tasks| * reps;
      OneMoreTime(generations, each);
    }
  }

  lemma OneMoreTime(n: int, x: int)
    ensures n * x == (n - 1) * x + x
  {
  }

  /** The plan is exactly the product of generations, tasks and repetitions, each once. */
  lemma {:induction false} PlanMembers(orders: Orders, tasks: seq<TaskSpec>, generations: nat, reps: nat, s: Slot)
    requires IsShuffle(orders, tasks)
    ensures s in Plan(orders, generations, reps)
      <==> s.arm == Control && HasTask(tasks, s.task) && s.generation < generations && s.repetition < reps
  {
    if generations != 0 {
      PlanMembers(orders, tasks, generations - 1, reps, s);
      TaskSlotsMembers(orders(generations - 1), generations - 1, reps, s);
      ShuffledHas(orders, tasks, generations - 1, s.task);
    }
  }

  lemma {:induction false} PlanDistinct(orders: Orders, tasks: seq<TaskSpec>, generations: nat, reps: nat)
    requires IsShuffle(orders, tasks) && UniqueIds(tasks)
    ensures NoRepeats(Plan(orders, generations, reps))
  {
    if generations != 0 {
      var g := generations - 1;
      PlanDistinct(orders, tasks, g, reps);
      ShuffledUnique(orders(g), tasks);
      TaskSlotsDistinct(orders(g), g, reps);
      forall s | s in Plan(orders, g, reps)
        ensures s !in TaskSlots(orders(g), g, reps)
      {
        PlanMembers(orders, tasks, g, reps, s);
        TaskSlotsMembers(orders(g), g, reps, s);
      }
      JoinDistinct(Plan(orders, g, reps), TaskSlots(orders(g), g, reps));
    }
  }
}
