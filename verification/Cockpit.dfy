/** Sessions in the cockpit (registry.py, intent.py, core.py): which thread may be continued, from what, and what ends it. */
module Cockpit {
  import opened Base
  import opened Text
  import opened Checkpoints
  import opened BrainSession
  import Approval

  // ---- the session table ---------------------------------------------------

  datatype Status = Running | Dead | Closed

  datatype Record = Record(container: Option<string>, image: Option<string>, caps: set<string>, status: Status)

  type Records = map<string, Record>

  function Sessions(records: Records): set<string> {
    set t | t in records && records[t].status.Running?
  }

  /** In place: a re-launch keeps the granted capabilities. */
  function WithContainer(records: Records, thread: string, container: string, image: Option<string>): Records {
    if thread !in records then records[thread := Record(Some(container), image, {}, Running)]
    else
      var r := records[thread];
      records[thread := r.(container := Some(container), image := if image.Some? then image else r.image, status := Running)]
  }

  function WithClosed(records: Records, thread: string): Records {
    if thread in records then records[thread := records[thread].(status := Closed)] else records
  }

  predicate Vanished(r: Record, live: set<string>) {
    r.container.Some? && r.container.value !in live
  }

  function Reconciled(records: Records, live: set<string>): Records {
    map t | t in records :: if Vanished(records[t], live) then records[t].(status := Dead) else records[t]
  }

  class SessionRegistry {
    var records: Records

    constructor ()
      ensures records == map[]
    {
      records := map[];
    }

    method Add(thread: string)
      modifies this
      ensures records == old(records)[thread := Record(None, None, {}, Running)]
    {
      records := records[thread := Record(None, None, {}, Running)];
    }

    method SetContainer(thread: string, container: string, image: Option<string>)
      modifies this
      ensures records == WithContainer(old(records), thread, container, image)
    {
      if thread !in records {
        records := records[thread := Record(Some(container), image, {}, Running)];
        return;
      }
      var r := records[thread].(container := Some(container));
      if image.Some? {
        r := r.(image := image);
      }
      records := records[thread := r.(status := Running)];
    }

    method Close(thread: string)
      modifies this
      ensures records == WithClosed(old(records), thread)
    {
      if thread in records {
        records := records[thread := records[thread].(status := Closed)];
      }
    }

    /** Every record is visited; a vanished container kills its session. */
    method Reconcile(live: set<string>)
      modifies this
      ensures records == Reconciled(old(records), live)
    {
      var todo := records.Keys;
      while todo != {}
        invariant todo <= records.Keys == old(records).Keys
        invariant forall t :: t in records ==>
          records[t] == if t in todo then old(records)[t] else Reconciled(old(records), live)[t]
      {
        var t :| t in todo;
        if Vanished(records[t], live) {
          records := records[t := records[t].(status := Dead)];
        }
        todo := todo - {t};
      }
    }
  }

  // ---- routing -------------------------------------------------------------

  datatype Event = Event(thread: string, text: string, isReply: bool, sender: Option<string>)

  datatype Intent = Launch | Continue | ShowStatus | Approve | Deny | Kill

  function Classify(lower: string -> string, e: Event, known: set<string>): Intent {
    var text := Strip(e.text);
    var command := if text == "" then "" else lower(Word(text));
    if command == "/status" then ShowStatus
    else if command == "/kill" then Kill
    else if command == "/approve" then Approve
    else if command == "/deny" then Deny
    else if e.isReply && e.thread in known then Continue
    else Launch
  }

  // ---- the state and its history -------------------------------------------

  /** What happened to a thread, in order. */
  datatype Fact =
    | Launched(thread: string)
    | Resumed(thread: string, from: Checkpoint)
    | TurnDone(thread: string, checkpoint: Checkpoint)
    | Ended(thread: string)

  datatype State = State(records: Records, saved: map<string, Checkpoint>, trace: seq<Fact>)

  datatype Config = Config(container: bool, gate: Approval.Gate, hasLauncher: bool, lower: string -> string)

  /**
   * What the outside does during one event: the membrane's answer on the spec, the grounded prompt (None when the
   * memory raised), the started container (None when starting raised), the brain's stream, and a failing kill.
   */
  datatype Outside = Outside(
    specOk: bool,
    prompt: Option<string>,
    started: Option<(string, string)>,
    brain: (Task, Option<Checkpoint>) -> seq<Item>,
    killRaises: bool)

  function Items(c: Config, o: Outside, task: Task, prior: Option<Checkpoint>): seq<Item> {
    if c.container && o.started.None? then [StreamError] else o.brain(task, prior)
  }

  /** The record is armed the moment the container starts. */
  function Armed(c: Config, records: Records, thread: string, o: Outside): Records {
    if c.container && o.started.Some? then WithContainer(records, thread, o.started.value.0, Some(o.started.value.1))
    else records
  }

  /** A failed run closes the session when it ran in a container; in-process nothing was registered. */
  function FailedRun(c: Config, s: State, thread: string): State {
    if c.container then State(WithClosed(s.records, thread), s.saved, s.trace + [Ended(thread)]) else s
  }

  function Finish(c: Config, s: State, thread: string, launch: bool, outcome: Outcome): State {
    match outcome
    case Completed(result) =>
      var inProcess := launch && !c.container;
      State(if inProcess then s.records[thread := Record(None, None, {}, Running)] else s.records,
            s.saved[thread := result.checkpoint],
            s.trace + (if inProcess then [Launched(thread)] else []) + [TurnDone(thread, result.checkpoint)])
    case _ => FailedRun(c, s, thread)
  }

  function DoLaunch(c: Config, s: State, thread: string, prompt: string, o: Outside): State {
    var facts := if c.container && o.started.Some? then [Launched(thread)] else [];
    var armed := s.(records := Armed(c, s.records, thread, o), trace := s.trace + facts);
    Finish(c, armed, thread, true, Driven(thread, Items(c, o, Task(prompt, thread), None)))
  }

  function DoContinue(c: Config, s: State, thread: string, prompt: string, o: Outside): State {
    if thread !in s.saved then FailedRun(c, s, thread)
    else
      var prior := s.saved[thread];
      var armed := s.(records := Armed(c, s.records, thread, o), trace := s.trace + [Resumed(thread, prior)]);
      Finish(c, armed, thread, false, Driven(thread, Items(c, o, Task(prompt, thread), Some(prior))))
  }

  function DoTask(c: Config, s: State, thread: string, launch: bool, o: Outside): State {
    if (c.container && !o.specOk) || o.prompt.None? then s
    else if launch then DoLaunch(c, s, thread, o.prompt.value, o)
    else DoContinue(c, s, thread, o.prompt.value, o)
  }

  /** A refused kill changes nothing; an authorised one closes the session even when killing the container raises. */
  function DoKill(c: Config, s: State, e: Event): State {
    if !Approval.ClickAuthorized(c.gate, e.sender) then s
    else State(WithClosed(s.records, e.thread), s.saved, s.trace + [Ended(e.thread)])
  }

  function HandleEvent(c: Config, s: State, e: Event, o: Outside): State {
    match Classify(c.lower, e, Sessions(s.records))
    case Kill => DoKill(c, s, e)
    case Launch => DoTask(c, s, e.thread, true, o)
    case Continue => DoTask(c, s, e.thread, false, o)
    case _ => s
  }

  function EndedFacts(threads: seq<string>): seq<Fact> {
    if |threads| == 0 then [] else EndedFacts(threads[..|threads| - 1]) + [Ended(threads[|threads| - 1])]
  }

  datatype Input = Message(event: Event, outside: Outside) | Restart(live: Option<set<string>>, ended: seq<string>)

  /** On a restart the sessions whose container vanished end; a failed enumeration leaves them alone. */
  function Step(c: Config, s: State, i: Input): State {
    match i
    case Message(e, o) => HandleEvent(c, s, e, o)
    case Restart(live, ended) =>
      if !c.container || live.None? then s
      else State(Reconciled(s.records, live.value), s.saved, s.trace + EndedFacts(ended))
  }

  // ---- the handlers --------------------------------------------------------

  class Handler {
    const config: Config
    const registry: SessionRegistry
    const session: Session
    const checkpoints: CheckpointStore
    ghost var trace: seq<Fact>

    ghost predicate Valid()
      reads this
    {
      session.checkpoints == checkpoints
    }

    ghost function Now(): State
      reads this, registry, checkpoints
    {
      State(registry.records, checkpoints.saved, trace)
    }

    constructor (config: Config, registry: SessionRegistry, session: Session)
      ensures Valid() && this.config == config && this.registry == registry && this.session == session
      ensures this.checkpoints == session.checkpoints && trace == []
    {
      this.config, this.registry, this.session, this.checkpoints, trace := config, registry, session, session.checkpoints, [];
    }

    method HandleTask(thread: string, launch: bool, o: Outside)
      requires Valid()
      modifies this`trace, registry, checkpoints
      ensures Now() == DoTask(config, old(Now()), thread, launch, o)
    {
      if config.container && !o.specOk { return; }
      if o.prompt.None? { return; }
      var task := Task(o.prompt.value, thread);
      var prior: Option<Checkpoint> := None;
      if !launch {
        prior := checkpoints.Load(thread);
        if prior.None? {
          Fail(thread);
          return;
        }
        trace := trace + [Resumed(thread, prior.value)];
      }
      if config.container && o.started.Some? {
        registry.SetContainer(thread, o.started.value.0, Some(o.started.value.1));
        if launch { trace := trace + [Launched(thread)]; }
      }
      var outcome := session.Drive(task, Items(config, o, task, prior));
      if outcome.Completed? {
        if launch && !config.container {
          registry.Add(thread);
          trace := trace + [Launched(thread)];
        }
        trace := trace + [TurnDone(thread, outcome.result.checkpoint)];
      } else {
        Fail(thread);
      }
    }

    method Fail(thread: string)
      modifies this`trace, registry
      ensures Now() == FailedRun(config, old(Now()), thread)
    {
      if config.container {
        registry.Close(thread);
        trace := trace + [Ended(thread)];
      }
    }

    method HandleKill(e: Event, o: Outside)
      modifies this`trace, registry
      ensures Now() == DoKill(config, old(Now()), e)
    {
      if !Approval.ClickAuthorized(config.gate, e.sender) { return; }
      trace := trace + [Ended(e.thread)];
      var r := if e.thread in registry.records then registry.records[e.thread].container else None;
      if r.Some? && r.value != "" && config.hasLauncher && o.killRaises {
        registry.Close(e.thread);
        return;
      }
      registry.Close(e.thread);
    }

    /** Best effort: a failed enumeration, like an in-process cockpit, leaves every record alone. */
    method ReconcileOnStart(live: Option<set<string>>, ghost ended: seq<string>)
      modifies this`trace, registry
      ensures Now() == Step(config, old(Now()), Restart(live, ended))
    {
      if !config.container { return; }
      if live.None? { return; }
      registry.Reconcile(live.value);
      trace := trace + EndedFacts(ended);
    }

    method Handle(e: Event, o: Outside)
      requires Valid()
      modifies this`trace, registry, checkpoints
      ensures Now() == HandleEvent(config, old(Now()), e, o)
    {
      var intent := Classify(config.lower, e, Sessions(registry.records));
      match intent {
        case Kill => HandleKill(e, o);
        case Launch => HandleTask(e.thread, true, o);
        case Continue => HandleTask(e.thread, false, o);
        case _ =>
      }
    }
  }

  // ---- what every history keeps --------------------------------------------

  /** The checkpoint of the thread's latest completed turn. */
  function LastCompleted(trace: seq<Fact>, thread: string): Option<Checkpoint> {
    if |trace| == 0 then None
    else
      var last := trace[|trace| - 1];
      if last.TurnDone? && last.thread == thread then Some(last.checkpoint) else LastCompleted(trace[..|trace| - 1], thread)
  }

  /** Launched, and not ended since. */
  function Alive(trace: seq<Fact>, thread: string): bool {
    if |trace| == 0 then false
    else
      var last := trace[|trace| - 1];
      if last.thread == thread && last.Launched? then true
      else if last.thread == thread && last.Ended? then false
      else Alive(trace[..|trace| - 1], thread)
  }

  /** Each continuation started from the latest completed turn of a thread that had not ended. */
  ghost predicate ContinuedRightly(trace: seq<Fact>) {
    forall i :: 0 <= i < |trace| && trace[i].Resumed? ==>
      LastCompleted(trace[..i], trace[i].thread) == Some(trace[i].from) && Alive(trace[..i], trace[i].thread)
  }

  ghost predicate Resumable(s: State, thread: string) {
    thread in s.saved && LastCompleted(s.trace, thread) == Some(s.saved[thread]) && Alive(s.trace, thread)
  }

  ghost predicate Inv(s: State) {
    && ContinuedRightly(s.trace)
    && (forall t :: t in Sessions(s.records) ==> Resumable(s, t))
  }

  lemma FactAfter(trace: seq<Fact>, fact: Fact, thread: string)
    ensures LastCompleted(trace + [fact], thread)
      == if fact.TurnDone? && fact.thread == thread then Some(fact.checkpoint) else LastCompleted(trace, thread)
    ensures Alive(trace + [fact], thread)
      == if fact.thread == thread && fact.Launched? then true
         else if fact.thread == thread && fact.Ended? then false else Alive(trace, thread)
  {
    assert (trace + [fact])[..|trace|] == trace;
  }

  lemma RightlyAfter(trace: seq<Fact>, fact: Fact)
    requires ContinuedRightly(trace)
    requires fact.Resumed? ==> LastCompleted(trace, fact.thread) == Some(fact.from) && Alive(trace, fact.thread)
    ensures ContinuedRightly(trace + [fact])
  {
    var more := trace + [fact];
    forall i | 0 <= i < |more| && more[i].Resumed?
      ensures LastCompleted(more[..i], more[i].thread) == Some(more[i].from) && Alive(more[..i], more[i].thread)
    {
      assert more[..i] == trace[..i];
      if i == |trace| { assert trace[..i] == trace; }
    }
  }

  /** Ending a thread: its record is no longer running, nothing else moves. */
  lemma EndKeeps(s: State, thread: string)
    requires ContinuedRightly(s.trace)
    requires forall t :: t in Sessions(s.records) && t != thread ==> Resumable(s, t)
    ensures Inv(State(WithClosed(s.records, thread), s.saved, s.trace + [Ended(thread)]))
  {
    var after := State(WithClosed(s.records, thread), s.saved, s.trace + [Ended(thread)]);
    RightlyAfter(s.trace, Ended(thread));
    forall t | t in Sessions(after.records)
      ensures Resumable(after, t)
    {
      assert t != thread && t in Sessions(s.records);
      FactAfter(s.trace, Ended(thread), t);
    }
  }

  /** A completed turn of a thread that is alive makes it resumable, from that turn. */
  lemma CompleteKeeps(s: State, thread: string, cp: Checkpoint)
    requires ContinuedRightly(s.trace) && Alive(s.trace, thread)
    requires forall t :: t in Sessions(s.records) && t != thread ==> Resumable(s, t)
    ensures Inv(State(s.records, s.saved[thread := cp], s.trace + [TurnDone(thread, cp)]))
  {
    var after := State(s.records, s.saved[thread := cp], s.trace + [TurnDone(thread, cp)]);
    RightlyAfter(s.trace, TurnDone(thread, cp));
    forall t | t in Sessions(after.records)
      ensures Resumable(after, t)
    {
      FactAfter(s.trace, TurnDone(thread, cp), t);
    }
  }

  ghost predicate OthersOk(s: State, thread: string) {
    ContinuedRightly(s.trace) && forall t :: t in Sessions(s.records) && t != thread ==> Resumable(s, t)
  }

  /** Arming the record of `thread`, or noting a fact about it, leaves the other threads as they were. */
  lemma NoteKeepsOthers(s: State, records: Records, fact: Fact)
    requires OthersOk(s, fact.thread)
    requires !fact.TurnDone? && (fact.Resumed? ==> Resumable(s, fact.thread) && fact.from == s.saved[fact.thread])
    requires forall t :: t != fact.thread ==> (t in Sessions(records) ==> t in Sessions(s.records))
    ensures OthersOk(s.(records := records, trace := s.trace + [fact]), fact.thread)
  {
    var after := s.(records := records, trace := s.trace + [fact]);
    RightlyAfter(s.trace, fact);
    forall t | t in Sessions(after.records) && t != fact.thread
      ensures Resumable(after, t)
    {
      FactAfter(s.trace, fact, t);
    }
  }

  lemma ArmedOthers(c: Config, records: Records, thread: string, o: Outside)
    ensures forall t :: t != thread ==> (t in Sessions(Armed(c, records, thread, o)) <==> t in Sessions(records))
  {
  }

  lemma NotStarted(thread: string)
    ensures Driven(thread, [StreamError]) == Outcome.Failed
  {
    assert [StreamError][0] == StreamError;
  }

  lemma LaunchKeeps(c: Config, s: State, thread: string, prompt: string, o: Outside)
    requires Inv(s)
    ensures Inv(DoLaunch(c, s, thread, prompt, o))
  {
    hide LastCompleted, Alive, ContinuedRightly, Driven, Resumable;
    var outcome := Driven(thread, Items(c, o, Task(prompt, thread), None));
    ArmedOthers(c, s.records, thread, o);
    if c.container {
      if o.started.Some? {
        var armed := s.(records := Armed(c, s.records, thread, o), trace := s.trace + [Launched(thread)]);
        NoteKeepsOthers(s, armed.records, Launched(thread));
        FactAfter(s.trace, Launched(thread), thread);
        FinishKeeps(armed, thread, outcome);
        assert s.trace + [Launched(thread)] + [] == armed.trace;
      } else {
        assert s.trace + [] == s.trace;
        NotStarted(thread);
        EndKeeps(s, thread);
      }
    } else if outcome.Completed? {
      var records := s.records[thread := Record(None, None, {}, Running)];
      var launched := s.(records := records, trace := s.trace + [Launched(thread)]);
      NoteKeepsOthers(s, records, Launched(thread));
      FactAfter(s.trace, Launched(thread), thread);
      CompleteKeeps(launched, thread, outcome.result.checkpoint);
      assert s.trace + [] == s.trace;
    } else {
      assert s.trace + [] == s.trace;
    }
  }

  /** In a container, however the armed run ends. */
  lemma FinishKeeps(s: State, thread: string, outcome: Outcome)
    requires OthersOk(s, thread) && Alive(s.trace, thread)
    ensures outcome.Completed? ==>
      Inv(State(s.records, s.saved[thread := outcome.result.checkpoint], s.trace + [TurnDone(thread, outcome.result.checkpoint)]))
    ensures Inv(State(WithClosed(s.records, thread), s.saved, s.trace + [Ended(thread)]))
  {
    hide LastCompleted, Alive, ContinuedRightly, Resumable;
    EndKeeps(s, thread);
    if outcome.Completed? { CompleteKeeps(s, thread, outcome.result.checkpoint); }
  }

  lemma ContinueKeeps(c: Config, s: State, thread: string, prompt: string, o: Outside)
    requires Inv(s) && thread in Sessions(s.records)
    ensures Inv(DoContinue(c, s, thread, prompt, o))
  {
    assert Resumable(s, thread);
    var prior := s.saved[thread];
    var outcome := Driven(thread, Items(c, o, Task(prompt, thread), Some(prior)));
    var armed := s.(records := Armed(c, s.records, thread, o), trace := s.trace + [Resumed(thread, prior)]);
    ArmedOthers(c, s.records, thread, o);
    hide LastCompleted, Alive, ContinuedRightly, Driven, Armed;
    NoteKeepsOthers(s, armed.records, Resumed(thread, prior));
    FactAfter(s.trace, Resumed(thread, prior), thread);
    FinishKeeps(armed, thread, outcome);
    if !outcome.Completed? && !c.container {
      InProcessKept(c, s, armed, thread, prior, o);
    }
    assert armed.trace + [] == armed.trace;
  }

  /** An in-process continuation that fails leaves the session where it was. */
  lemma InProcessKept(c: Config, s: State, armed: State, thread: string, prior: Checkpoint, o: Outside)
    requires Inv(s) && !c.container && Resumable(s, thread) && prior == s.saved[thread]
    requires armed == s.(records := Armed(c, s.records, thread, o), trace := s.trace + [Resumed(thread, prior)])
    ensures Inv(armed)
  {
    RightlyAfter(s.trace, Resumed(thread, prior));
    forall t | t in Sessions(armed.records)
      ensures Resumable(armed, t)
    {
      FactAfter(s.trace, Resumed(thread, prior), t);
    }
  }

  lemma HandleKeeps(c: Config, s: State, e: Event, o: Outside)
    requires Inv(s)
    ensures Inv(HandleEvent(c, s, e, o))
  {
    hide LastCompleted, Alive, ContinuedRightly, DoLaunch, DoContinue, Resumable, Strip, Word;
    match Classify(c.lower, e, Sessions(s.records))
    case Kill => EndKeeps(s, e.thread);
    case Launch => if o.prompt.Some? { LaunchKeeps(c, s, e.thread, o.prompt.value, o); }
    case Continue =>
      assert e.thread in Sessions(s.records);
      if o.prompt.Some? { ContinueKeeps(c, s, e.thread, o.prompt.value, o); }
    case _ =>
  }

  /** The facts of a restart name exactly the sessions that were running and lost their container. */
  ghost predicate TrueRestart(s: State, live: set<string>, ended: seq<string>) {
    forall t :: t in ended <==> t in Sessions(s.records) && Vanished(s.records[t], live)
  }

  lemma {:induction false} EndedAll(trace: seq<Fact>, ended: seq<string>, thread: string)
    requires ContinuedRightly(trace)
    ensures ContinuedRightly(trace + EndedFacts(ended))
    ensures LastCompleted(trace + EndedFacts(ended), thread) == LastCompleted(trace, thread)
    ensures Alive(trace + EndedFacts(ended), thread) == (Alive(trace, thread) && thread !in ended)
  {
    hide LastCompleted, Alive, ContinuedRightly;
    if |ended| == 0 {
      assert trace + [] == trace;
    } else {
      var init, last := ended[..|ended| - 1], ended[|ended| - 1];
      EndedAll(trace, init, thread);
      RightlyAfter(trace + EndedFacts(init), Ended(last));
      FactAfter(trace + EndedFacts(init), Ended(last), thread);
      assert trace + EndedFacts(ended) == (trace + EndedFacts(init)) + [Ended(last)];
      assert ended == init + [last];
    }
  }

  lemma RestartKeeps(s: State, live: set<string>, ended: seq<string>)
    requires Inv(s) && TrueRestart(s, live, ended)
    ensures Inv(State(Reconciled(s.records, live), s.saved, s.trace + EndedFacts(ended)))
  {
    hide LastCompleted, Alive, ContinuedRightly, EndedFacts;
    var after := State(Reconciled(s.records, live), s.saved, s.trace + EndedFacts(ended));
    EndedAll(s.trace, ended, "");
    forall t | t in Sessions(after.records)
      ensures Resumable(after, t)
    {
      assert t in Sessions(s.records) && !Vanished(s.records[t], live);
      EndedAll(s.trace, ended, t);
    }
  }

  ghost predicate Possible(c: Config, s: State, inputs: seq<Input>)
    decreases |inputs|
  {
    |inputs| == 0
    || (&& (inputs[0].Restart? && inputs[0].live.Some? ==> TrueRestart(s, inputs[0].live.value, inputs[0].ended))
        && Possible(c, Step(c, s, inputs[0]), inputs[1..]))
  }

  function Run(c: Config, s: State, inputs: seq<Input>): State
    decreases |inputs|
  {
    if |inputs| == 0 then s else Run(c, Step(c, s, inputs[0]), inputs[1..])
  }

  lemma {:induction false} RunKeeps(c: Config, s: State, inputs: seq<Input>)
    requires Inv(s) && Possible(c, s, inputs)
    ensures Inv(Run(c, s, inputs))
    decreases |inputs|
  {
    hide Inv, TrueRestart, HandleEvent, Reconciled;
    if |inputs| != 0 {
      match inputs[0] {
        case Message(e, o) => HandleKeeps(c, s, e, o);
        case Restart(live, ended) => if c.container && live.Some? { RestartKeeps(s, live.value, ended); }
      }
      RunKeeps(c, Step(c, s, inputs[0]), inputs[1..]);
    }
  }

  /**
   * From an empty registry, with any checkpoints left by earlier processes: after every history, a thread that may be
   * continued has a saved checkpoint, the one of its latest completed turn; every continuation that happened started
   * from such a checkpoint; and none happened between a kill, a failed container run or a vanished container and a new
   * launch of that thread.
   */
  lemma CockpitSafe(c: Config, saved: map<string, Checkpoint>, inputs: seq<Input>, thread: string)
    requires Possible(c, State(map[], saved, []), inputs)
    ensures var s := Run(c, State(map[], saved, []), inputs);
            && (thread in Sessions(s.records) ==> Resumable(s, thread))
            && ContinuedRightly(s.trace)
  {
    RunKeeps(c, State(map[], saved, []), inputs);
  }

  /** An ended thread is continued only after a new launch. */
  lemma {:induction false} EndedNeedsLaunch(trace: seq<Fact>, i: nat, j: nat)
    requires ContinuedRightly(trace) && i < j < |trace|
    requires trace[i].Ended? && trace[j].Resumed? && trace[i].thread == trace[j].thread
    ensures exists k :: i < k < j && trace[k].Launched? && trace[k].thread == trace[i].thread
  {
    LaunchedSince(trace[..j], i);
    var k :| i < k < j && trace[..j][k].Launched? && trace[..j][k].thread == trace[i].thread;
    assert trace[k].Launched?;
  }

  lemma {:induction false} LaunchedSince(trace: seq<Fact>, i: nat)
    requires i < |trace| && trace[i].Ended? && Alive(trace, trace[i].thread)
    ensures exists k :: i < k < |trace| && trace[k].Launched? && trace[k].thread == trace[i].thread
  {
    var n := |trace| - 1;
    var thread := trace[i].thread;
    if !(trace[n].Launched? && trace[n].thread == thread) {
      assert i != n;
      LaunchedSince(trace[..n], i);
      var k :| i < k < n && trace[..n][k].Launched? && trace[..n][k].thread == thread;
      assert trace[k].Launched?;
    }
  }

  /** An authorised kill ends the session on every path, and a refused one changes nothing. */
  lemma KillEnds(c: Config, s: State, e: Event)
    ensures var after := DoKill(c, s, e);
            if Approval.ClickAuthorized(c.gate, e.sender)
            then Sessions(after.records) == Sessions(s.records) - {e.thread} && after.saved == s.saved
            else after == s
  {
  }
}
