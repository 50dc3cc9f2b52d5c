/** `Session`: drive a brain's event stream to its end and save one checkpoint. */
module BrainSession {
  import opened Base
  import opened Checkpoints

  /** One pull from the brain's stream: an event, or the exception that ends it. */
  datatype Item = Ev(event: BrainEvent) | StreamError

  datatype SessionResult = SessionResult(sessionId: string, text: string, checkpoint: Checkpoint, messages: seq<string>)

  datatype Outcome =
    | Completed(result: SessionResult)
    | NoDoneEvent
    | Failed
    | NothingToResume

  function EventsOf(items: seq<Item>): seq<BrainEvent>
    requires forall i :: 0 <= i < |items| ==> items[i].Ev?
  {
    seq(|items|, i requires 0 <= i < |items| => items[i].event)
  }

  /** Index of the first terminal event, or the length when there is none. */
  function FirstDone(events: seq<BrainEvent>): (k: nat)
    ensures k <= |events|
    ensures k < |events| ==> events[k].DoneEvent?
    ensures forall i :: 0 <= i < k ==> !events[i].DoneEvent?
  {
    if |events| == 0 || events[0].DoneEvent? then 0 else 1 + FirstDone(events[1..])
  }

  function Narration(events: seq<BrainEvent>): seq<string> {
    if |events| == 0 then []
    else
      Narration(events[..|events| - 1]) + Spoken(events[|events| - 1])
  }

  function Spoken(e: BrainEvent): seq<string> {
    match e case MessageEvent(text) => [text] case _ => []
  }

  /** The first terminal event. */
  function Terminal(events: seq<BrainEvent>): Option<BrainEvent> {
    if FirstDone(events) < |events| then Some(events[FirstDone(events)]) else None
  }

  /** The messages before it. */
  function Heard(events: seq<BrainEvent>): seq<string> {
    Narration(events[..FirstDone(events)])
  }

  lemma OneMoreEvent(events: seq<BrainEvent>, e: BrainEvent)
    ensures Terminal(events + [e]) ==
      if Terminal(events).Some? then Terminal(events) else if e.DoneEvent? then Some(e) else None
    ensures Heard(events + [e]) == if Terminal(events).Some? then Heard(events) else Heard(events) + Spoken(e)
  {
    var next, k := events + [e], FirstDone(events);
    FirstDoneSnoc(events, e);
    assert next[..k] == events[..k];
    if k == |events| {
      assert events[..k] == events && next[..k + 1] == next;
      assert next[..|next| - 1] == events;
    }
  }

  function TurnOf(state: map<string, Json>): Json {
    if "turn" in state then state["turn"] else JInt(0)
  }

  function Conclude(sessionId: string, events: seq<BrainEvent>): Outcome {
    match Terminal(events)
    case None => NoDoneEvent
    case Some(done) =>
      var c := Checkpoint(sessionId, TurnOf(done.state), done.state);
      Completed(SessionResult(sessionId, done.result, c, Heard(events)))
  }

  predicate Clean(items: seq<Item>) {
    forall i :: 0 <= i < |items| ==> items[i].Ev?
  }

  /** What a run means: an exception anywhere fails it, otherwise the first terminal event decides. */
  function Driven(sessionId: string, items: seq<Item>): Outcome {
    if Clean(items) then Conclude(sessionId, EventsOf(items)) else Failed
  }

  lemma NoEvents()
    ensures Heard([]) == [] && Terminal([]) == None
  {
  }

  class Session {
    const checkpoints: CheckpointStore

    constructor (checkpoints: CheckpointStore)
      ensures this.checkpoints == checkpoints
    {
      this.checkpoints := checkpoints;
    }

    /** The stream is drained to its end even after the terminal event. */
    method Drive(task: Task, items: seq<Item>) returns (r: Outcome)
      modifies checkpoints
      ensures r == Driven(task.sessionId, items)
      ensures checkpoints.saved == match r
        case Completed(result) => old(checkpoints.saved)[task.sessionId := result.checkpoint]
        case _ => old(checkpoints.saved)
    {
      hide Heard, Terminal;
      NoEvents();
      var messages: seq<string> := [];
      var done: Option<BrainEvent> := None;
      ghost var events: seq<BrainEvent> := [];
      for i := 0 to |items|
        invariant Clean(items[..i]) && events == EventsOf(items[..i])
        invariant messages == Heard(events) && done == Terminal(events)
        invariant done.Some? ==> done.value.DoneEvent?
        invariant checkpoints.saved == old(checkpoints.saved)
      {
        if items[i].StreamError? {
          return Failed;
        }
        OneMoreEvent(events, items[i].event);
        events := events + [items[i].event];
        assert events == EventsOf(items[..i + 1]);
        if done.Some? {
          continue;
        }
        match items[i].event {
          case MessageEvent(text) => messages := messages + [text];
          case DoneEvent(_, _) => done := Some(items[i].event);
          case OtherEvent =>
        }
      }
      assert items[..|items|] == items;
      match done {
        case None => return NoDoneEvent;
        case Some(event) =>
          var c := Checkpoint(task.sessionId, TurnOf(event.state), event.state);
          checkpoints.Save(c);
          return Completed(SessionResult(task.sessionId, event.result, c, messages));
      }
    }

    /** `brain` is asked only when there is a checkpoint to resume from. */
    method Resume(sessionId: string, prompt: string, brain: (Task, Option<Checkpoint>) -> seq<Item>) returns (r: Outcome)
      modifies checkpoints
      ensures sessionId !in old(checkpoints.saved) ==> r == NothingToResume && checkpoints.saved == old(checkpoints.saved)
      ensures sessionId in old(checkpoints.saved) ==>
        && r == Driven(sessionId, brain(Task(prompt, sessionId), Some(old(checkpoints.saved)[sessionId])))
        && checkpoints.saved == match r
             case Completed(result) => old(checkpoints.saved)[sessionId := result.checkpoint]
             case _ => old(checkpoints.saved)
    {
      var prior := checkpoints.Load(sessionId);
      if prior.None? {
        return NothingToResume;
      }
      r := Drive(Task(prompt, sessionId), brain(Task(prompt, sessionId), prior));
    }
  }

  lemma {:induction false} FirstDoneSnoc(events: seq<BrainEvent>, e: BrainEvent)
    ensures FirstDone(events + [e]) ==
      if FirstDone(events) < |events| || e.DoneEvent? then FirstDone(events) else |events| + 1
  {
    if |events| != 0 && !events[0].DoneEvent? {
      assert (events + [e])[1..] == events[1..] + [e];
      FirstDoneSnoc(events[1..], e);
    }
  }

  /** Post-terminal events change nothing: neither the narration nor the result nor the checkpoint. */
  lemma {:induction false} AfterDoneIgnored(sessionId: string, events: seq<BrainEvent>, later: seq<BrainEvent>)
    requires FirstDone(events) < |events|
    ensures Conclude(sessionId, events + later) == Conclude(sessionId, events)
  {
    if |later| == 0 {
      assert events + later == events;
    } else {
      var init := later[..|later| - 1];
      AfterDoneIgnored(sessionId, events, init);
      FirstDoneKept(events, init);
      FirstDoneSnoc(events + init, later[|later| - 1]);
      assert events + later == (events + init) + [later[|later| - 1]];
      var k := FirstDone(events);
      assert (events + later)[..k] == (events + init)[..k];
    }
  }

  lemma {:induction false} FirstDoneKept(events: seq<BrainEvent>, later: seq<BrainEvent>)
    requires FirstDone(events) < |events|
    ensures FirstDone(events + later) == FirstDone(events)
  {
    if !events[0].DoneEvent? {
      assert (events + later)[1..] == events[1..] + later;
      FirstDoneKept(events[1..], later);
    }
  }
}
