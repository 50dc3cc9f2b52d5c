/** The brain in a container: the wire protocol both ways, and why it is transparent to `Session`. */
module ContainerBrain {
  import opened Base
  import opened Text
  import opened Checkpoints
  import opened BrainSession
  import opened JsonCodec

  const MAX_EVENT_CHARS: nat := 8 * 1024 * 1024

  // ---- run input -------------------------------------------------------------------

  function RunInput(task: Task, resume: Option<Checkpoint>): Json {
    JObj(map[
      "task" := JObj(map["prompt" := JStr(task.prompt), "session_id" := JStr(task.sessionId)]),
      "resume" := match resume
        case None => JNull
        case Some(c) => JObj(map["session_id" := JStr(c.sessionId), "turn" := c.turn, "state" := JObj(c.state)])])
  }

  /** One line for the container's stdin. */
  function EncodeRunInput(c: Codec, task: Task, resume: Option<Checkpoint>): string {
    c.dumps(RunInput(task, resume)) + "\n"
  }

  function Get(fields: map<string, Json>, key: string): Json {
    if key in fields then fields[key] else JNull
  }

  /** None is the uniform `ValueError`. */
  function DecodeRunInput(c: Codec, data: string): Option<(Task, Option<Checkpoint>)> {
    match c.loads(data)
    case None => None
    case Some(payload) => DecodePayload(payload)
  }

  function DecodePayload(payload: Json): Option<(Task, Option<Checkpoint>)> {
    if !payload.JObj? then None else
      var t := Get(payload.fields, "task");
      if !t.JObj? then None else
        var prompt, sid := Get(t.fields, "prompt"), Get(t.fields, "session_id");
        if !prompt.JStr? || !sid.JStr? then None else
          var task := Task(prompt.str, sid.str);
          var r := Get(payload.fields, "resume");
          if r.JNull? then Some((task, None))
          else if !r.JObj? then None
          else
            var turn, state, rsid := Get(r.fields, "turn"), Get(r.fields, "state"), Get(r.fields, "session_id");
            if !turn.JInt? || !state.JObj? || !rsid.JStr? then None
            else Some((task, Some(Checkpoint(rsid.str, turn, state.fields))))
  }

  /** The container sees the very task and checkpoint the host had, exactly when the turn is an integer. */
  lemma RunInputRoundTrip(c: Codec, task: Task, resume: Option<Checkpoint>)
    requires Faithful(c, RunInput(task, resume))
    ensures DecodeRunInput(c, EncodeRunInput(c, task, resume)) == Some((task, resume))
      <==> (resume.Some? ==> resume.value.turn.JInt?)
  {
    var payload := RunInput(task, resume);
    assert Get(payload.fields, "task").fields["prompt"] == JStr(task.prompt);
  }

  /** A checkpoint the session itself may save and the container then refuses to resume. */
  lemma NonIntegerTurnIsRefused(c: Codec, task: Task, text: string)
    requires Faithful(c, RunInput(task, Some(TextTurn(task, text))))
    ensures Conclude(task.sessionId, [DoneEvent("", TextTurn(task, text).state)]) ==
      Completed(SessionResult(task.sessionId, "", TextTurn(task, text), []))
    ensures DecodeRunInput(c, EncodeRunInput(c, task, Some(TextTurn(task, text)))) == None
  {
  }

  /** What a session saves when its brain puts a text under `turn`. */
  function TextTurn(task: Task, text: string): Checkpoint {
    var state := map["turn" := JStr(text)];
    Checkpoint(task.sessionId, TurnOf(state), state)
  }

  // ---- event lines --------------------------------------------------------------------

  function EncodeEvent(e: BrainEvent): Option<Json> {
    match e
    case MessageEvent(text) => Some(JObj(map["kind" := JStr("message"), "text" := JStr(text)]))
    case DoneEvent(result, state) =>
      Some(JObj(map["kind" := JStr("done"), "result" := JStr(result), "state" := JObj(state)]))
    case OtherEvent => None
  }

  datatype Decoded = Skip | Event(event: BrainEvent) | Malformed

  function DecodeObject(j: Json): Decoded {
    if !j.JObj? then Malformed else
      var kind := Get(j.fields, "kind");
      if kind == JStr("message") then
        var text := Get(j.fields, "text");
        if text.JStr? then Event(MessageEvent(text.str)) else Malformed
      else if kind == JStr("done") then
        var state := if "state" in j.fields then j.fields["state"] else JObj(map[]);
        var result := Get(j.fields, "result");
        if state.JObj? && result.JStr? then Event(DoneEvent(result.str, state.fields)) else Malformed
      else Malformed
  }

  function DecodeEvent(c: Codec, line: string): Decoded {
    var stripped := Strip(line);
    if stripped == "" then Skip
    else if |stripped| > MAX_EVENT_CHARS then Malformed
    else match c.loads(stripped)
      case None => Malformed
      case Some(j) => DecodeObject(j)
  }

  /** The items the provider yields: blank lines vanish, the first malformed line raises. */
  function DecodeStream(c: Codec, lines: seq<string>): seq<Item> {
    if |lines| == 0 then []
    else match DecodeEvent(c, lines[0])
      case Skip => DecodeStream(c, lines[1..])
      case Malformed => [StreamError]
      case Event(e) => [Ev(e)] + DecodeStream(c, lines[1..])
  }

  lemma StreamFrom(c: Codec, lines: seq<string>, i: nat)
    requires i <= |lines|
    ensures DecodeStream(c, lines[i..]) ==
      if i == |lines| then []
      else match DecodeEvent(c, lines[i])
        case Skip => DecodeStream(c, lines[i + 1..])
        case Malformed => [StreamError]
        case Event(e) => [Ev(e)] + DecodeStream(c, lines[i + 1..])
  {
    hide DecodeEvent;
    if i < |lines| {
      assert lines[i..][1..] == lines[i + 1..];
    }
  }

  /** A started container, with the number of times it was torn down. */
  class ContainerSession {
    const containerId: string
    const lines: seq<string>
    var closes: nat

    constructor (containerId: string, lines: seq<string>)
      ensures this.containerId == containerId && this.lines == lines && closes == 0
    {
      this.containerId, this.lines, closes := containerId, lines, 0;
    }

    method AClose()
      modifies this
      ensures closes == old(closes) + 1
    {
      closes := closes + 1;
    }
  }

  /** The provider's run: it yields what decodes, and tears the container down once on every exit. */
  method RunContainer(c: Codec, session: ContainerSession, onStartRaises: bool) returns (items: seq<Item>)
    modifies session
    ensures session.closes == old(session.closes) + 1
    ensures items == if onStartRaises then [StreamError] else DecodeStream(c, session.lines)
  {
    hide DecodeEvent, DecodeStream;
    items := [];
    if onStartRaises {
      items := [StreamError];
    } else {
      var raised := false;
      var i := 0;
      while i < |session.lines| && !raised
        invariant i <= |session.lines| && session.closes == old(session.closes)
        invariant DecodeStream(c, session.lines) == items + if raised then [] else DecodeStream(c, session.lines[i..])
        decreases |session.lines| - i, if raised then 0 else 1
      {
        StreamFrom(c, session.lines, i);
        match DecodeEvent(c, session.lines[i]) {
          case Skip =>
          case Malformed => items, raised := items + [StreamError], true;
          case Event(e) => items := items + [Ev(e)];
        }
        i := i + 1;
      }
      StreamFrom(c, session.lines, |session.lines|);
      assert items + [] == items;
    }
    session.AClose();
  }

  function Encodable(): BrainEvent -> bool {
    (e: BrainEvent) => !e.OtherEvent?
  }

  function LineOf(c: Codec): BrainEvent -> string {
    (e: BrainEvent) => match EncodeEvent(e) case Some(j) => c.dumps(j) case None => ""
  }

  predicate CanSend(item: Item) {
    item.Ev? && Encodable()(item.event)
  }

  /** The events up to the first that is of no known kind, or up to the brain's own exception. */
  function Sent(items: seq<Item>): (events: seq<BrainEvent>)
    ensures |events| <= |items| && forall i :: 0 <= i < |events| ==> CanSend(items[i]) && events[i] == items[i].event
    ensures |events| < |items| ==> !CanSend(items[|events|])
  {
    if |items| == 0 || !CanSend(items[0]) then [] else [items[0].event] + Sent(items[1..])
  }

  /** The container half: one line per event; an event of no known kind raises, and so does the brain's exception. */
  method StreamBrainEvents(c: Codec, items: seq<Item>) returns (lines: seq<string>, raised: bool)
    ensures raised <==> exists i :: 0 <= i < |items| && !CanSend(items[i])
    ensures lines == Map(Sent(items), LineOf(c))
  {
    hide Map;
    MapNothing(LineOf(c));
    lines, raised := [], false;
    ghost var sent := Sent(items);
    for i := 0 to |items|
      invariant i <= |sent| && lines == Map(sent[..i], LineOf(c)) && !raised
      invariant forall j :: 0 <= j < i ==> CanSend(items[j])
    {
      if !CanSend(items[i]) {
        assert |sent| == i && sent[..i] == sent;
        raised := true;
        return;
      }
      var j := EncodeEvent(items[i].event).value;
      assert sent[..i + 1] == sent[..i] + [items[i].event];
      MapSnoc(sent[..i], items[i].event, LineOf(c));
      lines := lines + [c.dumps(j)];
    }
    assert sent[..|items|] == sent;
  }

  // ---- transparency ------------------------------------------------------------------------

  function NonBlank(): string -> bool {
    (line: string) => Strip(line) != ""
  }

  /** Keepalives are invisible: only the non-blank lines matter. */
  lemma {:induction false} BlankLinesIgnored(c: Codec, lines: seq<string>)
    ensures DecodeStream(c, lines) == DecodeStream(c, Filter(lines, NonBlank()))
  {
    if |lines| != 0 {
      BlankLinesIgnored(c, lines[1..]);
      var rest := Filter(lines[1..], NonBlank());
      if NonBlank()(lines[0]) {
        assert Filter(lines, NonBlank()) == [lines[0]] + rest;
        assert ([lines[0]] + rest)[1..] == rest;
      }
    }
  }

  lemma ObjectRoundTrip(e: BrainEvent)
    requires Encodable()(e)
    ensures DecodeObject(EncodeEvent(e).value) == Event(e)
  {
  }

  /** The event is of a known kind, and JSON text carries it faithfully. */
  ghost predicate Sendable(c: Codec, e: BrainEvent) {
    EncodeEvent(e).Some? && Faithful(c, EncodeEvent(e).value)
  }

  /** An encoded event decodes to itself exactly when its line is within the cap. */
  lemma EventRoundTrip(c: Codec, e: BrainEvent)
    requires Sendable(c, e)
    ensures Strip(LineOf(c)(e)) == LineOf(c)(e) != ""
    ensures DecodeEvent(c, LineOf(c)(e)) == if |LineOf(c)(e)| <= MAX_EVENT_CHARS then Event(e) else Malformed
  {
    ObjectRoundTrip(e);
    var j := EncodeEvent(e).value;
    hide DecodeObject, EncodeEvent, Strip;
    assert LineOf(c)(e) == c.dumps(j);
  }

  function WithinCap(c: Codec): BrainEvent -> bool {
    (e: BrainEvent) => |LineOf(c)(e)| <= MAX_EVENT_CHARS
  }

  function Direct(events: seq<BrainEvent>): (items: seq<Item>)
    ensures |items| == |events| && Clean(items) && EventsOf(items) == events
  {
    seq(|events|, i requires 0 <= i < |events| => Ev(events[i]))
  }

  ghost predicate AllWithinCap(c: Codec, events: seq<BrainEvent>) {
    forall i :: 0 <= i < |events| ==> WithinCap(c)(events[i])
  }

  ghost predicate AllSendable(c: Codec, events: seq<BrainEvent>) {
    forall i :: 0 <= i < |events| ==> Sendable(c, events[i])
  }

  lemma CleanTail(item: Item, rest: seq<Item>)
    ensures Clean([item] + rest) <==> item.Ev? && Clean(rest)
  {
    var items := [item] + rest;
    assert items[0] == item && forall i :: 0 <= i < |rest| ==> items[i + 1] == rest[i];
  }

  lemma DecodeCons(c: Codec, line: string, later: seq<string>)
    ensures DecodeStream(c, [line] + later) == match DecodeEvent(c, line)
      case Skip => DecodeStream(c, later)
      case Malformed => [StreamError]
      case Event(e) => [Ev(e)] + DecodeStream(c, later)
  {
    hide DecodeEvent;
    var lines := [line] + later;
    assert lines[0] == line && lines[1..] == later;
  }

  lemma DecodeFirst(c: Codec, e: BrainEvent, later: seq<string>)
    requires Sendable(c, e)
    ensures DecodeStream(c, [LineOf(c)(e)] + later)
      == if WithinCap(c)(e) then [Ev(e)] + DecodeStream(c, later) else [StreamError]
  {
    hide Sendable, DecodeEvent, DecodeStream, LineOf;
    EventRoundTrip(c, e);
    DecodeCons(c, LineOf(c)(e), later);
  }

  lemma {:induction false} StreamRoundTrip(c: Codec, events: seq<BrainEvent>)
    requires AllSendable(c, events)
    ensures var items := DecodeStream(c, Map(events, LineOf(c)));
            if AllWithinCap(c, events) then items == Direct(events) else !Clean(items)
  {
    if |events| != 0 {
      var e, later := events[0], Map(events[1..], LineOf(c));
      StreamRoundTrip(c, events[1..]);
      DecodeFirst(c, e, later);
      WithinCapTail(c, events);
      assert Map(events, LineOf(c)) == [LineOf(c)(e)] + later;
      if WithinCap(c)(e) {
        CleanTail(Ev(e), DecodeStream(c, later));
      } else {
        assert ![StreamError][0].Ev?;
      }
    }
  }

  lemma WithinCapTail(c: Codec, events: seq<BrainEvent>)
    requires |events| > 0
    ensures AllWithinCap(c, events) <==> WithinCap(c)(events[0]) && AllWithinCap(c, events[1..])
    ensures Direct(events) == [Ev(events[0])] + Direct(events[1..])
  {
  }

  lemma DirectNeverFails(sessionId: string, events: seq<BrainEvent>)
    ensures Driven(sessionId, Direct(events)) != Failed
  {
  }

  /**
   * Running the brain in a container, with keepalives inserted anywhere, gives the session the
   * outcome of running it directly, exactly when every event's line is within the cap.
   */
  lemma ContainerIsTransparent(c: Codec, sessionId: string, events: seq<BrainEvent>, lines: seq<string>)
    requires AllSendable(c, events)
    requires Filter(lines, NonBlank()) == Map(events, LineOf(c))
    ensures Driven(sessionId, DecodeStream(c, lines)) == Driven(sessionId, Direct(events))
      <==> AllWithinCap(c, events)
  {
    BlankLinesIgnored(c, lines);
    StreamRoundTrip(c, events);
    DirectNeverFails(sessionId, events);
    hide DecodeStream, Filter, Map, Direct, AllSendable, AllWithinCap, Conclude, EventsOf;
  }

  // ---- streams that end in an exception -------------------------------------------------------

  predicate HasDone(events: seq<BrainEvent>) {
    FirstDone(events) < |events|
  }

  /** What a run gives the caller: its result, or some exception and no checkpoint. */
  function Delivered(o: Outcome): Option<SessionResult> {
    match o case Completed(result) => Some(result) case _ => None
  }

  /** The run completes in-process: no exception, and a terminal event. */
  predicate CompletesDirectly(items: seq<Item>) {
    Clean(items) && HasDone(EventsOf(items))
  }

  /** It completes over the wire: a terminal event was sent, and no line was over the cap. */
  ghost predicate CompletesOverWire(c: Codec, items: seq<Item>) {
    AllWithinCap(c, Sent(items)) && HasDone(Sent(items))
  }

  lemma DeliveredMeans(sessionId: string, events: seq<BrainEvent>)
    ensures Delivered(Conclude(sessionId, events)).Some? <==> HasDone(events)
  {
    hide Heard;
  }

  /** When the whole stream is clean, what was sent of it is a beginning of it. */
  lemma SentIsPrefix(items: seq<Item>)
    requires Clean(items)
    ensures EventsOf(items) == Sent(items) + EventsOf(items)[|Sent(items)|..]
  {
  }

  /**
   * For any stream of the brain, exceptions and unknown events included: in the container the session gets the result
   * it gets in-process, or both fail, if and only if the run completes over the wire exactly when it completes directly.
   */
  lemma WireDelivers(c: Codec, sessionId: string, items: seq<Item>, lines: seq<string>)
    requires AllSendable(c, Sent(items))
    requires Filter(lines, NonBlank()) == Map(Sent(items), LineOf(c))
    ensures Delivered(Driven(sessionId, DecodeStream(c, lines))) == Delivered(Driven(sessionId, items))
      <==> (CompletesOverWire(c, items) <==> CompletesDirectly(items))
  {
    var sent := Sent(items);
    BlankLinesIgnored(c, lines);
    StreamRoundTrip(c, sent);
    DeliveredMeans(sessionId, sent);
    if Clean(items) {
      DeliveredMeans(sessionId, EventsOf(items));
      SentIsPrefix(items);
      if HasDone(sent) { AfterDoneIgnored(sessionId, sent, EventsOf(items)[|sent|..]); }
    }
    hide DecodeStream, Filter, Map, Sent, AllSendable, AllWithinCap, Conclude, HasDone, EventsOf, Direct;
  }

  /** From the host's task to the container's lines, through both wires. */
  lemma ContainerRunsTheSameTask(c: Codec, brain: (Task, Option<Checkpoint>) -> seq<Item>,
                                 task: Task, resume: Option<Checkpoint>, lines: seq<string>,
                                 input: Option<(Task, Option<Checkpoint>)>)
    requires Faithful(c, RunInput(task, resume)) && (resume.Some? ==> resume.value.turn.JInt?)
    requires AllSendable(c, Sent(brain(task, resume)))
    requires input == DecodeRunInput(c, EncodeRunInput(c, task, resume))
    requires input.Some? ==> Filter(lines, NonBlank()) == Map(Sent(brain(input.value.0, input.value.1)), LineOf(c))
    ensures Delivered(Driven(task.sessionId, DecodeStream(c, lines))) == Delivered(Driven(task.sessionId, brain(task, resume)))
      <==> (CompletesOverWire(c, brain(task, resume)) <==> CompletesDirectly(brain(task, resume)))
  {
    hide DecodeRunInput, EncodeRunInput, DecodeStream, Driven, Delivered, Sent, AllSendable, CompletesOverWire, CompletesDirectly;
    RunInputRoundTrip(c, task, resume);
    WireDelivers(c, task.sessionId, brain(task, resume), lines);
  }

  /** A brain that raises after its terminal event fails in-process, and is completed over the wire. */
  lemma LateExceptionIsLost(c: Codec, sessionId: string, done: BrainEvent)
    requires done.DoneEvent? && WithinCap(c)(done)
    ensures var items := [Ev(done), StreamError]; CompletesOverWire(c, items) && !CompletesDirectly(items)
    ensures Driven(sessionId, [Ev(done), StreamError]) == Failed
  {
    var items := [Ev(done), StreamError];
    assert items[1..] == [StreamError] && items[1] == StreamError;
    assert Sent(items) == [done];
  }

  /** An event of no known kind is ignored in-process, and ends the run in the container. */
  lemma UnknownEventStops(c: Codec, done: BrainEvent)
    requires done.DoneEvent?
    ensures var items := [Ev(OtherEvent), Ev(done)]; !CompletesOverWire(c, items) && CompletesDirectly(items)
  {
    var items := [Ev(OtherEvent), Ev(done)];
    var events := EventsOf(items);
    assert events == [OtherEvent, done] && events[1..] == [done];
  }

  /** One malformed line anywhere, even after the terminal event, fails the run: no checkpoint. */
  lemma {:induction false} MalformedLineFails(c: Codec, sessionId: string, lines: seq<string>, i: nat)
    requires i < |lines| && DecodeEvent(c, lines[i]).Malformed?
    ensures Driven(sessionId, DecodeStream(c, lines)) == Failed
  {
    hide DecodeEvent;
    var items := DecodeStream(c, lines);
    if i == 0 || DecodeEvent(c, lines[0]).Malformed? {
      assert items[0] == StreamError;
    } else {
      MalformedLineFails(c, sessionId, lines[1..], i - 1);
      var rest := DecodeStream(c, lines[1..]);
      var k :| 0 <= k < |rest| && !rest[k].Ev?;
      assert items[if DecodeEvent(c, lines[0]).Skip? then k else k + 1] == rest[k];
    }
  }
}
