/** What a brain's stream amounts to (core/session.py). */
module OutcomeAnswers {
  import opened Base
  import opened Checkpoints
  import opened BrainSession

  function IsMessage(): Item -> bool {
    (i: Item) => i.Ev? && i.event.MessageEvent?
  }

  function TextOf(): Item -> string {
    (i: Item) => if i.Ev? && i.event.MessageEvent? then i.event.text else ""
  }

  lemma {:induction false} NarrationMeans(events: seq<BrainEvent>, items: seq<Item>)
    requires |items| == |events| && forall i :: 0 <= i < |items| ==> items[i] == Ev(events[i])
    ensures Narration(events) == Map(Filter(items, IsMessage()), TextOf())
  {
    if |events| != 0 {
      var n := |events| - 1;
      NarrationMeans(events[..n], items[..n]);
      assert items == items[..n] + [items[n]];
      FilterSnoc(items[..n], items[n], IsMessage());
      MapSnoc(Filter(items[..n], IsMessage()), items[n], TextOf());
    }
  }

  lemma FirstDoneIs(events: seq<BrainEvent>, k: nat)
    requires k < |events| && events[k].DoneEvent? && forall i :: 0 <= i < k ==> !events[i].DoneEvent?
    ensures FirstDone(events) == k
  {
  }

  /**
   * A stream without an exception completes at its first terminal event: the result and the state are that event's, the turn
   * is the state's own or 0, and the narration is the texts of the messages before it, in order.
   */
  lemma CompletedMeans(sessionId: string, items: seq<Item>, k: nat)
    requires forall i :: 0 <= i < |items| ==> items[i].Ev?
    requires k < |items| && items[k].event.DoneEvent? && forall i :: 0 <= i < k ==> !items[i].event.DoneEvent?
    ensures var done := items[k].event;
            Driven(sessionId, items) == Completed(SessionResult(
              sessionId, done.result,
              Checkpoint(sessionId, if "turn" in done.state then done.state["turn"] else JInt(0), done.state),
              Map(Filter(items[..k], IsMessage()), TextOf())))
  {
    var events := EventsOf(items);
    FirstDoneIs(events, k);
    NarrationMeans(events[..k], items[..k]);
    hide Narration, Filter, Map;
  }

  /** One with an exception anywhere fails, and one without a terminal event ends without a result. */
  lemma NotCompletedMeans(sessionId: string, items: seq<Item>)
    ensures (exists i :: 0 <= i < |items| && items[i] == StreamError) ==> Driven(sessionId, items) == Failed
    ensures (forall i :: 0 <= i < |items| ==> items[i].Ev? && !items[i].event.DoneEvent?) ==>
              Driven(sessionId, items) == NoDoneEvent
  {
    if i :| 0 <= i < |items| && items[i] == StreamError { assert !items[i].Ev?; }
  }
}
