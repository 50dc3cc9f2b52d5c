/** Who may decide and who may kill (cockpit/core.py, cockpit/transports/base.py): the operator, and no one in its place. */
module OperatorRule {
  import opened Base
  import opened Approval
  import P = ApprovalProtocol
  import C = Cockpit

  // ---- approvals in every run ----------------------------------------------------------

  /**
   * Each grant goes back to one claim of that request; when an operator is configured its sender is exactly that operator,
   * and when one is required there is one, and it is not empty.
   */
  lemma GrantsComeFromTheOperator(c: P.Config, actions: seq<P.Action>, i: nat)
    requires i < |P.Run(c, P.INITIAL, actions).granted|
    ensures var s := P.Run(c, P.INITIAL, actions);
            var f := s.granted[i];
            && f < |s.lives| && |s.lives[f].exits| == 1 && s.lives[f].exits[0].Claimed? && s.lives[f].exits[0].approved
            && (c.gate.operator.Some? ==> s.lives[f].exits[0].sender == c.gate.operator)
            && (c.gate.requireOperator ==> c.gate.operator.Some? && c.gate.operator != Some(""))
  {
    P.GrantsAreEarned(c, actions, i);
    hide P.Run;
  }

  /** The same for each "approved" record. */
  lemma ApprovedRecordsComeFromTheOperator(c: P.Config, actions: seq<P.Action>, f: nat)
    requires P.Audit(f, true) in P.Run(c, P.INITIAL, actions).audits
    ensures var s := P.Run(c, P.INITIAL, actions);
            && f < |s.lives| && |s.lives[f].exits| == 1 && s.lives[f].exits[0].Claimed? && s.lives[f].exits[0].approved
            && (c.gate.operator.Some? ==> s.lives[f].exits[0].sender == c.gate.operator)
            && (c.gate.requireOperator ==> c.gate.operator.Some? && c.gate.operator != Some(""))
  {
    P.TrailIsTrue(c, actions, f);
    hide P.Run;
  }

  /** A "denied" record is of a request that was withdrawn, or claimed and denied. */
  lemma DeniedRecordsAreTrue(c: P.Config, actions: seq<P.Action>, f: nat)
    requires P.Audit(f, false) in P.Run(c, P.INITIAL, actions).audits
    ensures var s := P.Run(c, P.INITIAL, actions);
            && f < |s.lives| && |s.lives[f].exits| == 1
            && (s.lives[f].exits[0].Withdrawn? || (s.lives[f].exits[0].Claimed? && !s.lives[f].exits[0].approved))
  {
    P.RunKeeps(c, actions);
    var s := P.Run(c, P.INITIAL, actions);
    hide P.Run;
    assert P.TrailOk(c, s, f);
  }

  /** When an operator is required and none is set, or an empty one, nothing is ever granted and nothing recorded as approved. */
  lemma NothingIsGranted(c: P.Config, actions: seq<P.Action>, f: nat)
    requires c.gate.requireOperator && (c.gate.operator.None? || c.gate.operator == Some(""))
    ensures P.Run(c, P.INITIAL, actions).granted == []
    ensures P.Audit(f, true) !in P.Run(c, P.INITIAL, actions).audits
  {
    var s := P.Run(c, P.INITIAL, actions);
    if |s.granted| > 0 { GrantsComeFromTheOperator(c, actions, 0); }
    if P.Audit(f, true) in s.audits { ApprovedRecordsComeFromTheOperator(c, actions, f); }
  }

  // ---- one decision -----------------------------------------------------------------------

  /** From anyone who is not the operator, a decision is no more than a look at the thread, however late. */
  lemma OthersDecideNothing(c: P.Config, s: P.State, thread: string, sender: Option<string>, approved: bool, lag: real)
    requires c.gate.operator.Some? || c.gate.requireOperator
    requires sender != c.gate.operator || (c.gate.requireOperator && (sender.None? || sender == Some("")))
    ensures P.Step(c, s, P.Decide(thread, sender, approved, lag)) == P.Step(c, s, P.Look(thread))
  {
  }

  /** From the operator, or from anyone when none is configured or required, it takes the live request of the thread. */
  lemma TheOperatorDecides(c: P.Config, s: P.State, thread: string, sender: Option<string>, approved: bool)
    requires thread in s.table.pending && s.table.pending[thread].future < |s.table.futures|
    requires s.now - s.table.pending[thread].createdAt <= c.ttl
    requires (c.gate.operator.None? && !c.gate.requireOperator)
             || (sender == c.gate.operator && sender.Some? && (sender != Some("") || !c.gate.requireOperator))
    ensures var t, f := P.Step(c, s, P.Decide(thread, sender, approved, 0.0)), s.table.pending[thread].future;
            && t.table.pending == s.table.pending - {thread}
            && (c.memory ==> f in t.auditing && t.auditing[f] == approved && t.table.futures == s.table.futures)
            && (!c.memory ==>
                  t.table.futures == if s.table.futures[f] == Open then s.table.futures[f := Decided(approved)] else s.table.futures)
  {
    assert s.(now := s.now + 0.0) == s;
  }

  /** After its time to live, a request is denied at the next touch, whoever it is. */
  lemma LateIsDenied(c: P.Config, s: P.State, thread: string, sender: Option<string>, approved: bool)
    requires thread in s.table.pending && s.table.pending[thread].future < |s.table.futures|
    requires s.now - s.table.pending[thread].createdAt > c.ttl
    ensures var t, f := P.Step(c, s, P.Decide(thread, sender, approved, 0.0)), s.table.pending[thread].future;
            && t.table.pending == s.table.pending - {thread}
            && t.table.futures == if s.table.futures[f] == Open then s.table.futures[f := Decided(false)] else s.table.futures
  {
    var p := P.PurgeAt(c, s, thread);
    assert thread !in p.table.pending;
  }

  // ---- requests -----------------------------------------------------------------------------

  /** A request is refused exactly when its thread has one within its time to live; otherwise it is the thread's, and open. */
  lemma RequestAnswers(t: Table, ttl: real, request: Request, now: real, other: string)
    ensures var (t', r) := Register(t, ttl, request, now);
            && (r.Err? <==> request.thread in t.pending && now - t.pending[request.thread].createdAt <= ttl)
            && (r.Err? ==> t' == t)
            && (r.Ok? ==>
                  && r.value == |t.futures| && |t'.futures| == |t.futures| + 1 && t'.futures[r.value] == Open
                  && t'.pending[request.thread] == Entry(request, r.value, now))
            && (other != request.thread ==>
                  (other in t'.pending <==> other in t.pending)
                  && (other in t.pending ==> t'.pending[other] == t.pending[other]))
  {
  }

  // ---- kills -------------------------------------------------------------------------------

  /** A kill from anyone who is not the operator changes nothing. */
  lemma OthersKillNothing(c: C.Config, s: C.State, e: C.Event)
    requires c.gate.operator.Some? || c.gate.requireOperator
    requires e.sender != c.gate.operator || (c.gate.requireOperator && (e.sender.None? || e.sender == Some("")))
    ensures C.DoKill(c, s, e) == s
  {
  }

  /** One from the operator, or from anyone when none is configured or required, closes the thread's record and no other. */
  lemma TheOperatorKills(c: C.Config, s: C.State, e: C.Event, thread: string)
    requires (c.gate.operator.None? && !c.gate.requireOperator)
             || (e.sender == c.gate.operator && e.sender.Some? && (e.sender != Some("") || !c.gate.requireOperator))
    ensures var t := C.DoKill(c, s, e);
            && t.trace == s.trace + [C.Ended(e.thread)] && t.saved == s.saved
            && (thread in t.records <==> thread in s.records)
            && (thread in s.records ==>
                  t.records[thread] == if thread == e.thread then s.records[thread].(status := C.Closed) else s.records[thread])
  {
  }
}
