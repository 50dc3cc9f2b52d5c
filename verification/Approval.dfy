/** Pending approvals: the table keyed by thread, its futures, and lazy expiry (cockpit/approval.py). */
module Approval {
  import opened Base

  datatype Request = Request(thread: string, capability: string, reason: string)

  /** A future: unresolved, resolved with a decision, or cancelled by its consumer. */
  datatype Status = Open | Decided(approved: bool) | Cancelled

  datatype Entry = Entry(request: Request, future: nat, createdAt: real)

  /** Futures are numbered in the order they were created. */
  datatype Table = Table(pending: map<string, Entry>, futures: seq<Status>)

  const EMPTY := Table(map[], [])

  /** `set_result` behind the check for `done`. */
  function Settle(futures: seq<Status>, f: nat, approved: bool): (r: seq<Status>)
    ensures |r| == |futures|
  {
    if f < |futures| && futures[f].Open? then futures[f := Decided(approved)] else futures
  }

  predicate Expired(t: Table, ttl: real, thread: string, now: real) {
    thread in t.pending && now - t.pending[thread].createdAt > ttl
  }

  function Remove(t: Table, thread: string): Table {
    t.(pending := t.pending - {thread})
  }

  function Purge(t: Table, ttl: real, thread: string, now: real): Table {
    if Expired(t, ttl, thread, now) then
      Table(t.pending - {thread}, Settle(t.futures, t.pending[thread].future, false))
    else t
  }

  function Register(t: Table, ttl: real, request: Request, now: real): (Table, Result<nat, ()>) {
    var p := Purge(t, ttl, request.thread, now);
    if request.thread in p.pending then (p, Err(()))
    else
      var f := |p.futures|;
      (Table(p.pending[request.thread := Entry(request, f, now)], p.futures + [Open]), Ok(f))
  }

  function Claim(t: Table, ttl: real, thread: string, now: real): (Table, Option<Entry>) {
    var p := Purge(t, ttl, thread, now);
    if thread in p.pending then (Remove(p, thread), Some(p.pending[thread])) else (p, None)
  }

  function Resolve(t: Table, ttl: real, thread: string, approved: bool, now: real): (Table, Option<Entry>) {
    match Claim(t, ttl, thread, now)
    case (p, None) => (p, None)
    case (p, Some(e)) => (p.(futures := Settle(p.futures, e.future, approved)), Some(e))
  }

  /** The clock is a parameter of each call. */
  class PendingApprovalRegistry {
    const ttl: real
    var pending: map<string, Entry>
    var futures: seq<Status>

    function State(): Table
      reads this
    {
      Table(pending, futures)
    }

    constructor (ttl: real)
      ensures this.ttl == ttl && State() == EMPTY
    {
      this.ttl, pending, futures := ttl, map[], [];
    }

    method PurgeIfExpired(thread: string, now: real)
      modifies this
      ensures State() == Purge(old(State()), ttl, thread, now)
    {
      if thread !in pending {
        return;
      }
      var entry := pending[thread];
      if now - entry.createdAt > ttl {
        if entry.future < |futures| && futures[entry.future].Open? {
          futures := futures[entry.future := Decided(false)];
        }
        pending := pending - {thread};
      }
    }

    /** Err is PendingApprovalExists. */
    method RegisterRequest(request: Request, now: real) returns (r: Result<nat, ()>)
      modifies this
      ensures (State(), r) == Register(old(State()), ttl, request, now)
    {
      PurgeIfExpired(request.thread, now);
      if request.thread in pending {
        return Err(());
      }
      var f := |futures|;
      futures := futures + [Open];
      pending := pending[request.thread := Entry(request, f, now)];
      r := Ok(f);
    }

    method IsPending(thread: string, now: real) returns (b: bool)
      modifies this
      ensures State() == Purge(old(State()), ttl, thread, now) && (b <==> thread in pending)
    {
      PurgeIfExpired(thread, now);
      b := thread in pending;
    }

    /** Remove the live entry and leave its future alone. */
    method ClaimEntry(thread: string, now: real) returns (e: Option<Entry>)
      modifies this
      ensures (State(), e) == Claim(old(State()), ttl, thread, now)
      ensures e.Some? ==> now - e.value.createdAt <= ttl
    {
      PurgeIfExpired(thread, now);
      if thread !in pending {
        return None;
      }
      e := Some(pending[thread]);
      pending := pending - {thread};
    }

    method ResolveEntry(thread: string, approved: bool, now: real) returns (e: Option<Entry>)
      modifies this
      ensures (State(), e) == Resolve(old(State()), ttl, thread, approved, now)
    {
      e := ClaimEntry(thread, now);
      if e.None? {
        return;
      }
      if e.value.future < |futures| && futures[e.value.future].Open? {
        futures := futures[e.value.future := Decided(approved)];
      }
    }
  }

  // ---- authorisation -------------------------------------------------------

  datatype Gate = Gate(operator: Option<string>, requireOperator: bool)

  predicate ClickAuthorized(g: Gate, sender: Option<string>) {
    if g.requireOperator then g.operator.Some? && g.operator.value != "" && sender == g.operator
    else g.operator.None? || sender == g.operator
  }

  /** A message without a sender approves exactly in the permissive single-user configuration. */
  lemma SenderlessIsRefused(g: Gate)
    ensures ClickAuthorized(g, None) <==> g.operator.None? && !g.requireOperator
  {
  }
}
