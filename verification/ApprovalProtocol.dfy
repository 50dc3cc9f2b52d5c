/** The approval protocol at the grain of its awaits (cockpit/core.py, cockpit/memory_write.py): everything interleaves freely. */
module ApprovalProtocol {
  import opened Base
  import opened Approval

  datatype Config = Config(ttl: real, gate: Gate, memory: bool)

  /** Why an entry left the table. */
  datatype Exit = TimedOut | Withdrawn | Claimed(at: real, sender: Option<string>, approved: bool)

  /** The history of one future: what it was registered for, and every exit of its entry. */
  datatype Life = Life(request: Request, createdAt: real, exits: seq<Exit>)

  /** An audit record that reached the memory; the real record names only the request. */
  datatype Audit = Audit(future: nat, approved: bool)

  datatype State = State(
    table: Table,
    lives: seq<Life>,
    auditing: map<nat, bool>,
    denying: set<nat>,
    audits: seq<Audit>,
    granted: seq<nat>,
    collected: set<nat>,
    now: real)

  const INITIAL := State(EMPTY, [], map[], {}, [], [], {}, 0.0)

  datatype Action =
    | Tick(seconds: real)
    | RequestCapability(request: Request)
    | SurfaceFails(thread: string)
    | WithdrawPending(thread: string)
    | Look(thread: string)
    | Decide(thread: string, sender: Option<string>, approved: bool, lag: real)
    | AuditWritten(future: nat)
    | AuditRaises(future: nat, written: bool)
    | DenialAudited(future: nat, written: bool)
    | ConsumerGivesUp(future: nat)
    | ConsumerResumes(future: nat)

  // ---- steps ---------------------------------------------------------------

  /** An entry leaves the table: expiry and withdrawal deny it, a claim starts its audit, or decides at once without one. */
  function Drop(c: Config, s: State, thread: string, exit: Exit): State
    requires thread in s.table.pending
  {
    var f := s.table.pending[thread].future;
    var lives := if f < |s.lives| then s.lives[f := s.lives[f].(exits := s.lives[f].exits + [exit])] else s.lives;
    var without := Remove(s.table, thread);
    match exit
    case Claimed(_, _, approved) =>
      if c.memory then s.(table := without, lives := lives, auditing := s.auditing[f := approved])
      else s.(table := without.(futures := Settle(without.futures, f, approved)), lives := lives)
    case _ =>
      s.(table := without.(futures := Settle(without.futures, f, false)), lives := lives)
  }

  function PurgeAt(c: Config, s: State, thread: string): State {
    if Expired(s.table, c.ttl, thread, s.now) then Drop(c, s, thread, TimedOut) else s
  }

  /** `resolve(thread, approved=False)`: whatever entry the thread has now. */
  function DenyThread(c: Config, s: State, thread: string): State {
    var p := PurgeAt(c, s, thread);
    if thread in p.table.pending then Drop(c, p, thread, Withdrawn) else p
  }

  /** The synchronous part of an approve or deny event. */
  function DecideThread(c: Config, s: State, thread: string, sender: Option<string>, approved: bool, lag: real): State {
    var p := PurgeAt(c, s, thread);
    if thread !in p.table.pending || !ClickAuthorized(c.gate, sender) then p
    else
      var q := PurgeAt(c, p.(now := p.now + if lag > 0.0 then lag else 0.0), thread);
      if thread in q.table.pending then Drop(c, q, thread, Claimed(q.now, sender, approved)) else q
  }

  function Step(c: Config, s: State, a: Action): State {
    match a
    case Tick(seconds) => if seconds > 0.0 then s.(now := s.now + seconds) else s
    case RequestCapability(request) =>
      var p := PurgeAt(c, s, request.thread);
      if request.thread in p.table.pending then p
      else
        var (table, _) := Register(p.table, c.ttl, request, p.now);
        p.(table := table, lives := p.lives + [Life(request, p.now, [])])
    case SurfaceFails(thread) => DenyThread(c, s, thread)
    case WithdrawPending(thread) =>
      var p := PurgeAt(c, s, thread);
      var after := DenyThread(c, s, thread);
      if thread in p.table.pending && c.memory then after.(denying := after.denying + {p.table.pending[thread].future})
      else after
    case Look(thread) => PurgeAt(c, s, thread)
    case Decide(thread, sender, approved, lag) => DecideThread(c, s, thread, sender, approved, lag)
    case AuditWritten(f) =>
      if f !in s.auditing then s
      else s.(audits := s.audits + [Audit(f, s.auditing[f])], auditing := s.auditing - {f},
              table := s.table.(futures := Settle(s.table.futures, f, s.auditing[f])))
    case AuditRaises(f, written) =>
      if f !in s.auditing then s
      else s.(audits := s.audits + if written then [Audit(f, s.auditing[f])] else [], auditing := s.auditing - {f})
    case DenialAudited(f, written) =>
      if f !in s.denying then s
      else s.(audits := s.audits + if written then [Audit(f, false)] else [], denying := s.denying - {f})
    case ConsumerGivesUp(f) =>
      if f < |s.table.futures| && s.table.futures[f].Open? then
        s.(table := s.table.(futures := s.table.futures[f := Cancelled]))
      else s
    case ConsumerResumes(f) =>
      if f < |s.table.futures| && s.table.futures[f].Decided? && f !in s.collected then
        s.(collected := s.collected + {f}, granted := s.granted + if s.table.futures[f].approved then [f] else [])
      else s
  }

  function Run(c: Config, s: State, actions: seq<Action>): State {
    if |actions| == 0 then s else Step(c, Run(c, s, actions[..|actions| - 1]), actions[|actions| - 1])
  }

  /** The steps use the table through its own operations. */
  lemma StepsUseTheTable(c: Config, s: State, thread: string, sender: Option<string>, approved: bool)
    ensures PurgeAt(c, s, thread).table == Purge(s.table, c.ttl, thread, s.now)
    ensures DenyThread(c, s, thread).table == Resolve(s.table, c.ttl, thread, false, s.now).0
    ensures ClickAuthorized(c.gate, sender) ==>
      DecideThread(c, s, thread, sender, approved, 0.0).table
      == if c.memory then Claim(s.table, c.ttl, thread, s.now).0 else Resolve(s.table, c.ttl, thread, approved, s.now).0
  {
    var p := PurgeAt(c, s, thread);
    assert p.(now := p.now + 0.0) == p;
    assert PurgeAt(c, p, thread) == p;
  }

  // ---- the invariant -------------------------------------------------------

  predicate InTable(s: State, f: nat)
    requires f < |s.lives|
  {
    var thread := s.lives[f].request.thread;
    thread in s.table.pending && s.table.pending[thread].future == f
  }

  /** Each entry is filed under its own thread, for a live future. */
  ghost predicate TableOk(s: State) {
    && |s.table.futures| == |s.lives|
    && forall thread :: thread in s.table.pending ==>
         var e := s.table.pending[thread];
         e.future < |s.lives| && e.request.thread == thread
         && s.lives[e.future].request == e.request && s.lives[e.future].createdAt == e.createdAt
  }

  /** A claim that was authorised, and made while the request was live. */
  predicate Timely(c: Config, life: Life, exit: Exit) {
    exit.Claimed? ==> ClickAuthorized(c.gate, exit.sender) && exit.at - life.createdAt <= c.ttl
  }

  predicate WasClaimed(life: Life, approved: bool) {
    |life.exits| == 1 && life.exits[0].Claimed? && life.exits[0].approved == approved
  }

  predicate WasDenied(life: Life) {
    |life.exits| == 1 && (life.exits[0].Withdrawn? || (life.exits[0].Claimed? && !life.exits[0].approved))
  }

  ghost predicate LifeOk(c: Config, s: State, f: nat)
    requires |s.table.futures| == |s.lives| && f < |s.lives|
  {
    var life := s.lives[f];
    && |life.exits| == (if InTable(s, f) then 0 else 1)
    && (|life.exits| == 1 ==> Timely(c, life, life.exits[0]))
    && (|life.exits| == 1 && !life.exits[0].Claimed? ==> s.table.futures[f] == Decided(false) || s.table.futures[f] == Cancelled)
  }

  /** Where an in-flight audit, an audit record, a decision and a grant come from. */
  ghost predicate TrailOk(c: Config, s: State, f: nat)
    requires |s.table.futures| == |s.lives| && f < |s.lives|
  {
    var life := s.lives[f];
    && (f in s.auditing ==> c.memory && WasClaimed(life, s.auditing[f]))
    && (Audit(f, true) in s.audits ==> WasClaimed(life, true) && f !in s.auditing)
    && (Audit(f, false) in s.audits ==> WasDenied(life))
    && (f in s.denying ==> WasDenied(life))
    && (s.table.futures[f] == Decided(true) ==> WasClaimed(life, true) && (c.memory ==> Audit(f, true) in s.audits))
  }

  predicate WasGranted(s: State, f: nat) {
    f in s.collected && f < |s.table.futures| && s.table.futures[f] == Decided(true)
  }

  ghost predicate GrantsOk(s: State) {
    && |s.table.futures| == |s.lives|
    && (forall i :: 0 <= i < |s.granted| ==> WasGranted(s, s.granted[i]))
    && (forall i, j :: 0 <= i < j < |s.granted| ==> s.granted[i] != s.granted[j])
    && (forall f :: f in s.auditing || f in s.denying ==> f < |s.lives|)
    && (forall f :: f in s.collected ==> f < |s.lives| && s.table.futures[f].Decided?)
    && (forall a :: a in s.audits ==> a.future < |s.lives|)
  }

  ghost predicate Inv(c: Config, s: State) {
    && TableOk(s) && GrantsOk(s)
    && (forall f :: 0 <= f < |s.lives| ==> LifeOk(c, s, f))
    && (forall f :: 0 <= f < |s.lives| ==> TrailOk(c, s, f))
  }

  // ---- every step keeps it -------------------------------------------------

  /** The one future the entry of `thread` belongs to. */
  lemma EntryFacts(c: Config, s: State, thread: string)
    requires Inv(c, s) && thread in s.table.pending
    ensures var f := s.table.pending[thread].future;
            f < |s.lives| && s.lives[f].request.thread == thread && InTable(s, f)
            && s.lives[f].createdAt == s.table.pending[thread].createdAt && s.lives[f].exits == []
  {
    var f := s.table.pending[thread].future;
    assert LifeOk(c, s, f);
  }

  /** Dropping an entry gives its future one exit, and touches no other future. */
  lemma DropOthers(c: Config, s: State, thread: string, exit: Exit, f: nat)
    requires Inv(c, s) && thread in s.table.pending && f < |s.lives| && f != s.table.pending[thread].future
    ensures var t := Drop(c, s, thread, exit);
            |t.table.futures| == |t.lives| == |s.lives|
            && t.lives[f] == s.lives[f] && t.table.futures[f] == s.table.futures[f]
            && (InTable(t, f) <==> InTable(s, f))
            && (f in t.auditing <==> f in s.auditing) && (f in s.auditing ==> t.auditing[f] == s.auditing[f])
  {
    EntryFacts(c, s, thread);
  }

  lemma DropOwn(c: Config, s: State, thread: string, exit: Exit)
    requires Inv(c, s) && thread in s.table.pending
    requires Timely(c, s.lives[s.table.pending[thread].future], exit)
    ensures var t, f := Drop(c, s, thread, exit), s.table.pending[thread].future;
            |t.table.futures| == |t.lives| && LifeOk(c, t, f) && TrailOk(c, t, f)
  {
    EntryFacts(c, s, thread);
    var f := s.table.pending[thread].future;
    assert TrailOk(c, s, f);
    assert s.table.futures[f] != Decided(true);
    var t := Drop(c, s, thread, exit);
    assert t.lives[f].exits == [exit];
    assert t.table.pending == s.table.pending - {thread};
  }

  lemma DropTable(c: Config, s: State, thread: string, exit: Exit)
    requires Inv(c, s) && thread in s.table.pending
    ensures TableOk(Drop(c, s, thread, exit))
  {
    EntryFacts(c, s, thread);
    var t := Drop(c, s, thread, exit);
    forall other | other in t.table.pending
      ensures other in s.table.pending && t.table.pending[other] == s.table.pending[other]
    {
    }
  }

  lemma DropGrants(c: Config, s: State, thread: string, exit: Exit)
    requires Inv(c, s) && thread in s.table.pending
    ensures GrantsOk(Drop(c, s, thread, exit))
  {
    EntryFacts(c, s, thread);
    var t := Drop(c, s, thread, exit);
    assert |t.lives| == |s.lives|;
    forall f | 0 <= f < |s.lives| && s.table.futures[f].Decided?
      ensures t.table.futures[f] == s.table.futures[f]
    {
    }
    forall i | 0 <= i < |t.granted|
      ensures WasGranted(t, t.granted[i])
    {
      assert WasGranted(s, s.granted[i]);
    }
  }

  lemma DropKeeps(c: Config, s: State, thread: string, exit: Exit)
    requires Inv(c, s) && thread in s.table.pending
    requires Timely(c, s.lives[s.table.pending[thread].future], exit)
    ensures Inv(c, Drop(c, s, thread, exit))
  {
    hide Drop;
    var t, g := Drop(c, s, thread, exit), s.table.pending[thread].future;
    DropTable(c, s, thread, exit);
    DropGrants(c, s, thread, exit);
    DropOwn(c, s, thread, exit);
    SameTrail(c, s, thread, exit);
    forall f | 0 <= f < |t.lives|
      ensures LifeOk(c, t, f) && TrailOk(c, t, f)
    {
      if f != g {
        DropOthers(c, s, thread, exit, f);
        assert LifeOk(c, s, f) && TrailOk(c, s, f);
      }
    }
  }

  lemma SameTrail(c: Config, s: State, thread: string, exit: Exit)
    requires Inv(c, s) && thread in s.table.pending
    ensures var t := Drop(c, s, thread, exit);
            |t.lives| == |s.lives| && t.audits == s.audits && t.denying == s.denying
  {
  }

  lemma PurgeKeeps(c: Config, s: State, thread: string)
    requires Inv(c, s)
    ensures Inv(c, PurgeAt(c, s, thread))
    ensures PurgeAt(c, s, thread).now == s.now && PurgeAt(c, s, thread).denying == s.denying
    ensures thread in PurgeAt(c, s, thread).table.pending ==>
              PurgeAt(c, s, thread) == s && s.now - s.table.pending[thread].createdAt <= c.ttl
  {
    hide Inv;
    if Expired(s.table, c.ttl, thread, s.now) {
      InvGivesEntry(c, s, thread);
      DropKeeps(c, s, thread, TimedOut);
    }
  }

  lemma InvGivesEntry(c: Config, s: State, thread: string)
    requires Inv(c, s) && thread in s.table.pending
    ensures |s.table.futures| == |s.lives| && s.table.pending[thread].future < |s.lives|
    ensures s.lives[s.table.pending[thread].future].createdAt == s.table.pending[thread].createdAt
    ensures s.lives[s.table.pending[thread].future].request.thread == thread
    ensures InTable(s, s.table.pending[thread].future) && s.lives[s.table.pending[thread].future].exits == []
  {
    EntryFacts(c, s, thread);
  }

  lemma DenyKeeps(c: Config, s: State, thread: string)
    requires Inv(c, s)
    ensures Inv(c, DenyThread(c, s, thread))
  {
    hide Inv, PurgeAt, Drop;
    PurgeKeeps(c, s, thread);
    var p := PurgeAt(c, s, thread);
    if thread in p.table.pending {
      InvGivesEntry(c, p, thread);
      DropKeeps(c, p, thread, Withdrawn);
    }
  }

  lemma TickKeeps(c: Config, s: State, seconds: real)
    requires Inv(c, s)
    ensures Inv(c, s.(now := s.now + seconds))
  {
    var t := s.(now := s.now + seconds);
    forall f | 0 <= f < |t.lives|
      ensures LifeOk(c, t, f) && TrailOk(c, t, f)
    {
      assert LifeOk(c, s, f) && TrailOk(c, s, f);
    }
    forall i | 0 <= i < |t.granted|
      ensures WasGranted(t, t.granted[i])
    {
      assert WasGranted(s, s.granted[i]);
    }
  }

  lemma DecideKeeps(c: Config, s: State, thread: string, sender: Option<string>, approved: bool, lag: real)
    requires Inv(c, s)
    ensures Inv(c, DecideThread(c, s, thread, sender, approved, lag))
  {
    hide Inv, PurgeAt, Drop;
    PurgeKeeps(c, s, thread);
    var p := PurgeAt(c, s, thread);
    if thread in p.table.pending && ClickAuthorized(c.gate, sender) {
      var later := if lag > 0.0 then lag else 0.0;
      TickKeeps(c, p, later);
      PurgeKeeps(c, p.(now := p.now + later), thread);
      var q := PurgeAt(c, p.(now := p.now + later), thread);
      if thread in q.table.pending {
        InvGivesEntry(c, q, thread);
        DropKeeps(c, q, thread, Claimed(q.now, sender, approved));
      }
    }
  }

  /** A new request on a free thread. */
  lemma RegisterKeeps(c: Config, s: State, request: Request)
    requires Inv(c, s) && request.thread !in s.table.pending
    ensures var (table, _) := Register(s.table, c.ttl, request, s.now);
            Inv(c, s.(table := table, lives := s.lives + [Life(request, s.now, [])]))
  {
    var (table, _) := Register(s.table, c.ttl, request, s.now);
    var n := |s.lives|;
    var t := s.(table := table, lives := s.lives + [Life(request, s.now, [])]);
    assert t.table.futures == s.table.futures + [Open];
    RegisterTable(c, s, request);
    forall f | 0 <= f < n
      ensures LifeOk(c, t, f) && TrailOk(c, t, f)
    {
      assert LifeOk(c, s, f) && TrailOk(c, s, f);
      assert t.lives[f] == s.lives[f] && t.table.futures[f] == s.table.futures[f];
      assert InTable(t, f) <==> InTable(s, f);
    }
    assert t.lives[n] == Life(request, s.now, []) && InTable(t, n);
    assert forall a :: a in s.audits ==> a.future < n;
    assert LifeOk(c, t, n) && TrailOk(c, t, n);
    forall i | 0 <= i < |t.granted|
      ensures WasGranted(t, t.granted[i])
    {
      assert WasGranted(s, s.granted[i]);
    }
  }

  lemma RegisterTable(c: Config, s: State, request: Request)
    requires Inv(c, s) && request.thread !in s.table.pending
    ensures var (table, _) := Register(s.table, c.ttl, request, s.now);
            TableOk(s.(table := table, lives := s.lives + [Life(request, s.now, [])]))
  {
  }

  /** A future that is open, or whose own bookkeeping allows it, may be settled without touching the table. */
  lemma BookkeepingKeeps(c: Config, s: State, t: State, f: nat)
    requires Inv(c, s) && f < |s.lives|
    requires t.lives == s.lives && t.table.pending == s.table.pending
    requires |t.table.futures| == |s.table.futures|
    requires forall g :: 0 <= g < |s.lives| && g != f ==> t.table.futures[g] == s.table.futures[g]
    requires s.table.futures[f].Open? || t.table.futures[f] == s.table.futures[f]
    requires forall g :: g != f ==> (g in t.auditing <==> g in s.auditing) && (g in s.auditing ==> t.auditing[g] == s.auditing[g])
    requires forall g :: g != f ==> (g in t.denying <==> g in s.denying)
    requires forall g, b :: g != f ==> (Audit(g, b) in t.audits <==> Audit(g, b) in s.audits)
    requires TrailOk(c, t, f) && GrantsOk(t)
    requires LifeOk(c, t, f)
    ensures Inv(c, t)
  {
    forall g | 0 <= g < |t.lives|
      ensures LifeOk(c, t, g) && TrailOk(c, t, g)
    {
      assert LifeOk(c, s, g) && TrailOk(c, s, g);
      assert InTable(t, g) <==> InTable(s, g);
    }
  }

  lemma SettleGrants(s: State, futures: seq<Status>)
    requires GrantsOk(s) && |futures| == |s.lives|
    requires forall g :: 0 <= g < |s.lives| && s.table.futures[g].Decided? ==> futures[g] == s.table.futures[g]
    ensures GrantsOk(s.(table := s.table.(futures := futures)))
  {
    var t := s.(table := s.table.(futures := futures));
    forall i | 0 <= i < |t.granted|
      ensures WasGranted(t, t.granted[i])
    {
      assert WasGranted(s, s.granted[i]);
    }
  }

  lemma AuditWrittenKeeps(c: Config, s: State, f: nat)
    requires Inv(c, s)
    ensures Inv(c, Step(c, s, AuditWritten(f)))
  {
    if f in s.auditing {
      var t := Step(c, s, AuditWritten(f));
      assert LifeOk(c, s, f) && TrailOk(c, s, f);
      SettleGrants(s, t.table.futures);
      assert Audit(f, s.auditing[f]) in t.audits;
      BookkeepingKeeps(c, s, t, f);
    }
  }

  lemma AuditRaisesKeeps(c: Config, s: State, f: nat, written: bool)
    requires Inv(c, s)
    ensures Inv(c, Step(c, s, AuditRaises(f, written)))
  {
    if f in s.auditing {
      var t := Step(c, s, AuditRaises(f, written));
      assert LifeOk(c, s, f) && TrailOk(c, s, f);
      SettleGrants(s, t.table.futures);
      BookkeepingKeeps(c, s, t, f);
    }
  }

  lemma DenialAuditedKeeps(c: Config, s: State, f: nat, written: bool)
    requires Inv(c, s)
    ensures Inv(c, Step(c, s, DenialAudited(f, written)))
  {
    if f in s.denying {
      var t := Step(c, s, DenialAudited(f, written));
      assert LifeOk(c, s, f) && TrailOk(c, s, f);
      SettleGrants(s, t.table.futures);
      BookkeepingKeeps(c, s, t, f);
    }
  }

  lemma GivesUpKeeps(c: Config, s: State, f: nat)
    requires Inv(c, s)
    ensures Inv(c, Step(c, s, ConsumerGivesUp(f)))
  {
    if f < |s.table.futures| && s.table.futures[f].Open? {
      var t := Step(c, s, ConsumerGivesUp(f));
      assert LifeOk(c, s, f) && TrailOk(c, s, f);
      SettleGrants(s, t.table.futures);
      BookkeepingKeeps(c, s, t, f);
    }
  }

  lemma ResumesKeeps(c: Config, s: State, f: nat)
    requires Inv(c, s)
    ensures Inv(c, Step(c, s, ConsumerResumes(f)))
  {
    if f < |s.table.futures| && s.table.futures[f].Decided? && f !in s.collected {
      var t := Step(c, s, ConsumerResumes(f));
      assert LifeOk(c, s, f) && TrailOk(c, s, f);
      forall i | 0 <= i < |t.granted|
        ensures WasGranted(t, t.granted[i])
      {
        assert i < |s.granted| ==> WasGranted(s, s.granted[i]);
      }
      forall i | 0 <= i < |s.granted|
        ensures s.granted[i] != f
      {
        assert WasGranted(s, s.granted[i]);
      }
      BookkeepingKeeps(c, s, t, f);
    }
  }

  lemma RequestKeeps(c: Config, s: State, request: Request)
    requires Inv(c, s)
    ensures Inv(c, Step(c, s, RequestCapability(request)))
  {
    hide Inv, PurgeAt;
    PurgeKeeps(c, s, request.thread);
    var p := PurgeAt(c, s, request.thread);
    if request.thread !in p.table.pending {
      RegisterKeeps(c, p, request);
    }
  }

  lemma WithdrawKeeps(c: Config, s: State, thread: string)
    requires Inv(c, s)
    ensures Inv(c, Step(c, s, WithdrawPending(thread)))
  {
    DenyKeeps(c, s, thread);
    PurgeKeeps(c, s, thread);
    var p, after := PurgeAt(c, s, thread), DenyThread(c, s, thread);
    if thread in p.table.pending && c.memory {
      EntryFacts(c, p, thread);
      var f := p.table.pending[thread].future;
      assert after.lives[f].exits == [Withdrawn];
      var t := after.(denying := after.denying + {f});
      assert LifeOk(c, after, f) && TrailOk(c, after, f);
      SettleGrants(after, t.table.futures);
      BookkeepingKeeps(c, after, t, f);
    }
  }

  lemma StepKeeps(c: Config, s: State, a: Action)
    requires Inv(c, s)
    ensures Inv(c, Step(c, s, a))
  {
    hide Inv;
    match a
    case Tick(seconds) => TickKeeps(c, s, seconds);
    case RequestCapability(request) => RequestKeeps(c, s, request);
    case SurfaceFails(thread) => DenyKeeps(c, s, thread);
    case WithdrawPending(thread) => WithdrawKeeps(c, s, thread);
    case Look(thread) => PurgeKeeps(c, s, thread);
    case Decide(thread, sender, approved, lag) => DecideKeeps(c, s, thread, sender, approved, lag);
    case AuditWritten(f) => AuditWrittenKeeps(c, s, f);
    case AuditRaises(f, written) => AuditRaisesKeeps(c, s, f, written);
    case DenialAudited(f, written) => DenialAuditedKeeps(c, s, f, written);
    case ConsumerGivesUp(f) => GivesUpKeeps(c, s, f);
    case ConsumerResumes(f) => ResumesKeeps(c, s, f);
  }

  lemma {:induction false} RunKeeps(c: Config, actions: seq<Action>)
    ensures Inv(c, Run(c, INITIAL, actions))
  {
    hide Step;
    if |actions| != 0 {
      RunKeeps(c, actions[..|actions| - 1]);
      StepKeeps(c, Run(c, INITIAL, actions[..|actions| - 1]), actions[|actions| - 1]);
    }
  }

  // ---- what holds in every run ---------------------------------------------

  /**
   * A grant is reached only through one authorised claim of that same request, made while it was live, and, when the
   * memory is wired, after its "approved" record was written. It is reached at most once.
   */
  lemma GrantsAreEarned(c: Config, actions: seq<Action>, i: nat)
    requires i < |Run(c, INITIAL, actions).granted|
    ensures var s := Run(c, INITIAL, actions);
            var f := s.granted[i];
            && f < |s.lives| && f < |s.table.futures| && s.table.futures[f] == Decided(true)
            && WasClaimed(s.lives[f], true) && ClickAuthorized(c.gate, s.lives[f].exits[0].sender)
            && s.lives[f].exits[0].at - s.lives[f].createdAt <= c.ttl
            && (c.memory ==> Audit(f, true) in s.audits)
            && (forall j :: 0 <= j < |s.granted| && j != i ==> s.granted[j] != f)
  {
    RunKeeps(c, actions);
    var s := Run(c, INITIAL, actions);
    hide Run;
    assert WasGranted(s, s.granted[i]);
    assert LifeOk(c, s, s.granted[i]) && TrailOk(c, s, s.granted[i]);
  }

  /** Every registered entry is in the table or has left it exactly once, and a thread never has two. */
  lemma EntriesLeaveOnce(c: Config, actions: seq<Action>, f: nat)
    requires f < |Run(c, INITIAL, actions).lives|
    ensures var s := Run(c, INITIAL, actions);
            && |s.table.futures| == |s.lives|
            && |s.lives[f].exits| == (if InTable(s, f) then 0 else 1)
            && (|s.lives[f].exits| == 1 && !s.lives[f].exits[0].Claimed? ==> s.table.futures[f] in {Decided(false), Cancelled})
            && (forall g :: 0 <= g < |s.lives| && g != f && InTable(s, f) && InTable(s, g)
                  ==> s.lives[g].request.thread != s.lives[f].request.thread)
  {
    RunKeeps(c, actions);
    var s := Run(c, INITIAL, actions);
    hide Run;
    assert LifeOk(c, s, f);
  }

  /** No "approved" record is ever written for a request that was not claimed live by an authorised sender. */
  lemma TrailIsTrue(c: Config, actions: seq<Action>, f: nat)
    ensures var s := Run(c, INITIAL, actions);
            Audit(f, true) in s.audits ==>
              f < |s.lives| && WasClaimed(s.lives[f], true) && Timely(c, s.lives[f], s.lives[f].exits[0])
  {
    RunKeeps(c, actions);
    var s := Run(c, INITIAL, actions);
    hide Run;
    if Audit(f, true) in s.audits {
      assert LifeOk(c, s, f) && TrailOk(c, s, f);
    }
  }

  /** A future resolves at most once: once it is decided or cancelled no step changes it. */
  lemma DoneStaysDone(c: Config, s: State, a: Action, f: nat)
    requires f < |s.table.futures| && !s.table.futures[f].Open?
    ensures Same(s, Step(c, s, a), f)
  {
    hide PurgeAt, DenyThread, DecideThread;
    match a
    case RequestCapability(request) => DonePurge(c, s, request.thread, f);
    case SurfaceFails(thread) => DoneDeny(c, s, thread, f);
    case WithdrawPending(thread) => DoneDeny(c, s, thread, f);
    case Look(thread) => DonePurge(c, s, thread, f);
    case Decide(thread, sender, approved, lag) => DoneDecide(c, s, thread, sender, approved, lag, f);
    case _ =>
  }

  predicate Same(s: State, t: State, f: nat) {
    f < |s.table.futures| && f < |t.table.futures| && t.table.futures[f] == s.table.futures[f]
  }

  lemma DoneDrop(c: Config, s: State, thread: string, exit: Exit, f: nat)
    requires thread in s.table.pending && f < |s.table.futures| && !s.table.futures[f].Open?
    ensures Same(s, Drop(c, s, thread, exit), f)
  {
  }

  lemma DonePurge(c: Config, s: State, thread: string, f: nat)
    requires f < |s.table.futures| && !s.table.futures[f].Open?
    ensures Same(s, PurgeAt(c, s, thread), f)
  {
    hide Drop;
    if Expired(s.table, c.ttl, thread, s.now) { DoneDrop(c, s, thread, TimedOut, f); }
  }

  lemma DoneDeny(c: Config, s: State, thread: string, f: nat)
    requires f < |s.table.futures| && !s.table.futures[f].Open?
    ensures Same(s, DenyThread(c, s, thread), f)
  {
    hide Drop, PurgeAt;
    var p := PurgeAt(c, s, thread);
    DonePurge(c, s, thread, f);
    if thread in p.table.pending { DoneDrop(c, p, thread, Withdrawn, f); }
  }

  lemma DoneDecide(c: Config, s: State, thread: string, sender: Option<string>, approved: bool, lag: real, f: nat)
    requires f < |s.table.futures| && !s.table.futures[f].Open?
    ensures Same(s, DecideThread(c, s, thread, sender, approved, lag), f)
  {
    hide Drop, PurgeAt;
    var p := PurgeAt(c, s, thread);
    DonePurge(c, s, thread, f);
    var later := p.(now := p.now + if lag > 0.0 then lag else 0.0);
    DonePurge(c, later, thread, f);
    var q := PurgeAt(c, later, thread);
    if thread in q.table.pending { DoneDrop(c, q, thread, Claimed(q.now, sender, approved), f); }
  }

  lemma {:induction false} DoneForever(c: Config, actions: seq<Action>, more: seq<Action>, f: nat)
    requires f < |Run(c, INITIAL, actions).table.futures| && !Run(c, INITIAL, actions).table.futures[f].Open?
    ensures Same(Run(c, INITIAL, actions), Run(c, INITIAL, actions + more), f)
  {
    hide Step;
    if |more| == 0 {
      assert actions + more == actions;
    } else {
      var init := more[..|more| - 1];
      assert (actions + more)[..|actions + more| - 1] == actions + init;
      DoneForever(c, actions, init, f);
      DoneStaysDone(c, Run(c, INITIAL, actions + init), more[|more| - 1], f);
    }
  }

  /** Withdrawing, and rolling back a failed surface, can only deny: no future becomes approved by either. */
  lemma WithdrawOnlyDenies(c: Config, s: State, thread: string, f: nat)
    requires f < |s.table.futures|
    ensures forall a | a == WithdrawPending(thread) || a == SurfaceFails(thread) ::
              Step(c, s, a).table.futures[f] == s.table.futures[f] || Step(c, s, a).table.futures[f] == Decided(false)
  {
  }

  /**
   * A producer withdraws after its wait cancelled its own future `f`, which stays as it is. Another open request `g` of
   * the thread is denied by that withdrawal if and only if it holds the thread.
   */
  lemma WithdrawHitsTheThread(c: Config, s: State, thread: string, f: nat, g: nat)
    requires Inv(c, s) && f < |s.lives| && g < |s.lives|
    requires s.lives[f].request.thread == thread == s.lives[g].request.thread
    requires s.table.futures[f].Cancelled? && s.table.futures[g].Open?
    ensures var after := Step(c, s, WithdrawPending(thread));
            && after.table.futures[f] == Cancelled && !InTable(after, f)
            && after.table.futures[g] == if InTable(s, g) then Decided(false) else Open
  {
    assert LifeOk(c, s, f) && LifeOk(c, s, g);
    PurgeKeeps(c, s, thread);
    if thread in s.table.pending { EntryFacts(c, s, thread); }
  }

  /** The late withdrawal of a claimed request denies the next one on its thread. */
  lemma LateWithdrawDeniesTheNext(first: Request, second: Request)
    requires first.thread == second.thread
    ensures var c := Config(300.0, Gate(None, false), true);
            var s := Run(c, INITIAL, [
              RequestCapability(first), Decide(first.thread, None, true, 0.0), AuditRaises(0, false),
              RequestCapability(second), ConsumerGivesUp(0), WithdrawPending(first.thread)]);
            s.table.futures == [Cancelled, Decided(false)]
  {
    var c, thread := Config(300.0, Gate(None, false), true), first.thread;
    LateStart(c, first);
    var s := Step(c, Step(c, Step(c, INITIAL, RequestCapability(first)), Decide(thread, None, true, 0.0)), AuditRaises(0, false));
    LateEnd(c, s, second);
    hide Step;
    RunSix(c, RequestCapability(first), Decide(thread, None, true, 0.0), AuditRaises(0, false),
           RequestCapability(second), ConsumerGivesUp(0), WithdrawPending(thread));
  }

  lemma LateStart(c: Config, first: Request)
    requires c == Config(300.0, Gate(None, false), true)
    ensures var s := Step(c, Step(c, Step(c, INITIAL, RequestCapability(first)), Decide(first.thread, None, true, 0.0)), AuditRaises(0, false));
            s.table == Table(map[], [Open]) && |s.lives| == 1
  {
    var s1 := Step(c, INITIAL, RequestCapability(first));
    assert s1.table == Table(map[first.thread := Entry(first, 0, 0.0)], [Open]);
    var s2 := Step(c, s1, Decide(first.thread, None, true, 0.0));
    assert s2.auditing == map[0 := true] && s2.table == Table(map[], [Open]);
  }

  lemma LateEnd(c: Config, s: State, second: Request)
    requires c == Config(300.0, Gate(None, false), true) && s.table == Table(map[], [Open])
    ensures var t := Step(c, Step(c, Step(c, s, RequestCapability(second)), ConsumerGivesUp(0)), WithdrawPending(second.thread));
            t.table.futures == [Cancelled, Decided(false)]
  {
    var s4 := Step(c, s, RequestCapability(second));
    assert s4.table == Table(map[second.thread := Entry(second, 1, s.now)], [Open, Open]);
    var s5 := Step(c, s4, ConsumerGivesUp(0));
    assert s5.table.futures == [Cancelled, Open];
  }

  lemma RunSnoc(c: Config, actions: seq<Action>, a: Action)
    ensures Run(c, INITIAL, actions + [a]) == Step(c, Run(c, INITIAL, actions), a)
  {
    assert (actions + [a])[..|actions|] == actions;
  }

  lemma RunSix(c: Config, a0: Action, a1: Action, a2: Action, a3: Action, a4: Action, a5: Action)
    ensures Run(c, INITIAL, [a0, a1, a2, a3, a4, a5])
      == Step(c, Step(c, Step(c, Step(c, Step(c, Step(c, INITIAL, a0), a1), a2), a3), a4), a5)
  {
    hide Step;
    RunSnoc(c, [], a0);
    RunSnoc(c, [a0], a1);
    RunSnoc(c, [a0, a1], a2);
    RunSnoc(c, [a0, a1, a2], a3);
    RunSnoc(c, [a0, a1, a2, a3], a4);
    RunSnoc(c, [a0, a1, a2, a3, a4], a5);
    assert [] + [a0] == [a0] && [a0] + [a1] == [a0, a1] && [a0, a1] + [a2] == [a0, a1, a2];
    assert [a0, a1, a2] + [a3] == [a0, a1, a2, a3] && [a0, a1, a2, a3] + [a4] == [a0, a1, a2, a3, a4];
    assert [a0, a1, a2, a3, a4] + [a5] == [a0, a1, a2, a3, a4, a5];
  }

  /** An expired request never wedges its thread: the next one is accepted, and the old one is denied or was cancelled. */
  lemma ExpiredNeverWedges(c: Config, s: State, request: Request, f: nat)
    requires Inv(c, s) && f < |s.lives| && InTable(s, f) && s.lives[f].request.thread == request.thread
    requires s.now - s.lives[f].createdAt > c.ttl
    ensures var t := Step(c, s, RequestCapability(request));
            && |t.lives| == |s.lives| + 1 && InTable(t, |s.lives|)
            && t.table.futures[f] in {Decided(false), Cancelled}
  {
    EntryFacts(c, s, request.thread);
    assert LifeOk(c, s, f) && TrailOk(c, s, f);
  }

  // ---- the producers -------------------------------------------------------

  /** The write-graduation batch: a promotion that raises is skipped, never retried, and the rest go on. */
  method PromoteEach(ids: seq<string>, lands: string -> bool) returns (promoted: seq<string>)
    ensures promoted == Filter(ids, lands)
  {
    promoted := [];
    for i := 0 to |ids|
      invariant promoted == Filter(ids[..i], lands)
    {
      assert ids[..i + 1] == ids[..i] + [ids[i]];
      FilterSnoc(ids[..i], ids[i], lands);
      if lands(ids[i]) {
        promoted := promoted + [ids[i]];
      }
    }
    assert ids[..|ids|] == ids;
  }
}
