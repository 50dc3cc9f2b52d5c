/** The credential broker at the grain of its awaits: any number of operations in flight, interleaved freely. */
module LeaseInterleaving {
  import opened Base
  import opened Lease

  /**
   * `flying` are the tokens whose mint has not been answered yet, `lost` those whose answer never named them, `gone` those
   * that died at their provider.
   */
  datatype Flight = Flight(broker: Broker, flying: set<Token>, lost: set<Token>, gone: set<Token>)

  const START := Flight(Broker(map[], {}), {}, {}, {})

  /** What can happen between two awaits, at a provider or in the broker. */
  datatype Event =
    | TokenMade(token: Token)
    | MintReturned(lease: Lease)
    | MintRaised(token: Token)
    | TokenDied(token: Token)
    | Forgotten(lease: Lease)

  function TokensOf(l: Lease): set<Token> {
    if l.stateful && l.handle.Some? then {(l.provider, l.handle.value)} else {}
  }

  function Next(s: Flight, e: Event): Flight {
    match e
    case TokenMade(t) => s.(broker := s.broker.(live := s.broker.live + {t}), flying := s.flying + {t})
    case MintReturned(l) => s.(broker := s.broker.(open := Record(s.broker.open, l)), flying := s.flying - TokensOf(l))
    case MintRaised(t) => s.(flying := s.flying - {t}, lost := s.lost + {t})
    case TokenDied(t) => s.(broker := s.broker.(live := s.broker.live - {t}), gone := s.gone + {t})
    case Forgotten(l) => s.(broker := s.broker.(open := s.broker.open - {Key(l)}))
  }

  function Play(s: Flight, events: seq<Event>): Flight
    decreases |events|
  {
    if |events| == 0 then s else Play(Next(s, events[0]), events[1..])
  }

  /**
   * What may happen when these tokens are dead: an entry is forgotten only for a token that is, or for a stateless lease.
   */
  ghost predicate MayHappen(kind: string -> bool, gone: set<Token>, e: Event) {
    match e
    case TokenMade(t) => ColonFree(t.0)
    case MintReturned(l) => FromBroker(kind, l)
    case Forgotten(l) => FromBroker(kind, l) && TokensOf(l) <= gone
    case _ => true
  }

  /** And a provider may refresh a live token, but never reissues the handle of a dead one. */
  ghost predicate Lawful(kind: string -> bool, s: Flight, e: Event) {
    MayHappen(kind, s.gone, e) && !Reissues(s, e)
  }

  predicate Reissues(s: Flight, e: Event) {
    e.TokenMade? && e.token in s.gone
  }

  ghost predicate AllLawful(kind: string -> bool, s: Flight, events: seq<Event>)
    decreases |events|
  {
    |events| == 0 || (Lawful(kind, s, events[0]) && AllLawful(kind, Next(s, events[0]), events[1..]))
  }

  ghost predicate Sound(kind: string -> bool, s: Flight) {
    Inv(kind, s.broker, s.flying + s.lost) && s.broker.live !! s.gone
  }

  lemma RecordedHolds(kind: string -> bool, open: Ledger, l: Lease, t: Token)
    requires FromBroker(kind, l) && ColonFree(t.0)
    ensures Holds(open, t) || t in TokensOf(l) ==> Holds(Record(open, l), t)
  {
    if l.stateful { KeysAreDistinct(t.0, t.1, l.provider, l.handle.value); }
  }

  lemma ForgottenHolds(kind: string -> bool, open: Ledger, l: Lease, t: Token)
    requires FromBroker(kind, l) && ColonFree(t.0) && t !in TokensOf(l) && Holds(open, t)
    requires FromBroker(kind, open[KeyText(t.0, t.1)])
    requires open[KeyText(t.0, t.1)].stateful
    ensures Holds(open - {Key(l)}, t)
  {
    KeysAreDistinct(t.0, t.1, l.provider, HandleText(l.handle));
  }

  ghost predicate Accounted(s: Flight, t: Token) {
    Holds(s.broker.open, t) || t in s.flying + s.lost
  }

  lemma NextAccounts(kind: string -> bool, s: Flight, e: Event, t: Token)
    requires Sound(kind, s) && Lawful(kind, s, e) && t in Next(s, e).broker.live
    ensures Accounted(Next(s, e), t)
  {
    hide Key, KeyText;
    if t in s.broker.live {
      assert t in Untracked(s.broker) ==> t in s.flying + s.lost;
      assert Accounted(s, t);
      if e.MintReturned? {
        RecordedHolds(kind, s.broker.open, e.lease, t);
      } else if e.Forgotten? && Holds(s.broker.open, t) {
        var k := KeyText(t.0, t.1);
        assert FromBroker(kind, s.broker.open[k]) && s.broker.open[k].stateful;
        ForgottenHolds(kind, s.broker.open, e.lease, t);
      }
    }
  }

  lemma NextKeepsSound(kind: string -> bool, s: Flight, e: Event)
    requires Sound(kind, s) && Lawful(kind, s, e)
    ensures Sound(kind, Next(s, e))
  {
    forall t | t in Next(s, e).broker.live
      ensures Accounted(Next(s, e), t)
    {
      NextAccounts(kind, s, e, t);
    }
  }

  lemma {:induction false} PlayKeepsSound(kind: string -> bool, s: Flight, events: seq<Event>)
    requires Sound(kind, s) && AllLawful(kind, s, events)
    ensures Sound(kind, Play(s, events))
    decreases |events|
  {
    if |events| != 0 {
      NextKeepsSound(kind, s, events[0]);
      PlayKeepsSound(kind, Next(s, events[0]), events[1..]);
    }
  }

  // ---- the operations as events --------------------------------------------------------------

  function MadeEvents(provider: string, handle: Option<string>): seq<Event> {
    if handle.Some? then [TokenMade((provider, handle.value))] else []
  }

  function RaisedEvents(provider: string, hidden: Option<string>): seq<Event> {
    if hidden.Some? then [MintRaised((provider, hidden.value))] else []
  }

  /** A mint that the guards let through: what the provider does, and what the broker makes of the answer. */
  function MintEvents(stateful: bool, provider: string, mint: MintOutcome, l: Option<Lease>): seq<Event> {
    (if stateful then MadeEvents(provider, mint.hidden) + MadeEvents(provider, if mint.Minted? then mint.handle else None) else [])
    + (if l.Some? then [MintReturned(l.value)] else [])
    + if stateful then RaisedEvents(provider, mint.hidden) else []
  }

  /** A revoke of a stateful lease, and the entry it may drop. */
  function RevokeEvents(l: Lease, revoke: RevokeOutcome): seq<Event> {
    (if Dies(revoke) && l.handle.Some? then [TokenDied((l.provider, l.handle.value))] else [])
    + if Gone(revoke) then [Forgotten(l)] else []
  }

  /**
   * An operation with what the providers answer. A sweep goes over a copy of the ledger in any order. A lease may be any that
   * a broker could have issued.
   */
  datatype Operation =
    | AcquireOp(ps: Registry, provider: string, scope: string, fold: Fold, ttl: int, budget: Budget,
                mint: MintOutcome, now: real)
    | RenewOp(ps: Registry, lease: Lease, fold: Fold, ttl: int, mint: MintOutcome, revoke: RevokeOutcome, now: real)
    | ReleaseOp(ps: Registry, lease: Lease, revoke: RevokeOutcome)
    | SweepOp(ps: Registry, open: Ledger, keys: seq<string>, answers: string -> RevokeOutcome)

  /** The lease an acquire or a renewal hands out, whatever the broker holds. */
  function Issued(op: Operation): Option<Lease> {
    match op
    case AcquireOp(ps, provider, scope, fold, ttl, budget, mint, now) =>
      var r := Acquire(ps, START.broker, provider, scope, fold, ttl, budget, mint, now).1;
      if r.Ok? then Some(r.value) else None
    case RenewOp(ps, l, fold, ttl, mint, revoke, now) =>
      var r := Renew(ps, START.broker, l, fold, ttl, mint, revoke, now).1;
      if r.Ok? then Some(r.value) else None
    case _ => None
  }

  function ReleaseEvents(ps: Registry, l: Lease, revoke: RevokeOutcome): seq<Event> {
    if !l.stateful then [Forgotten(l)] else if l.provider !in ps then [] else RevokeEvents(l, revoke)
  }

  function SweepEvents(ps: Registry, open: Ledger, keys: seq<string>, answers: string -> RevokeOutcome): seq<Event> {
    if |keys| == 0 then []
    else
      (if keys[0] in open && open[keys[0]].provider in ps then ReleaseEvents(ps, open[keys[0]], answers(keys[0])) else [])
      + SweepEvents(ps, open, keys[1..], answers)
  }

  /** What follows the mint of a renewal: the old token is revoked, and its entry dropped. */
  function AfterRenewal(op: Operation): seq<Event>
    requires op.RenewOp?
  {
    if Issued(op).None? || op.lease.handle == op.mint.handle then []
    else if op.lease.stateful && op.lease.handle.Some? then RevokeEvents(op.lease, op.revoke) else [Forgotten(op.lease)]
  }

  predicate Mints(ps: Registry, provider: string, scope: string, fold: Fold) {
    provider in ps && ScopeAllowed(ps[provider], scope, fold)
  }

  /** The events of an operation, in its order. */
  function Program(op: Operation): seq<Event> {
    match op
    case AcquireOp(ps, provider, scope, fold, _, _, mint, _) =>
      if Mints(ps, provider, scope, fold) then MintEvents(ps[provider].stateful, provider, mint, Issued(op)) else []
    case RenewOp(ps, l, fold, ttl, mint, _, _) =>
      if l.budget.Spend(ttl).Some? && Mints(ps, l.provider, l.scope, fold)
      then MintEvents(ps[l.provider].stateful, l.provider, mint, Issued(op)) + AfterRenewal(op) else []
    case ReleaseOp(ps, l, revoke) => ReleaseEvents(ps, l, revoke)
    case SweepOp(ps, open, keys, answers) => SweepEvents(ps, open, keys, answers)
  }

  lemma {:induction false} PlayConcat(s: Flight, a: seq<Event>, b: seq<Event>)
    ensures Play(s, a + b) == Play(Play(s, a), b)
    decreases |a|
  {
    if |a| == 0 {
      assert a + b == b;
    } else {
      assert (a + b)[0] == a[0] && (a + b)[1..] == a[1..] + b;
      PlayConcat(Next(s, a[0]), a[1..], b);
    }
  }

  lemma PlayOne(s: Flight, e: Event)
    ensures Play(s, [e]) == Next(s, e) && Play(s, []) == s
  {
    assert [e][1..] == [];
  }

  lemma PlayMade(s: Flight, provider: string, handle: Option<string>)
    ensures Play(s, MadeEvents(provider, handle)).broker == s.broker.(live := Born(s.broker.live, provider, true, handle))
  {
    PlayOne(s, TokenMade((provider, if handle.Some? then handle.value else "")));
  }

  lemma PlayRaised(s: Flight, provider: string, hidden: Option<string>)
    ensures Play(s, RaisedEvents(provider, hidden)).broker == s.broker
  {
    PlayOne(s, MintRaised((provider, if hidden.Some? then hidden.value else "")));
  }

  lemma PlayMint(s: Flight, stateful: bool, provider: string, mint: MintOutcome, l: Option<Lease>)
    ensures Play(s, MintEvents(stateful, provider, mint, l)).broker ==
      Broker(if l.Some? then Record(s.broker.open, l.value) else s.broker.open,
             Made(s.broker.live, provider, stateful, mint))
  {
    hide Play, Next, Record;
    var named := if mint.Minted? then mint.handle else None;
    var makes := if stateful then MadeEvents(provider, mint.hidden) + MadeEvents(provider, named) else [];
    var answers := if l.Some? then [MintReturned(l.value)] else [];
    var raises := if stateful then RaisedEvents(provider, mint.hidden) else [];
    PlayConcat(s, makes + answers, raises);
    PlayConcat(s, makes, answers);
    PlayConcat(s, MadeEvents(provider, mint.hidden), MadeEvents(provider, named));
    PlayMade(s, provider, mint.hidden);
    PlayMade(Play(s, MadeEvents(provider, mint.hidden)), provider, named);
    var made := Play(s, makes);
    PlayOne(s, TokenDied(("", "")));
    PlayReturned(made, l);
    PlayRaised(Play(made, answers), provider, mint.hidden);
    PlayOne(Play(made, answers), TokenDied(("", "")));
  }

  lemma PlayReturned(s: Flight, l: Option<Lease>)
    ensures Play(s, if l.Some? then [MintReturned(l.value)] else []).broker
      == if l.Some? then s.broker.(open := Record(s.broker.open, l.value)) else s.broker
  {
    if l.Some? { PlayOne(s, MintReturned(l.value)); }
  }

  lemma PlayRevoke(s: Flight, l: Lease, revoke: RevokeOutcome)
    ensures Play(s, RevokeEvents(l, revoke)).broker ==
      Broker(if Gone(revoke) then s.broker.open - {Key(l)} else s.broker.open, Killed(s.broker.live, l, revoke))
  {
    hide Key;
    var dies := if Dies(revoke) && l.handle.Some? then [TokenDied((l.provider, l.handle.value))] else [];
    var drops := if Gone(revoke) then [Forgotten(l)] else [];
    PlayConcat(s, dies, drops);
    PlayOne(s, TokenDied((l.provider, if l.handle.Some? then l.handle.value else "")));
    PlayOne(Play(s, dies), Forgotten(l));
  }

  // ---- uninterrupted, the events of an operation are the operation --------------------------------

  lemma AcquireIsItsEvents(s: Flight, op: Operation)
    requires op.AcquireOp?
    ensures Play(s, Program(op)).broker
      == Acquire(op.ps, s.broker, op.provider, op.scope, op.fold, op.ttl, op.budget, op.mint, op.now).0
  {
    hide Play, MintEvents, Record, Made, ScopeAllowed;
    if Mints(op.ps, op.provider, op.scope, op.fold) {
      PlayMint(s, op.ps[op.provider].stateful, op.provider, op.mint, Issued(op));
    } else {
      PlayOne(s, TokenDied(("", "")));
    }
  }

  lemma RenewIsItsEvents(s: Flight, op: Operation)
    requires op.RenewOp?
    ensures Play(s, Program(op)).broker
      == Renew(op.ps, s.broker, op.lease, op.fold, op.ttl, op.mint, op.revoke, op.now).0
  {
    hide Play, MintEvents, RevokeEvents, Record, Made, Killed, Key, Gone, ScopeAllowed;
    var l := op.lease;
    PlayOne(s, TokenDied(("", "")));
    if l.budget.Spend(op.ttl).Some? && Mints(op.ps, l.provider, l.scope, op.fold) {
      var first := MintEvents(op.ps[l.provider].stateful, l.provider, op.mint, Issued(op));
      var minted := Play(s, first);
      PlayMint(s, op.ps[l.provider].stateful, l.provider, op.mint, Issued(op));
      PlayConcat(s, first, AfterRenewal(op));
      PlayOne(minted, Forgotten(l));
      PlayRevoke(minted, l, op.revoke);
    }
  }

  lemma ReleaseIsItsEvents(s: Flight, op: Operation)
    requires op.ReleaseOp?
    ensures Play(s, Program(op)).broker == Release(op.ps, s.broker, op.lease, op.revoke).0
  {
    hide Play, RevokeEvents, Killed, Key, Gone;
    PlayOne(s, Forgotten(op.lease));
    PlayRevoke(s, op.lease, op.revoke);
  }

  /** A sweep that is done with some keys. */
  ghost function Swept(ps: Registry, b: Broker, done: set<string>, answers: string -> RevokeOutcome): Broker {
    Broker(
      map k | k in b.open && (k !in done || Kept(ps, b.open[k], answers(k))) :: b.open[k],
      set t | t in b.live && !KilledBySweep(ps, b.open, done, answers, t))
  }

  lemma SweptOne(ps: Registry, b: Broker, done: set<string>, answers: string -> RevokeOutcome, k: string, s: Flight)
    requires WellKeyed(b.open) && k in b.open && s.broker == Swept(ps, b, done, answers)
    ensures Play(s, if b.open[k].provider in ps then ReleaseEvents(ps, b.open[k], answers(k)) else []).broker
      == Swept(ps, b, done + {k}, answers)
  {
    var l := b.open[k];
    SweepOneMore(ps, b.open, done, answers, k);
    PlayOne(s, TokenDied(("", "")));
    PlayRevoke(s, l, answers(k));
    hide Play, RevokeEvents, KilledBySweep;
    var next := Swept(ps, b, done + {k}, answers);
    assert Key(l) == k && l.stateful && l.handle.Some?;
    if l.provider in ps {
      var after := if Gone(answers(k)) then s.broker.open - {k} else s.broker.open;
      assert after == next.open;
      assert Killed(s.broker.live, l, answers(k)) == next.live;
    } else {
      assert s.broker.open == next.open;
      assert s.broker.live == next.live;
    }
  }

  lemma {:induction false} SweptAll(ps: Registry, b: Broker, done: set<string>, answers: string -> RevokeOutcome,
                                    keys: seq<string>, s: Flight)
    requires WellKeyed(b.open) && s.broker == Swept(ps, b, done, answers)
    requires forall i :: 0 <= i < |keys| ==> keys[i] in b.open
    ensures Play(s, SweepEvents(ps, b.open, keys, answers)).broker == Swept(ps, b, done + Elements(keys), answers)
    decreases |keys|
  {
    if |keys| == 0 {
      assert done + Elements(keys) == done;
    } else {
      var k := keys[0];
      var first := if b.open[k].provider in ps then ReleaseEvents(ps, b.open[k], answers(k)) else [];
      assert keys == [k] + keys[1..];
      assert done + Elements(keys) == done + {k} + Elements(keys[1..]);
      hide Swept, Play, ReleaseEvents, Elements;
      SweptOne(ps, b, done, answers, k, s);
      PlayConcat(s, first, SweepEvents(ps, b.open, keys[1..], answers));
      SweptAll(ps, b, done + {k}, answers, keys[1..], Play(s, first));
    }
  }

  lemma SweepIsItsEvents(s: Flight, op: Operation)
    requires op.SweepOp? && WellKeyed(s.broker.open) && op.open == s.broker.open && Elements(op.keys) == op.open.Keys
    ensures Play(s, Program(op)).broker == Sweep(op.ps, s.broker, op.answers)
  {
    var b := s.broker;
    assert forall i :: 0 <= i < |op.keys| ==> op.keys[i] in Elements(op.keys);
    SweepOfNothing(op.ps, b.open, op.answers);
    assert Swept(op.ps, b, {}, op.answers).open == b.open;
    assert Swept(op.ps, b, {}, op.answers).live == b.live;
    SweptAll(op.ps, b, {}, op.answers, op.keys, s);
    assert {} + Elements(op.keys) == b.open.Keys;
    assert Swept(op.ps, b, b.open.Keys, op.answers).open == Sweep(op.ps, b, op.answers).open;
  }

  // ---- in its own order, an operation forgets only what is dead --------------------------------

  /** The tokens that an event proves dead. */
  function Deaths(e: Event): set<Token> {
    if e.TokenDied? then {e.token} else {}
  }

  /** Each event of a program may happen, given only the deaths that the program itself has seen. */
  ghost predicate Ready(kind: string -> bool, gone: set<Token>, program: seq<Event>)
    decreases |program|
  {
    |program| == 0 || (MayHappen(kind, gone, program[0]) && Ready(kind, gone + Deaths(program[0]), program[1..]))
  }

  /** What else dies meanwhile does no harm. */
  lemma {:induction false} ReadyGrows(kind: string -> bool, gone: set<Token>, more: set<Token>, program: seq<Event>)
    requires Ready(kind, gone, program) && gone <= more
    ensures Ready(kind, more, program)
    decreases |program|
  {
    if |program| != 0 {
      ReadyGrows(kind, gone + Deaths(program[0]), more + Deaths(program[0]), program[1..]);
    }
  }

  lemma {:induction false} ReadyConcat(kind: string -> bool, gone: set<Token>, a: seq<Event>, b: seq<Event>)
    requires Ready(kind, gone, a) && Ready(kind, gone, b)
    ensures Ready(kind, gone, a + b)
    decreases |a|
  {
    if |a| == 0 {
      assert a + b == b;
    } else {
      assert (a + b)[0] == a[0] && (a + b)[1..] == a[1..] + b;
      ReadyGrows(kind, gone, gone + Deaths(a[0]), b);
      ReadyConcat(kind, gone + Deaths(a[0]), a[1..], b);
    }
  }

  lemma ReadyOne(kind: string -> bool, gone: set<Token>, e: Event)
    ensures Ready(kind, gone, [e]) <==> MayHappen(kind, gone, e)
    ensures Ready(kind, gone, [])
  {
    assert [e][1..] == [];
  }

  /** The assumptions on the providers of one operation, as for the operations one at a time. */
  ghost predicate HonestOp(kind: string -> bool, op: Operation) {
    match op
    case AcquireOp(ps, provider, _, _, _, _, mint, _) => Consistent(kind, ps) && HonestMint(kind, provider, mint)
    case RenewOp(ps, l, _, _, mint, revoke, _) =>
      Consistent(kind, ps) && FromBroker(kind, l) && HonestMint(kind, l.provider, mint) && HonestRevoke(revoke)
    case ReleaseOp(_, l, revoke) => FromBroker(kind, l) && HonestRevoke(revoke)
    case SweepOp(_, open, _, answers) => forall k :: k in open ==> FromBroker(kind, open[k]) && HonestRevoke(answers(k))
  }

  /** The lease of a mint, when there is one, has its provider and handle. */
  ghost predicate IssuedBy(kind: string -> bool, provider: string, mint: MintOutcome, l: Option<Lease>) {
    && (l.Some? <==> mint.Minted?)
    && (l.Some? ==> FromBroker(kind, l.value) && l.value.provider == provider && l.value.handle == mint.handle)
  }

  lemma MintIsReady(kind: string -> bool, provider: string, mint: MintOutcome, l: Option<Lease>)
    requires ColonFree(provider) && IssuedBy(kind, provider, mint, l)
    ensures Ready(kind, {}, MintEvents(kind(provider), provider, mint, l))
  {
    hide Ready;
    var named := if mint.Minted? then mint.handle else None;
    var makes := if kind(provider) then MadeEvents(provider, mint.hidden) + MadeEvents(provider, named) else [];
    var answers := if l.Some? then [MintReturned(l.value)] else [];
    var raises := if kind(provider) then RaisedEvents(provider, mint.hidden) else [];
    ReadyOne(kind, {}, TokenDied(("", "")));
    if mint.hidden.Some? {
      ReadyOne(kind, {}, TokenMade((provider, mint.hidden.value)));
      ReadyOne(kind, {}, MintRaised((provider, mint.hidden.value)));
    }
    if named.Some? { ReadyOne(kind, {}, TokenMade((provider, named.value))); }
    if l.Some? { ReadyOne(kind, {}, MintReturned(l.value)); }
    ReadyConcat(kind, {}, MadeEvents(provider, mint.hidden), MadeEvents(provider, named));
    ReadyConcat(kind, {}, makes, answers);
    ReadyConcat(kind, {}, makes + answers, raises);
  }

  lemma RevokeIsReady(kind: string -> bool, l: Lease, revoke: RevokeOutcome)
    requires FromBroker(kind, l) && HonestRevoke(revoke) && (l.stateful ==> l.handle.Some?)
    ensures Ready(kind, {}, RevokeEvents(l, revoke))
  {
    var drops := if Gone(revoke) then [Forgotten(l)] else [];
    if Dies(revoke) && l.handle.Some? {
      var died := TokenDied((l.provider, l.handle.value));
      assert ([died] + drops)[1..] == drops;
      ReadyOne(kind, Deaths(died), Forgotten(l));
      assert {} + Deaths(died) == Deaths(died);
    } else {
      ReadyOne(kind, {}, Forgotten(l));
    }
  }

  lemma ReleaseIsReady(kind: string -> bool, ps: Registry, l: Lease, revoke: RevokeOutcome)
    requires FromBroker(kind, l) && HonestRevoke(revoke)
    ensures Ready(kind, {}, ReleaseEvents(ps, l, revoke))
  {
    hide Ready;
    ReadyOne(kind, {}, Forgotten(l));
    if l.stateful { RevokeIsReady(kind, l, revoke); }
  }

  lemma {:induction false} SweepIsReady(kind: string -> bool, ps: Registry, open: Ledger, keys: seq<string>,
                                        answers: string -> RevokeOutcome)
    requires forall k :: k in open ==> FromBroker(kind, open[k]) && HonestRevoke(answers(k))
    ensures Ready(kind, {}, SweepEvents(ps, open, keys, answers))
    decreases |keys|
  {
    hide Ready, ReleaseEvents;
    ReadyOne(kind, {}, TokenDied(("", "")));
    if |keys| != 0 {
      SweepIsReady(kind, ps, open, keys[1..], answers);
      if keys[0] in open { ReleaseIsReady(kind, ps, open[keys[0]], answers(keys[0])); }
      ReadyConcat(kind, {},
                  if keys[0] in open && open[keys[0]].provider in ps then ReleaseEvents(ps, open[keys[0]], answers(keys[0])) else [],
                  SweepEvents(ps, open, keys[1..], answers));
    }
  }

  lemma MintOfOp(kind: string -> bool, op: Operation)
    requires HonestOp(kind, op)
    ensures op.AcquireOp? && Mints(op.ps, op.provider, op.scope, op.fold) ==> IssuedBy(kind, op.provider, op.mint, Issued(op))
    ensures op.RenewOp? && op.lease.budget.Spend(op.ttl).Some? && Mints(op.ps, op.lease.provider, op.lease.scope, op.fold) ==>
              IssuedBy(kind, op.lease.provider, op.mint, Issued(op))
  {
    hide ScopeAllowed;
  }

  lemma ProgramIsReady(kind: string -> bool, op: Operation)
    requires HonestOp(kind, op)
    ensures Ready(kind, {}, Program(op))
  {
    MintOfOp(kind, op);
    ReadyOne(kind, {}, TokenDied(("", "")));
    hide Ready, MintEvents, RevokeEvents, ReleaseEvents, SweepEvents, IssuedBy, Issued;
    match op
    case AcquireOp(ps, provider, scope, fold, _, _, mint, _) =>
      if Mints(ps, provider, scope, fold) { MintIsReady(kind, provider, mint, Issued(op)); }
    case RenewOp(ps, l, fold, ttl, mint, revoke, _) =>
      if l.budget.Spend(ttl).Some? && Mints(ps, l.provider, l.scope, fold) {
        MintIsReady(kind, l.provider, mint, Issued(op));
        RevokeIsReady(kind, l, revoke);
        ReadyOne(kind, {}, Forgotten(l));
        ReadyConcat(kind, {}, MintEvents(ps[l.provider].stateful, l.provider, mint, Issued(op)), AfterRenewal(op));
      }
    case ReleaseOp(ps, l, revoke) => ReleaseIsReady(kind, ps, l, revoke);
    case SweepOp(ps, open, keys, answers) => SweepIsReady(kind, ps, open, keys, answers);
  }

  // ---- each mint is answered ----------------------------------------------------------------------

  /** The tokens that an event takes out of flight. */
  function Answers(e: Event): set<Token> {
    match e
    case MintReturned(l) => TokensOf(l)
    case MintRaised(t) => {t}
    case _ => {}
  }

  /** The tokens that a program still has to answer for. */
  function Owed(program: seq<Event>): set<Token>
    decreases |program|
  {
    if |program| == 0 then {} else Answers(program[0]) + Owed(program[1..])
  }

  /** Each token that the program makes is answered for later in it. */
  predicate Answered(program: seq<Event>)
    decreases |program|
  {
    |program| == 0
    || ((program[0].TokenMade? ==> program[0].token in Owed(program[1..])) && Answered(program[1..]))
  }

  lemma {:induction false} OwedConcat(a: seq<Event>, b: seq<Event>)
    ensures Owed(a + b) == Owed(a) + Owed(b)
    ensures Answered(a) && Answered(b) ==> Answered(a + b)
    decreases |a|
  {
    if |a| == 0 {
      assert a + b == b;
    } else {
      assert (a + b)[0] == a[0] && (a + b)[1..] == a[1..] + b;
      OwedConcat(a[1..], b);
    }
  }

  predicate NoneMade(program: seq<Event>) {
    forall i :: 0 <= i < |program| ==> !program[i].TokenMade?
  }

  lemma {:induction false} NoneMadeIsAnswered(program: seq<Event>)
    requires NoneMade(program)
    ensures Answered(program)
    decreases |program|
  {
    if |program| != 0 {
      assert !program[0].TokenMade?;
      NoneMadeIsAnswered(program[1..]);
    }
  }

  lemma MadeIsAnswered(provider: string, handle: Option<string>, later: seq<Event>)
    requires Answered(later) && (handle.Some? ==> (provider, handle.value) in Owed(later))
    ensures Answered(MadeEvents(provider, handle) + later) && Owed(MadeEvents(provider, handle) + later) == Owed(later)
  {
    if handle.Some? {
      var made := TokenMade((provider, handle.value));
      assert ([made] + later)[0] == made && ([made] + later)[1..] == later;
    } else {
      assert [] + later == later;
    }
  }

  lemma AnswersOfMint(provider: string, mint: MintOutcome, l: Option<Lease>)
    ensures var program := (if l.Some? then [MintReturned(l.value)] else []) + RaisedEvents(provider, mint.hidden);
            && Answered(program)
            && (l.Some? ==> TokensOf(l.value) <= Owed(program))
            && (mint.hidden.Some? ==> (provider, mint.hidden.value) in Owed(program))
  {
    var returned := if l.Some? then [MintReturned(l.value)] else [];
    var raised := RaisedEvents(provider, mint.hidden);
    NoneMadeIsAnswered(returned + raised);
    OwedConcat(returned, raised);
    assert l.Some? ==> returned[0] == MintReturned(l.value);
    assert mint.hidden.Some? ==> raised[0] == MintRaised((provider, mint.hidden.value));
  }

  lemma MintIsAnswered(kind: string -> bool, provider: string, mint: MintOutcome, l: Option<Lease>)
    requires HonestMint(kind, provider, mint) && IssuedBy(kind, provider, mint, l)
    ensures Answered(MintEvents(kind(provider), provider, mint, l))
  {
    var named := if mint.Minted? then mint.handle else None;
    var returned := if l.Some? then [MintReturned(l.value)] else [];
    if kind(provider) {
      var raised := RaisedEvents(provider, mint.hidden);
      AnswersOfMint(provider, mint, l);
      hide Answered, Owed, MadeEvents, RaisedEvents;
      MadeIsAnswered(provider, named, returned + raised);
      MadeIsAnswered(provider, mint.hidden, MadeEvents(provider, named) + (returned + raised));
      assert MadeEvents(provider, mint.hidden) + (MadeEvents(provider, named) + (returned + raised))
        == MadeEvents(provider, mint.hidden) + MadeEvents(provider, named) + returned + raised;
    } else {
      assert [] + returned + [] == returned;
      NoneMadeIsAnswered(returned);
    }
  }

  lemma {:induction false} SweepMakesNone(ps: Registry, open: Ledger, keys: seq<string>, answers: string -> RevokeOutcome)
    ensures NoneMade(SweepEvents(ps, open, keys, answers))
    decreases |keys|
  {
    if |keys| != 0 { SweepMakesNone(ps, open, keys[1..], answers); }
  }

  lemma ProgramIsAnswered(kind: string -> bool, op: Operation)
    requires HonestOp(kind, op)
    ensures Answered(Program(op))
  {
    MintOfOp(kind, op);
    hide Mints;
    match op
    case AcquireOp(ps, provider, scope, fold, _, _, mint, _) =>
      hide Answered, MintEvents, IssuedBy, Issued;
      NoneMadeIsAnswered([]);
      if Mints(ps, provider, scope, fold) { MintIsAnswered(kind, provider, mint, Issued(op)); }
    case RenewOp(ps, l, fold, ttl, mint, revoke, _) =>
      NoneMadeIsAnswered(AfterRenewal(op));
      hide Answered, MintEvents, AfterRenewal, IssuedBy, Issued;
      NoneMadeIsAnswered([]);
      if l.budget.Spend(ttl).Some? && Mints(ps, l.provider, l.scope, fold) {
        MintIsAnswered(kind, l.provider, mint, Issued(op));
        OwedConcat(MintEvents(ps[l.provider].stateful, l.provider, mint, Issued(op)), AfterRenewal(op));
      }
    case ReleaseOp(ps, l, revoke) => NoneMadeIsAnswered(Program(op));
    case SweepOp(ps, open, keys, answers) =>
      SweepMakesNone(ps, open, keys, answers);
      NoneMadeIsAnswered(Program(op));
  }

  // ---- every shuffle of the operations ---------------------------------------------------------------

  predicate Active(programs: seq<seq<Event>>, i: nat) {
    i < |programs| && |programs[i]| > 0
  }

  /** The programs after the next event of the `i`-th one. */
  function Advance(programs: seq<seq<Event>>, i: nat): seq<seq<Event>>
    requires Active(programs, i)
  {
    programs[i := programs[i][1..]]
  }

  /** The events in the order of a schedule: which operation goes on next. Any shuffle is one, finished or not. */
  function Woven(programs: seq<seq<Event>>, schedule: seq<nat>): seq<Event>
    decreases |schedule|
  {
    if |schedule| == 0 then []
    else if Active(programs, schedule[0])
    then [programs[schedule[0]][0]] + Woven(Advance(programs, schedule[0]), schedule[1..])
    else Woven(programs, schedule[1..])
  }

  /** What the operations have still to do. */
  function Left(programs: seq<seq<Event>>, schedule: seq<nat>): (left: seq<seq<Event>>)
    ensures |left| == |programs|
    decreases |schedule|
  {
    if |schedule| == 0 then programs
    else if Active(programs, schedule[0]) then Left(Advance(programs, schedule[0]), schedule[1..])
    else Left(programs, schedule[1..])
  }

  /** No provider reissues the handle of a token that is dead by then. */
  predicate NeverReissued(s: Flight, events: seq<Event>)
    decreases |events|
  {
    |events| == 0 || (!Reissues(s, events[0]) && NeverReissued(Next(s, events[0]), events[1..]))
  }

  ghost predicate AllReady(kind: string -> bool, gone: set<Token>, programs: seq<seq<Event>>) {
    forall i :: 0 <= i < |programs| ==> Ready(kind, gone, programs[i])
  }

  lemma AdvanceIsReady(kind: string -> bool, s: Flight, programs: seq<seq<Event>>, i: nat)
    requires Active(programs, i) && AllReady(kind, s.gone, programs)
    ensures MayHappen(kind, s.gone, programs[i][0])
    ensures AllReady(kind, Next(s, programs[i][0]).gone, Advance(programs, i))
  {
    var e := programs[i][0];
    assert Next(s, e).gone == s.gone + Deaths(e);
    forall j | 0 <= j < |programs|
      ensures Ready(kind, s.gone + Deaths(e), Advance(programs, i)[j])
    {
      if j != i { ReadyGrows(kind, s.gone, s.gone + Deaths(e), programs[j]); }
    }
  }

  lemma Head(e: Event, later: seq<Event>)
    ensures ([e] + later)[0] == e && ([e] + later)[1..] == later
  {
  }

  /** In every shuffle each event is lawful: that the operations keep their own order is all it takes. */
  lemma {:induction false} WovenIsLawful(kind: string -> bool, s: Flight, programs: seq<seq<Event>>, schedule: seq<nat>)
    requires AllReady(kind, s.gone, programs) && NeverReissued(s, Woven(programs, schedule))
    ensures AllLawful(kind, s, Woven(programs, schedule))
    decreases |schedule|
  {
    hide Next, MayHappen, AllReady, Advance, Reissues;
    if |schedule| != 0 {
      var i := schedule[0];
      if Active(programs, i) {
        var e := programs[i][0];
        AdvanceIsReady(kind, s, programs, i);
        Head(e, Woven(Advance(programs, i), schedule[1..]));
        WovenIsLawful(kind, Next(s, e), Advance(programs, i), schedule[1..]);
      } else {
        WovenIsLawful(kind, s, programs, schedule[1..]);
      }
    }
  }

  /** A token in flight is one that some operation has still to answer for. */
  ghost predicate FlightsOwed(s: Flight, programs: seq<seq<Event>>) {
    && (forall i :: 0 <= i < |programs| ==> Answered(programs[i]))
    && (forall t :: t in s.flying ==> OwedBySome(programs, t))
  }

  ghost predicate OwedBySome(programs: seq<seq<Event>>, t: Token) {
    exists i :: 0 <= i < |programs| && t in Owed(programs[i])
  }

  lemma AdvanceOwes(s: Flight, programs: seq<seq<Event>>, i: nat)
    requires Active(programs, i) && FlightsOwed(s, programs)
    ensures FlightsOwed(Next(s, programs[i][0]), Advance(programs, i))
  {
    var e, rest := programs[i][0], programs[i][1..];
    var next, later := Next(s, e), Advance(programs, i);
    assert Answered(programs[i]) && later[i] == rest;
    forall t | t in next.flying
      ensures OwedBySome(later, t)
    {
      if e == TokenMade(t) {
        assert t in Owed(later[i]);
      } else {
        assert t in s.flying && t !in Answers(e);
        var j :| 0 <= j < |programs| && t in Owed(programs[j]);
        assert t in Owed(later[j]);
      }
    }
  }

  lemma {:induction false} WovenOwes(s: Flight, programs: seq<seq<Event>>, schedule: seq<nat>)
    requires FlightsOwed(s, programs)
    ensures FlightsOwed(Play(s, Woven(programs, schedule)), Left(programs, schedule))
    decreases |schedule|
  {
    hide Next, FlightsOwed, Advance;
    if |schedule| != 0 {
      var i := schedule[0];
      if Active(programs, i) {
        var e := programs[i][0];
        AdvanceOwes(s, programs, i);
        Head(e, Woven(Advance(programs, i), schedule[1..]));
        WovenOwes(Next(s, e), Advance(programs, i), schedule[1..]);
      } else {
        WovenOwes(s, programs, schedule[1..]);
      }
    }
  }

  /** A token is lost only where a program says so. */
  lemma {:induction false} LostIsRaised(s: Flight, programs: seq<seq<Event>>, schedule: seq<nat>, t: Token)
    requires t in Play(s, Woven(programs, schedule)).lost
    ensures t in s.lost || exists i :: 0 <= i < |programs| && MintRaised(t) in programs[i]
    decreases |schedule|
  {
    if |schedule| != 0 {
      var i := schedule[0];
      if Active(programs, i) {
        var e := programs[i][0];
        var later := Advance(programs, i);
        Head(e, Woven(later, schedule[1..]));
        LostIsRaised(Next(s, e), later, schedule[1..], t);
        if t in Next(s, e).lost {
          assert t in s.lost || e == MintRaised(t);
          assert e in programs[i];
        } else {
          var j :| 0 <= j < |later| && MintRaised(t) in later[j];
          assert MintRaised(t) in programs[j];
        }
      } else {
        LostIsRaised(s, programs, schedule[1..], t);
      }
    }
  }

  /** The token that the mint of an operation makes and does not name. */
  function Hidden(op: Operation): set<Token> {
    match op
    case AcquireOp(_, provider, _, _, _, _, mint, _) =>
      if mint.hidden.Some? then {(provider, mint.hidden.value)} else {}
    case RenewOp(_, l, _, _, mint, _, _) => if mint.hidden.Some? then {(l.provider, mint.hidden.value)} else {}
    case _ => {}
  }

  lemma {:induction false} SweepRaisesNone(ps: Registry, open: Ledger, keys: seq<string>, answers: string -> RevokeOutcome, t: Token)
    ensures MintRaised(t) !in SweepEvents(ps, open, keys, answers)
    decreases |keys|
  {
    if |keys| != 0 { SweepRaisesNone(ps, open, keys[1..], answers, t); }
  }

  lemma RaisedInMint(stateful: bool, provider: string, mint: MintOutcome, l: Option<Lease>, t: Token)
    requires MintRaised(t) in MintEvents(stateful, provider, mint, l)
    ensures mint.hidden.Some? && t == (provider, mint.hidden.value)
  {
  }

  lemma RaisedInRelease(ps: Registry, l: Lease, revoke: RevokeOutcome, t: Token)
    ensures MintRaised(t) !in ReleaseEvents(ps, l, revoke) && MintRaised(t) !in RevokeEvents(l, revoke)
  {
  }

  lemma RaisedIsHidden(op: Operation, t: Token)
    requires MintRaised(t) in Program(op)
    ensures t in Hidden(op)
  {
    hide Issued, MintEvents, ReleaseEvents, RevokeEvents, SweepEvents;
    match op
    case AcquireOp(ps, provider, _, _, _, _, mint, _) =>
      RaisedInMint(ps[provider].stateful, provider, mint, Issued(op), t);
    case RenewOp(ps, l, _, _, mint, revoke, _) =>
      RaisedInRelease(ps, l, revoke, t);
      RaisedInMint(ps[l.provider].stateful, l.provider, mint, Issued(op), t);
    case ReleaseOp(ps, l, revoke) => RaisedInRelease(ps, l, revoke, t);
    case SweepOp(ps, open, keys, answers) => SweepRaisesNone(ps, open, keys, answers, t);
  }

  function Programs(ops: seq<Operation>): (programs: seq<seq<Event>>)
    ensures |programs| == |ops| && forall i :: 0 <= i < |ops| ==> programs[i] == Program(ops[i])
  {
    seq(|ops|, i requires 0 <= i < |ops| => Program(ops[i]))
  }

  ghost predicate AllHonestOps(kind: string -> bool, ops: seq<Operation>) {
    forall i :: 0 <= i < |ops| ==> HonestOp(kind, ops[i])
  }

  lemma HonestAreReady(kind: string -> bool, ops: seq<Operation>)
    requires AllHonestOps(kind, ops)
    ensures AllReady(kind, {}, Programs(ops)) && FlightsOwed(START, Programs(ops))
  {
    hide HonestOp, Ready, Answered;
    forall i | 0 <= i < |ops|
      ensures Ready(kind, {}, Program(ops[i])) && Answered(Program(ops[i]))
    {
      ProgramIsReady(kind, ops[i]);
      ProgramIsAnswered(kind, ops[i]);
    }
  }

  /**
   * In every interleaving of any operations, finished or not, a stateful token that is live is in the ledger, or its mint is
   * in flight and some operation has still to answer for it, or the mint of some operation made it and did not name it. When
   * all operations are done, nothing is in flight.
   */
  lemma LiveTokensAreTracked(kind: string -> bool, ops: seq<Operation>, schedule: seq<nat>, t: Token)
    requires AllHonestOps(kind, ops) && NeverReissued(START, Woven(Programs(ops), schedule))
    requires t in Play(START, Woven(Programs(ops), schedule)).broker.live
    ensures var s, left := Play(START, Woven(Programs(ops), schedule)), Left(Programs(ops), schedule);
            || Holds(s.broker.open, t)
            || (t in s.flying && OwedBySome(left, t))
            || (exists i :: 0 <= i < |ops| && t in Hidden(ops[i]))
    ensures (forall i :: 0 <= i < |ops| ==> Left(Programs(ops), schedule)[i] == []) ==>
              Holds(Play(START, Woven(Programs(ops), schedule)).broker.open, t) || exists i :: 0 <= i < |ops| && t in Hidden(ops[i])
  {
    var events, left := Woven(Programs(ops), schedule), Left(Programs(ops), schedule);
    var s := Play(START, events);
    StartIsSound(kind);
    hide *;
    HonestAreReady(kind, ops);
    WovenIsLawful(kind, START, Programs(ops), schedule);
    PlayKeepsSound(kind, START, events);
    WovenOwes(START, Programs(ops), schedule);
    SoundAccounts(kind, s, t);
    if forall i :: 0 <= i < |left| ==> left[i] == [] { DoneOwesNothing(left, t); }
    if t in s.flying {
      FlyingIsOwed(s, left, t);
    } else if t in s.lost {
      LostIsRaised(START, Programs(ops), schedule, t);
      var i :| 0 <= i < |ops| && MintRaised(t) in Programs(ops)[i];
      RaisedIsHidden(ops[i], t);
    }
  }

  lemma StartIsSound(kind: string -> bool)
    ensures Sound(kind, START) && START.gone == {} && START.lost == {}
  {
  }

  lemma SoundAccounts(kind: string -> bool, s: Flight, t: Token)
    requires Sound(kind, s) && t in s.broker.live
    ensures Holds(s.broker.open, t) || t in s.flying || t in s.lost
  {
    hide Holds;
    assert t in Untracked(s.broker) ==> t in s.flying + s.lost;
  }

  lemma FlyingIsOwed(s: Flight, left: seq<seq<Event>>, t: Token)
    requires FlightsOwed(s, left) && t in s.flying
    ensures OwedBySome(left, t)
  {
    hide Answered, OwedBySome;
  }

  /** Operations that are done owe nothing. */
  lemma DoneOwesNothing(left: seq<seq<Event>>, t: Token)
    requires forall i :: 0 <= i < |left| ==> left[i] == []
    ensures !OwedBySome(left, t)
  {
  }

  /**
   * The condition on handles is needed: when a revoked handle is minted again before the release of the first lease gets
   * to forget it, the live token leaves the ledger.
   */
  lemma ReissuedHandleIsForgotten(l: Lease)
    requires l.stateful && l.handle.Some?
    ensures var t: Token := (l.provider, l.handle.value);
            var s := Play(START, [TokenMade(t), MintReturned(l), TokenDied(t), TokenMade(t), MintReturned(l), Forgotten(l)]);
            s.broker == Broker(map[], {t}) && t !in s.flying && t !in s.lost
  {
    var t: Token := (l.provider, l.handle.value);
    var first := [TokenMade(t), MintReturned(l), TokenDied(t)];
    var again := [TokenMade(t), MintReturned(l), Forgotten(l)];
    PlayConcat(START, first, again);
    assert first + again == [TokenMade(t), MintReturned(l), TokenDied(t), TokenMade(t), MintReturned(l), Forgotten(l)];
    PlayThree(START, TokenMade(t), MintReturned(l), TokenDied(t));
    PlayThree(Play(START, first), TokenMade(t), MintReturned(l), Forgotten(l));
    var open := map[Key(l) := l];
    assert open[Key(l) := l] == open && open - {Key(l)} == map[];
  }

  lemma PlayThree(s: Flight, a: Event, b: Event, c: Event)
    ensures Play(s, [a, b, c]) == Next(Next(Next(s, a), b), c)
  {
    assert [a, b, c] == [a] + ([b] + [c]);
    PlayConcat(s, [a], [b] + [c]);
    PlayConcat(Next(s, a), [b], [c]);
    PlayOne(s, a);
    PlayOne(Next(s, a), b);
    PlayOne(Next(Next(s, a), b), c);
  }
}
