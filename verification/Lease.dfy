/** The credential broker: a renewable budget, and a ledger that never loses a live token. */
module Lease {
  import opened Base
  import opened Text

  // ---- budget ------------------------------------------------------------------------

  datatype Budget = Budget(total: int, spent: int) {
    function Remaining(): int {
      if total - spent < 0 then 0 else total - spent
    }

    /** None is `BudgetExhausted`. */
    function Spend(seconds: int): Option<Budget> {
      if seconds > Remaining() then None else Some(Budget(total, spent + seconds))
    }
  }

  function Sum(xs: seq<int>): int {
    if |xs| == 0 then 0 else xs[0] + Sum(xs[1..])
  }

  /** The budget after a chain of renewals, or None when one of them was refused. */
  function SpendAll(b: Budget, ttls: seq<int>): Option<Budget>
    decreases |ttls|
  {
    if |ttls| == 0 then Some(b)
    else match b.Spend(ttls[0])
      case None => None
      case Some(b') => SpendAll(b', ttls[1..])
  }

  /** However a chain of renewals goes, the time it was granted never sums past the approved budget. */
  lemma {:induction false} ChainWithinBudget(b: Budget, ttls: seq<int>)
    requires SpendAll(b, ttls).Some?
    ensures SpendAll(b, ttls) == Some(Budget(b.total, b.spent + Sum(ttls)))
    ensures Sum(ttls) <= b.Remaining()
    decreases |ttls|
  {
    if |ttls| != 0 {
      ChainWithinBudget(b.Spend(ttls[0]).value, ttls[1..]);
    }
  }

  // ---- leases, providers, outcomes -----------------------------------------------------

  datatype Lease = Lease(
    provider: string, scope: string, budget: Budget, cred: Option<string>,
    expiresAt: real, handle: Option<string>, stateful: bool)
  {
    /** Budget kept, live credential dropped. */
    function ForCheckpoint(): Lease {
      this.(cred := None)
    }
  }

  datatype Provider = Provider(stateful: bool, memoryCloud: bool, writeApproved: bool)

  type Registry = map<string, Provider>

  /**
   * A mint that raised, or its answer. `hidden` is the handle of a token the provider made and the answer does not
   * name: the request went through and its reply was lost, or could not be read.
   */
  datatype MintOutcome =
    | MintFails(hidden: Option<string>)
    | Minted(cred: string, handle: Option<string>, hidden: Option<string>)

  /** A revoke that returned, or raised with the HTTP status it carried, if any. */
  datatype RevokeOutcome = Revoked | Raised(status: Option<int>, died: bool)

  /** The split the ledger rests on: only 404 and 410 prove the handle is gone. */
  predicate IsPermanent(status: Option<int>) {
    status == Some(404) || status == Some(410)
  }

  predicate Gone(r: RevokeOutcome) {
    r.Revoked? || IsPermanent(r.status)
  }

  predicate Dies(r: RevokeOutcome) {
    r.Revoked? || r.died
  }

  datatype LeaseError = BudgetExhausted | UnknownProvider | WriteLocked | MintError | RevokeTransient

  /** `str.casefold`. */
  type Fold = string -> string

  /** The decision is on the scope stripped and case-folded. */
  predicate RequiresWriteApproval(scope: string, fold: Fold) {
    var normalized := fold(Strip(scope));
    normalized != "memory:read" && |normalized| >= 7 && normalized[..7] == "memory:"
  }

  predicate ScopeAllowed(p: Provider, scope: string, fold: Fold) {
    RequiresWriteApproval(scope, fold) ==> p.memoryCloud && p.writeApproved
  }

  function HandleText(h: Option<string>): string {
    match h case None => "None" case Some(s) => s
  }

  function KeyText(provider: string, handle: string): string {
    provider + ":" + handle
  }

  function Key(l: Lease): string {
    KeyText(l.provider, HandleText(l.handle))
  }

  type Ledger = map<string, Lease>

  /** A stateful token, by provider and handle. */
  type Token = (string, string)

  function Record(open: Ledger, l: Lease): Ledger {
    if l.stateful && l.handle.Some? then open[Key(l) := l] else open
  }

  /** The ledger, and the stateful tokens that are really live at the providers. */
  datatype Broker = Broker(open: Ledger, live: set<Token>)

  function Killed(live: set<Token>, l: Lease, r: RevokeOutcome): set<Token> {
    if Dies(r) && l.handle.Some? then live - {(l.provider, l.handle.value)} else live
  }

  function Born(live: set<Token>, provider: string, stateful: bool, handle: Option<string>): set<Token> {
    if stateful && handle.Some? then live + {(provider, handle.value)} else live
  }

  /** The tokens that are live after a mint: the one it names, and the one it hides. */
  function Made(live: set<Token>, provider: string, stateful: bool, mint: MintOutcome): set<Token> {
    Born(Born(live, provider, stateful, mint.hidden), provider, stateful, if mint.Minted? then mint.handle else None)
  }

  // ---- the operations, on values ---------------------------------------------------------

  function Mint(ps: Registry, b: Broker, provider: string, scope: string, fold: Fold, mint: MintOutcome): Result<(), LeaseError> {
    if provider !in ps then Err(UnknownProvider)
    else if !ScopeAllowed(ps[provider], scope, fold) then Err(WriteLocked)
    else if mint.MintFails? then Err(MintError)
    else Ok(())
  }

  /** A refused mint changes nothing; one that raised may have made a token. */
  function Unminted(ps: Registry, b: Broker, provider: string, mint: MintOutcome, e: LeaseError): Broker {
    if e.MintError? && provider in ps then Broker(b.open, Made(b.live, provider, ps[provider].stateful, mint)) else b
  }

  function Acquire(ps: Registry, b: Broker, provider: string, scope: string, fold: Fold, ttl: int,
                   budget: Budget, mint: MintOutcome, now: real): (Broker, Result<Lease, LeaseError>)
  {
    match Mint(ps, b, provider, scope, fold, mint)
    case Err(e) => (Unminted(ps, b, provider, mint, e), Err(e))
    case Ok(_) =>
      var l := Lease(provider, scope, budget, Some(mint.cred), now + ttl as real, mint.handle, ps[provider].stateful);
      (Broker(Record(b.open, l), Made(b.live, provider, l.stateful, mint)), Ok(l))
  }

  function Renew(ps: Registry, b: Broker, l: Lease, fold: Fold, ttl: int,
                 mint: MintOutcome, revoke: RevokeOutcome, now: real): (Broker, Result<Lease, LeaseError>)
  {
    match l.budget.Spend(ttl)
    case None => (b, Err(BudgetExhausted))
    case Some(budget) =>
      match Mint(ps, b, l.provider, l.scope, fold, mint)
      case Err(e) => (Unminted(ps, b, l.provider, mint, e), Err(e))
      case Ok(_) =>
        var renewed := l.(budget := budget, cred := Some(mint.cred), expiresAt := now + ttl as real, handle := mint.handle);
        var open, live := Record(b.open, renewed), Made(b.live, l.provider, ps[l.provider].stateful, mint);
        if l.handle == mint.handle then (Broker(open, live), Ok(renewed))
        else if l.stateful && l.handle.Some? then
          (Broker(if Gone(revoke) then open - {Key(l)} else open, Killed(live, l, revoke)), Ok(renewed))
        else (Broker(open - {Key(l)}, live), Ok(renewed))
  }

  function Release(ps: Registry, b: Broker, l: Lease, revoke: RevokeOutcome): (Broker, Result<(), LeaseError>) {
    if l.stateful then
      if l.provider !in ps then (b, Err(UnknownProvider))
      else
        var live := Killed(b.live, l, revoke);
        if Gone(revoke) then (Broker(b.open - {Key(l)}, live), Ok(())) else (Broker(b.open, live), Err(RevokeTransient))
    else (Broker(b.open - {Key(l)}, b.live), Ok(()))
  }

  /** The leases a sweep leaves: provider gone from the registry, or a revoke that proves nothing. */
  predicate Kept(ps: Registry, l: Lease, revoke: RevokeOutcome) {
    l.provider !in ps || !Gone(revoke)
  }

  /** Some lease among `ks` held this token, and its revoke killed it. */
  predicate KilledBySweep(ps: Registry, open: Ledger, ks: set<string>, revoke: string -> RevokeOutcome, t: Token) {
    exists k | k in ks && k in open :: KillsToken(ps, open[k], revoke(k), t)
  }

  predicate KillsToken(ps: Registry, l: Lease, r: RevokeOutcome, t: Token) {
    l.provider == t.0 && l.handle == Some(t.1) && t.0 in ps && Dies(r)
  }

  /** `revoke` gives the provider's answer for each ledger entry. */
  function Sweep(ps: Registry, b: Broker, revoke: string -> RevokeOutcome): Broker {
    Broker(
      map k | k in b.open && Kept(ps, b.open[k], revoke(k)) :: b.open[k],
      set t | t in b.live && !KilledBySweep(ps, b.open, b.open.Keys, revoke, t))
  }

  // ---- the classes --------------------------------------------------------------------------

  class LeaseLedger {
    var open: Ledger

    constructor ()
      ensures open == map[]
    {
      open := map[];
    }

    method RecordLease(l: Lease)
      modifies this
      ensures open == Record(old(open), l)
    {
      if l.stateful && l.handle.Some? {
        open := open[Key(l) := l];
      }
    }

    method Forget(l: Lease)
      modifies this
      ensures open == old(open) - {Key(l)}
    {
      open := open - {Key(l)};
    }
  }

  /** `live` is ghost: what the providers hold, which the broker cannot see. */
  class CredentialBroker {
    const providers: Registry
    const ledger: LeaseLedger
    ghost var live: set<Token>

    ghost function State(): Broker
      reads this, ledger
    {
      Broker(ledger.open, live)
    }

    constructor (providers: Registry, ledger: LeaseLedger, ghost live: set<Token>)
      ensures this.providers == providers && this.ledger == ledger && this.live == live
    {
      this.providers, this.ledger, this.live := providers, ledger, live;
    }

    method AcquireLease(provider: string, scope: string, fold: Fold, ttl: int, budget: Budget,
                        mint: MintOutcome, now: real) returns (r: Result<Lease, LeaseError>)
      modifies this`live, ledger
      ensures (State(), r) == Acquire(providers, old(State()), provider, scope, fold, ttl, budget, mint, now)
    {
      if provider !in providers { return Err(UnknownProvider); }
      var p := providers[provider];
      if !ScopeAllowed(p, scope, fold) { return Err(WriteLocked); }
      live := Made(live, provider, p.stateful, mint);
      if mint.MintFails? { return Err(MintError); }
      var l := Lease(provider, scope, budget, Some(mint.cred), now + ttl as real, mint.handle, p.stateful);
      ledger.RecordLease(l);
      r := Ok(l);
    }

    /** Mint first, record the new token, and only then touch the old one. */
    method RenewLease(l: Lease, fold: Fold, ttl: int, mint: MintOutcome, revoke: RevokeOutcome, now: real)
      returns (r: Result<Lease, LeaseError>)
      modifies this`live, ledger
      ensures (State(), r) == Renew(providers, old(State()), l, fold, ttl, mint, revoke, now)
    {
      var budget := l.budget.Spend(ttl);
      if budget.None? { return Err(BudgetExhausted); }
      if l.provider !in providers { return Err(UnknownProvider); }
      var p := providers[l.provider];
      if !ScopeAllowed(p, l.scope, fold) { return Err(WriteLocked); }
      live := Made(live, l.provider, p.stateful, mint);
      if mint.MintFails? { return Err(MintError); }
      var renewed := l.(budget := budget.value, cred := Some(mint.cred), expiresAt := now + ttl as real, handle := mint.handle);
      ledger.RecordLease(renewed);
      if l.handle == mint.handle { return Ok(renewed); }
      if l.stateful && l.handle.Some? {
        live := Killed(live, l, revoke);
        if !Gone(revoke) { return Ok(renewed); }
      }
      ledger.Forget(l);
      r := Ok(renewed);
    }

    method ReleaseLease(l: Lease, revoke: RevokeOutcome) returns (r: Result<(), LeaseError>)
      modifies this`live, ledger
      ensures (State(), r) == Release(providers, old(State()), l, revoke)
    {
      if l.stateful {
        if l.provider !in providers { return Err(UnknownProvider); }
        live := Killed(live, l, revoke);
        if !Gone(revoke) { return Err(RevokeTransient); }
      }
      ledger.Forget(l);
      r := Ok(());
    }

    /** One failing revoke never stops the sweep; the loop visits a copy of the ledger in any order. */
    method SweepAll(revoke: string -> RevokeOutcome)
      requires WellKeyed(ledger.open)
      modifies this`live, ledger
      ensures State() == Sweep(providers, old(State()), revoke)
    {
      hide KilledBySweep;
      ghost var b := State();
      var open := ledger.open;
      var todo := open.Keys;
      ghost var done: set<string> := {};
      SweepOfNothing(providers, open, revoke);
      while todo != {}
        invariant todo <= open.Keys && open == b.open && done == open.Keys - todo
        invariant forall k :: k in open ==>
          (k in ledger.open <==> k in todo || Kept(providers, open[k], revoke(k)))
        invariant forall k :: k in ledger.open ==> k in open && ledger.open[k] == open[k]
        invariant forall t :: t in live <==> t in b.live && !KilledBySweep(providers, open, done, revoke, t)
      {
        var k :| k in todo;
        var l := open[k];
        if l.provider in providers {
          var _ := ReleaseLease(l, revoke(k));
        }
        SweepOneMore(providers, open, done, revoke, k);
        todo, done := todo - {k}, done + {k};
      }
      assert done == open.Keys;
    }
  }

  lemma SweepOfNothing(ps: Registry, open: Ledger, revoke: string -> RevokeOutcome)
    ensures forall t :: !KilledBySweep(ps, open, {}, revoke, t)
  {
  }

  lemma SweepOneMore(ps: Registry, open: Ledger, done: set<string>, revoke: string -> RevokeOutcome, k: string)
    requires k in open
    ensures forall t :: (KilledBySweep(ps, open, done + {k}, revoke, t) <==>
                         KilledBySweep(ps, open, done, revoke, t) || KillsToken(ps, open[k], revoke(k), t))
  {
    forall t
      ensures KilledBySweep(ps, open, done + {k}, revoke, t) <==>
              KilledBySweep(ps, open, done, revoke, t) || KillsToken(ps, open[k], revoke(k), t)
    {
      if KillsToken(ps, open[k], revoke(k), t) { assert k in done + {k}; }
    }
  }

  // ---- the invariant ---------------------------------------------------------------------------

  /** Every ledger entry is stored under its own key, and is a stateful lease with a handle. */
  ghost predicate WellKeyed(open: Ledger) {
    forall k :: k in open ==> Key(open[k]) == k && open[k].stateful && open[k].handle.Some?
  }

  /** What the registry allows in a provider name leaves no colon in it. */
  predicate ColonFree(s: string) {
    ':' !in s
  }

  function FirstColon(s: string): nat {
    if s == "" || s[0] == ':' then 0 else 1 + FirstColon(s[1..])
  }

  lemma {:induction false} ProviderEndsAtColon(p: string, h: string)
    requires ColonFree(p)
    ensures FirstColon(KeyText(p, h)) == |p|
  {
    if p != "" {
      assert p[0] in p && KeyText(p, h)[1..] == KeyText(p[1..], h);
      ProviderEndsAtColon(p[1..], h);
    }
  }

  /** With colon-free provider names, a ledger key says which token it is. */
  lemma KeysAreDistinct(p1: string, h1: string, p2: string, h2: string)
    requires ColonFree(p1) && ColonFree(p2)
    ensures KeyText(p1, h1) == KeyText(p2, h2) <==> p1 == p2 && h1 == h2
  {
    ProviderEndsAtColon(p1, h1);
    ProviderEndsAtColon(p2, h2);
    assert KeyText(p1, h1)[..|p1|] == p1 && KeyText(p1, h1)[|p1| + 1..] == h1;
    assert KeyText(p2, h2)[..|p2|] == p2 && KeyText(p2, h2)[|p2| + 1..] == h2;
  }

  /** The leases this broker hands out: `kind` says which providers are stateful. */
  ghost predicate FromBroker(kind: string -> bool, l: Lease) {
    ColonFree(l.provider) && l.stateful == kind(l.provider) && (l.stateful ==> l.handle.Some?)
  }

  ghost predicate Consistent(kind: string -> bool, ps: Registry) {
    forall name :: name in ps ==> ColonFree(name) && ps[name].stateful == kind(name)
  }

  /** The ledger has the token's entry. */
  predicate Holds(open: Ledger, t: Token) {
    var k := KeyText(t.0, t.1);
    k in open && open[k].provider == t.0 && open[k].handle == Some(t.1)
  }

  /** The stateful tokens that are live at a provider and not in `open_leases()`. */
  function Untracked(b: Broker): set<Token> {
    set t | t in b.live && !Holds(b.open, t)
  }

  /** The ledger is in order, and of the live tokens it lacks at most the `lost` ones. */
  ghost predicate Inv(kind: string -> bool, b: Broker, lost: set<Token>) {
    && WellKeyed(b.open) && Untracked(b) <= lost
    && (forall k :: k in b.open ==> FromBroker(kind, b.open[k]))
    && (forall t :: t in b.live ==> ColonFree(t.0))
  }

  /** The provider assumptions: a stateful mint that returns names a handle, and a gone handle is dead. */
  ghost predicate HonestMint(kind: string -> bool, provider: string, mint: MintOutcome) {
    mint.Minted? && kind(provider) ==> mint.handle.Some?
  }

  ghost predicate HonestRevoke(r: RevokeOutcome) {
    Gone(r) ==> Dies(r)
  }

  /** The token that a mint, if the guards let it happen, makes and does not name. */
  function Lost(ps: Registry, provider: string, scope: string, fold: Fold, mint: MintOutcome): set<Token> {
    if provider in ps && ScopeAllowed(ps[provider], scope, fold) && ps[provider].stateful && mint.hidden.Some?
    then {(provider, mint.hidden.value)} else {}
  }

  lemma RecordKeepsInv(kind: string -> bool, b: Broker, lost: set<Token>, l: Lease, mint: MintOutcome)
    requires Inv(kind, b, lost) && FromBroker(kind, l) && mint.Minted? && mint.handle == l.handle
    ensures var hidden := if l.stateful && mint.hidden.Some? then {(l.provider, mint.hidden.value)} else {};
            Inv(kind, Broker(Record(b.open, l), Made(b.live, l.provider, l.stateful, mint)), lost + hidden)
  {
    if l.stateful {
      var b' := Broker(Record(b.open, l), Made(b.live, l.provider, l.stateful, mint));
      forall t | t in b'.live && t in b.live
        ensures Holds(b.open, t) ==> Holds(b'.open, t)
      {
        KeysAreDistinct(t.0, t.1, l.provider, l.handle.value);
      }
    }
  }

  /** Dropping an entry is safe when the token it stands for is dead. */
  lemma ForgetKeepsInv(kind: string -> bool, b: Broker, lost: set<Token>, l: Lease, live: set<Token>)
    requires Inv(kind, b, lost) && FromBroker(kind, l) && live <= b.live
    requires l.stateful ==> (l.provider, l.handle.value) !in live
    ensures Inv(kind, Broker(b.open - {Key(l)}, live), lost)
  {
    var b' := Broker(b.open - {Key(l)}, live);
    forall t | t in live && Holds(b.open, t)
      ensures KeyText(t.0, t.1) != Key(l)
    {
      assert FromBroker(kind, b.open[KeyText(t.0, t.1)]);
      KeysAreDistinct(t.0, t.1, l.provider, HandleText(l.handle));
    }
  }

  lemma AcquireKeepsInv(kind: string -> bool, ps: Registry, b: Broker, lost: set<Token>, provider: string, scope: string,
                        fold: Fold, ttl: int, budget: Budget, mint: MintOutcome, now: real)
    requires Inv(kind, b, lost) && Consistent(kind, ps) && HonestMint(kind, provider, mint)
    ensures var (b', r) := Acquire(ps, b, provider, scope, fold, ttl, budget, mint, now);
            && Inv(kind, b', lost + Lost(ps, provider, scope, fold, mint))
            && (if r.Ok? then FromBroker(kind, r.value) else b'.open == b.open && (mint.hidden.None? ==> b' == b))
  {
    hide ScopeAllowed;
    var (b', r) := Acquire(ps, b, provider, scope, fold, ttl, budget, mint, now);
    if r.Ok? {
      RecordKeepsInv(kind, b, lost, r.value, mint);
    }
  }

  lemma RenewKeepsInv(kind: string -> bool, ps: Registry, b: Broker, lost: set<Token>, l: Lease, fold: Fold, ttl: int,
                      mint: MintOutcome, revoke: RevokeOutcome, now: real)
    requires Inv(kind, b, lost) && Consistent(kind, ps) && FromBroker(kind, l)
    requires HonestMint(kind, l.provider, mint) && HonestRevoke(revoke)
    ensures var (b', r) := Renew(ps, b, l, fold, ttl, mint, revoke, now);
            && Inv(kind, b', lost + Lost(ps, l.provider, l.scope, fold, mint))
            && (if r.Ok? then FromBroker(kind, r.value) && l.budget.Spend(ttl) == Some(r.value.budget)
                else b'.open == b.open && (mint.hidden.None? ==> b' == b))
  {
    hide ScopeAllowed, Inv, Record, Made, Key, Killed, FromBroker;
    var (b', r) := Renew(ps, b, l, fold, ttl, mint, revoke, now);
    if r.Ok? {
      assert ps[l.provider].stateful == l.stateful by { KindAgrees(kind, ps, l); }
      RenewedKeepsInv(kind, b, lost, l, r.value, mint, revoke);
    } else {
      UnmintedKeepsInv(kind, ps, b, lost, l.provider, l.scope, fold, mint);
    }
  }

  lemma KindAgrees(kind: string -> bool, ps: Registry, l: Lease)
    requires Consistent(kind, ps) && FromBroker(kind, l) && l.provider in ps
    ensures ps[l.provider].stateful == l.stateful
  {
  }

  lemma UnmintedKeepsInv(kind: string -> bool, ps: Registry, b: Broker, lost: set<Token>, provider: string, scope: string,
                         fold: Fold, mint: MintOutcome)
    requires Inv(kind, b, lost) && Consistent(kind, ps)
    ensures Inv(kind, b, lost + Lost(ps, provider, scope, fold, mint))
    ensures var r := Mint(ps, b, provider, scope, fold, mint);
            r.Err? ==>
              Inv(kind, Unminted(ps, b, provider, mint, r.error), lost + Lost(ps, provider, scope, fold, mint))
              && (mint.hidden.None? ==> Unminted(ps, b, provider, mint, r.error) == b)
  {
    hide ScopeAllowed;
  }

  /** What a renewal does to the ledger and the tokens once the mint has answered. */
  lemma RenewedKeepsInv(kind: string -> bool, b: Broker, lost: set<Token>, l: Lease, renewed: Lease, mint: MintOutcome,
                        revoke: RevokeOutcome)
    requires Inv(kind, b, lost) && FromBroker(kind, l) && HonestRevoke(revoke) && HonestMint(kind, l.provider, mint)
    requires mint.Minted? && renewed.provider == l.provider && renewed.stateful == l.stateful && renewed.handle == mint.handle
    ensures FromBroker(kind, renewed)
    ensures var hidden := if l.stateful && mint.hidden.Some? then {(l.provider, mint.hidden.value)} else {};
            var open, live := Record(b.open, renewed), Made(b.live, l.provider, l.stateful, mint);
            Inv(kind,
                if l.handle == mint.handle then Broker(open, live)
                else if l.stateful && l.handle.Some? then
                  Broker(if Gone(revoke) then open - {Key(l)} else open, Killed(live, l, revoke))
                else Broker(open - {Key(l)}, live),
                lost + hidden)
  {
    var hidden := if l.stateful && mint.hidden.Some? then {(l.provider, mint.hidden.value)} else {};
    RecordKeepsInv(kind, b, lost, renewed, mint);
    var recorded := Broker(Record(b.open, renewed), Made(b.live, l.provider, l.stateful, mint));
    hide Record, Made, Key;
    if l.handle != mint.handle {
      if l.stateful {
        if Gone(revoke) { ForgetKeepsInv(kind, recorded, lost + hidden, l, Killed(recorded.live, l, revoke)); }
      } else {
        ForgetKeepsInv(kind, recorded, lost + hidden, l, recorded.live);
      }
    }
  }

  /** The token a mint hides is new: neither the ledger nor the lease nor the answer has its handle. */
  ghost predicate Unseen(b: Broker, provider: string, mint: MintOutcome) {
    mint.hidden.Some? ==> !Holds(b.open, (provider, mint.hidden.value)) && (mint.Minted? ==> mint.handle != mint.hidden)
  }

  /**
   * From a ledger that lacks no live token, an acquire leaves one untracked if and only if its mint made a token it does
   * not name, and then exactly that one.
   */
  lemma AcquireTracksExactly(kind: string -> bool, ps: Registry, b: Broker, provider: string, scope: string,
                             fold: Fold, ttl: int, budget: Budget, mint: MintOutcome, now: real)
    requires Inv(kind, b, {}) && Consistent(kind, ps) && HonestMint(kind, provider, mint) && Unseen(b, provider, mint)
    ensures var b' := Acquire(ps, b, provider, scope, fold, ttl, budget, mint, now).0;
            Untracked(b') == Lost(ps, provider, scope, fold, mint)
  {
    hide ScopeAllowed;
    var (b', r) := Acquire(ps, b, provider, scope, fold, ttl, budget, mint, now);
    AcquireKeepsInv(kind, ps, b, {}, provider, scope, fold, ttl, budget, mint, now);
    if mint.hidden.Some? && r.Ok? && r.value.stateful {
      KeysAreDistinct(provider, mint.hidden.value, provider, mint.handle.value);
    }
  }

  /** The same for a renewal, unless the budget refused it. */
  lemma RenewTracksExactly(kind: string -> bool, ps: Registry, b: Broker, l: Lease, fold: Fold, ttl: int,
                           mint: MintOutcome, revoke: RevokeOutcome, now: real)
    requires Inv(kind, b, {}) && Consistent(kind, ps) && FromBroker(kind, l)
    requires HonestMint(kind, l.provider, mint) && HonestRevoke(revoke)
    requires Unseen(b, l.provider, mint) && (mint.hidden.Some? ==> mint.hidden != l.handle)
    ensures var b' := Renew(ps, b, l, fold, ttl, mint, revoke, now).0;
            Untracked(b') == if l.budget.Spend(ttl).Some? then Lost(ps, l.provider, l.scope, fold, mint) else {}
  {
    hide ScopeAllowed;
    var (b', r) := Renew(ps, b, l, fold, ttl, mint, revoke, now);
    RenewKeepsInv(kind, ps, b, {}, l, fold, ttl, mint, revoke, now);
    if mint.hidden.Some? && r.Ok? && l.stateful {
      KeysAreDistinct(l.provider, mint.hidden.value, l.provider, mint.handle.value);
    }
  }

  /**
   * A mint whose reply is lost after the provider made the token, for any scope that is not the memory's: the token is live,
   * and no sweep will ever reach it.
   */
  lemma UnreadReplyLeaks(provider: string, handle: string, scope: string, fold: Fold, ttl: int, budget: Budget, now: real,
                         revoke: string -> RevokeOutcome)
    requires !("memory:" <= fold(Strip(scope)))
    ensures var ps := map[provider := Provider(true, false, false)];
            var b' := Acquire(ps, Broker(map[], {}), provider, scope, fold, ttl, budget, MintFails(Some(handle)), now).0;
            b' == Broker(map[], {(provider, handle)}) && Sweep(ps, b', revoke) == b'
  {
    assert !RequiresWriteApproval(scope, fold);
  }

  lemma ReleaseKeepsInv(kind: string -> bool, ps: Registry, b: Broker, lost: set<Token>, l: Lease, revoke: RevokeOutcome)
    requires Inv(kind, b, lost) && FromBroker(kind, l) && HonestRevoke(revoke)
    ensures Inv(kind, Release(ps, b, l, revoke).0, lost)
    ensures l.stateful && Release(ps, b, l, revoke).1.Ok? ==> (l.provider, l.handle.value) !in Release(ps, b, l, revoke).0.live
  {
    if !l.stateful {
      ForgetKeepsInv(kind, b, lost, l, b.live);
    } else if l.provider in ps && Gone(revoke) {
      ForgetKeepsInv(kind, b, lost, l, Killed(b.live, l, revoke));
    }
  }

  lemma SweepKeepsInv(kind: string -> bool, ps: Registry, b: Broker, lost: set<Token>, revoke: string -> RevokeOutcome)
    requires Inv(kind, b, lost) && forall k :: k in b.open ==> HonestRevoke(revoke(k))
    ensures Inv(kind, Sweep(ps, b, revoke), lost)
  {
    var b' := Sweep(ps, b, revoke);
    forall t | t in b'.live && Holds(b.open, t)
      ensures Holds(b'.open, t)
    {
      var k := KeyText(t.0, t.1);
      assert !(b.open[k].provider == t.0 && b.open[k].handle == Some(t.1) && t.0 in ps && Dies(revoke(k)));
    }
  }

  // ---- every run ----------------------------------------------------------------------------------

  /** The broker and every lease it has handed out, including the checkpoint copies. */
  datatype World = World(broker: Broker, issued: seq<Lease>)

  /** Each step names the registry of its process: providers may come and go across restarts. */
  datatype Action =
    | DoAcquire(ps: Registry, provider: string, scope: string, fold: Fold, ttl: int, budget: Budget,
                mint: MintOutcome, now: real)
    | DoRenew(ps: Registry, lease: nat, fold: Fold, ttl: int, mint: MintOutcome, revoke: RevokeOutcome, now: real)
    | DoRelease(ps: Registry, lease: nat, revoke: RevokeOutcome)
    | DoSweep(ps: Registry, answers: string -> RevokeOutcome)
    | DoCheckpoint(lease: nat)

  function Issue(w: World, next: (Broker, Result<Lease, LeaseError>)): World {
    World(next.0, if next.1.Ok? then w.issued + [next.1.value] else w.issued)
  }

  function Step(w: World, a: Action): World {
    match a
    case DoAcquire(ps, provider, scope, fold, ttl, budget, mint, now) =>
      Issue(w, Acquire(ps, w.broker, provider, scope, fold, ttl, budget, mint, now))
    case DoRenew(ps, i, fold, ttl, mint, revoke, now) =>
      if i < |w.issued| then Issue(w, Renew(ps, w.broker, w.issued[i], fold, ttl, mint, revoke, now)) else w
    case DoRelease(ps, i, revoke) =>
      if i < |w.issued| then w.(broker := Release(ps, w.broker, w.issued[i], revoke).0) else w
    case DoSweep(ps, answers) => w.(broker := Sweep(ps, w.broker, answers))
    case DoCheckpoint(i) =>
      if i < |w.issued| then w.(issued := w.issued + [w.issued[i].ForCheckpoint()]) else w
  }

  ghost predicate Honest(kind: string -> bool, w: World, a: Action) {
    match a
    case DoAcquire(ps, provider, _, _, _, _, mint, _) => Consistent(kind, ps) && HonestMint(kind, provider, mint)
    case DoRenew(ps, i, _, _, mint, revoke, _) =>
      Consistent(kind, ps) && HonestRevoke(revoke) && (i < |w.issued| ==> HonestMint(kind, w.issued[i].provider, mint))
    case DoRelease(ps, _, revoke) => HonestRevoke(revoke)
    case DoSweep(ps, answers) => forall k :: k in w.broker.open ==> HonestRevoke(answers(k))
    case DoCheckpoint(_) => true
  }

  ghost predicate WorldInv(kind: string -> bool, w: World, lost: set<Token>) {
    Inv(kind, w.broker, lost) && forall i :: 0 <= i < |w.issued| ==> FromBroker(kind, w.issued[i])
  }

  /** The token that one step makes without naming it. */
  function LostBy(w: World, a: Action): set<Token> {
    match a
    case DoAcquire(ps, provider, scope, fold, _, _, mint, _) => Lost(ps, provider, scope, fold, mint)
    case DoRenew(ps, i, fold, ttl, mint, _, _) =>
      if i < |w.issued| && w.issued[i].budget.Spend(ttl).Some? then Lost(ps, w.issued[i].provider, w.issued[i].scope, fold, mint) else {}
    case _ => {}
  }

  lemma StepKeepsInv(kind: string -> bool, w: World, lost: set<Token>, a: Action)
    requires WorldInv(kind, w, lost) && Honest(kind, w, a)
    ensures WorldInv(kind, Step(w, a), lost + LostBy(w, a))
  {
    match a
    case DoAcquire(ps, provider, scope, fold, ttl, budget, mint, now) =>
      AcquireKeepsInv(kind, ps, w.broker, lost, provider, scope, fold, ttl, budget, mint, now);
    case DoRenew(ps, i, fold, ttl, mint, revoke, now) =>
      if i < |w.issued| { RenewKeepsInv(kind, ps, w.broker, lost, w.issued[i], fold, ttl, mint, revoke, now); }
    case DoRelease(ps, i, revoke) =>
      if i < |w.issued| { ReleaseKeepsInv(kind, ps, w.broker, lost, w.issued[i], revoke); }
    case DoSweep(ps, answers) => SweepKeepsInv(kind, ps, w.broker, lost, answers);
    case DoCheckpoint(i) =>
  }

  function Run(w: World, actions: seq<Action>): World
    decreases |actions|
  {
    if |actions| == 0 then w else Run(Step(w, actions[0]), actions[1..])
  }

  /** The tokens that the mints of a run made and did not name. */
  function LostIn(w: World, actions: seq<Action>): set<Token>
    decreases |actions|
  {
    if |actions| == 0 then {} else LostBy(w, actions[0]) + LostIn(Step(w, actions[0]), actions[1..])
  }

  ghost predicate AllHonest(kind: string -> bool, w: World, actions: seq<Action>)
    decreases |actions|
  {
    |actions| == 0 || (Honest(kind, w, actions[0]) && AllHonest(kind, Step(w, actions[0]), actions[1..]))
  }

  lemma {:induction false} RunKeepsInv(kind: string -> bool, w: World, lost: set<Token>, actions: seq<Action>)
    requires WorldInv(kind, w, lost) && AllHonest(kind, w, actions)
    ensures WorldInv(kind, Run(w, actions), lost + LostIn(w, actions))
    decreases |actions|
  {
    if |actions| != 0 {
      var next, lost' := Step(w, actions[0]), lost + LostBy(w, actions[0]);
      StepKeepsInv(kind, w, lost, actions[0]);
      RunKeepsInv(kind, next, lost', actions[1..]);
      assert lost' + LostIn(next, actions[1..]) == lost + LostIn(w, actions);
    } else {
      assert lost + LostIn(w, actions) == lost;
    }
  }

  /**
   * No run leaks what it was told of: from an empty broker, every stateful token still live is in the ledger, except
   * those that a mint of the run made and did not name.
   */
  lemma LiveTokensAreTracked(kind: string -> bool, actions: seq<Action>, t: Token)
    requires AllHonest(kind, World(Broker(map[], {}), []), actions)
    requires t in Run(World(Broker(map[], {}), []), actions).broker.live
    ensures var open := Run(World(Broker(map[], {}), []), actions).broker.open;
            t in LostIn(World(Broker(map[], {}), []), actions)
              || exists k :: k in open && open[k].provider == t.0 && open[k].handle == Some(t.1)
  {
    RunKeepsInv(kind, World(Broker(map[], {}), []), {}, actions);
  }

  /**
   * The assumption on mints is exactly what tracking needs: a stateful lease that was just handed out is in the ledger
   * if and only if its mint returned a handle; without one nothing is recorded.
   */
  lemma TrackedExactlyWithHandle(ps: Registry, b: Broker, provider: string, scope: string, fold: Fold, ttl: int,
                                 budget: Budget, mint: MintOutcome, now: real)
    requires WellKeyed(b.open)
    ensures var (b', r) := Acquire(ps, b, provider, scope, fold, ttl, budget, mint, now);
            r.Ok? && r.value.stateful ==>
              ((exists k :: k in b'.open && b'.open[k] == r.value) <==> mint.handle.Some?)
              && (mint.handle.None? ==> b'.open == b.open)
  {
    var (b', r) := Acquire(ps, b, provider, scope, fold, ttl, budget, mint, now);
    if r.Ok? && r.value.stateful && mint.handle.Some? {
      assert b'.open[Key(r.value)] == r.value;
    }
  }

  /**
   * A sweep leaves exactly the leases of unregistered providers and of revokes that proved nothing; when there are
   * none, no token is left alive and the ledger is empty.
   */
  lemma SweepLeavesExactly(kind: string -> bool, ps: Registry, b: Broker, revoke: string -> RevokeOutcome, k: string)
    requires Inv(kind, b, {}) && forall x :: x in b.open ==> HonestRevoke(revoke(x))
    ensures var b' := Sweep(ps, b, revoke);
            && (k in b'.open <==> k in b.open && (b.open[k].provider !in ps || !Gone(revoke(k))))
            && (k in b'.open ==> b'.open[k] == b.open[k])
            && ((forall x :: x in b.open ==> b.open[x].provider in ps && Gone(revoke(x))) ==> b' == Broker(map[], {}))
  {
    SweepKeepsInv(kind, ps, b, {}, revoke);
    var b' := Sweep(ps, b, revoke);
    if forall x :: x in b.open ==> b.open[x].provider in ps && Gone(revoke(x)) {
      assert b'.open == map[];
      assert b'.live == {};
    }
  }

  // ---- container environment --------------------------------------------------------------------

  type Env = map<string, string>

  /** A provider's `cred_to_env`: absent, a mapping, or a malformed credential. */
  datatype EnvMapping = NoMapping | Vars(vars: Env) | Malformed

  datatype EnvError = EnvUnknownProvider | EnvMalformed | EnvConflict(key: string)

  /** What one lease asks for: nothing when its credential was dropped. */
  function Wanted(l: Lease, toEnv: (string, string) -> EnvMapping): Env {
    if l.cred.None? then map[]
    else match toEnv(l.provider, l.cred.value) case Vars(vars) => vars case _ => map[]
  }

  ghost predicate Resolvable(ps: Registry, l: Lease, toEnv: (string, string) -> EnvMapping) {
    l.cred.Some? ==> l.provider in ps && !toEnv(l.provider, l.cred.value).Malformed?
  }

  ghost predicate Agree(a: Env, b: Env) {
    forall k :: k in a && k in b ==> a[k] == b[k]
  }

  /** `env` is exactly what the leases ask for, all together. */
  ghost predicate Union(env: Env, leases: seq<Lease>, toEnv: (string, string) -> EnvMapping) {
    && (forall i :: 0 <= i < |leases| ==> Wanted(leases[i], toEnv).Items <= env.Items)
    && (forall k :: k in env ==> exists i :: 0 <= i < |leases| && k in Wanted(leases[i], toEnv))
  }

  ghost predicate Composable(ps: Registry, leases: seq<Lease>, toEnv: (string, string) -> EnvMapping) {
    && (forall i :: 0 <= i < |leases| ==> Resolvable(ps, leases[i], toEnv))
    && (forall i, j :: 0 <= i < j < |leases| ==> Agree(Wanted(leases[i], toEnv), Wanted(leases[j], toEnv)))
  }

  lemma UnionExtends(ps: Registry, env: Env, before: seq<Lease>, l: Lease, toEnv: (string, string) -> EnvMapping)
    requires Composable(ps, before, toEnv) && Union(env, before, toEnv)
    requires Resolvable(ps, l, toEnv)
    ensures Composable(ps, before + [l], toEnv) <==> Agree(env, Wanted(l, toEnv))
    ensures Agree(env, Wanted(l, toEnv)) ==> Union(env + Wanted(l, toEnv), before + [l], toEnv)
  {
    var wanted, all := Wanted(l, toEnv), before + [l];
    if Agree(env, wanted) {
      forall i | 0 <= i < |before|
        ensures Agree(Wanted(before[i], toEnv), wanted)
      {
        forall k | k in Wanted(before[i], toEnv)
          ensures k in env && env[k] == Wanted(before[i], toEnv)[k]
        {
          assert (k, Wanted(before[i], toEnv)[k]) in env.Items;
        }
      }
      UnionOf(env, before, l, toEnv);
    } else {
      var k :| k in env && k in wanted && env[k] != wanted[k];
      var i :| 0 <= i < |before| && k in Wanted(before[i], toEnv);
      assert (k, Wanted(before[i], toEnv)[k]) in env.Items;
      assert !Agree(Wanted(all[i], toEnv), Wanted(all[|before|], toEnv));
    }
  }

  lemma UnionOf(env: Env, before: seq<Lease>, l: Lease, toEnv: (string, string) -> EnvMapping)
    requires Union(env, before, toEnv) && Agree(env, Wanted(l, toEnv))
    ensures Union(env + Wanted(l, toEnv), before + [l], toEnv)
  {
    var wanted, all := Wanted(l, toEnv), before + [l];
    assert env.Items <= (env + wanted).Items && wanted.Items <= (env + wanted).Items;
    forall k | k in env + wanted
      ensures exists i :: 0 <= i < |all| && k in Wanted(all[i], toEnv)
    {
      if k in wanted {
        assert k in Wanted(all[|before|], toEnv);
      } else {
        var i :| 0 <= i < |before| && k in Wanted(before[i], toEnv);
        assert k in Wanted(all[i], toEnv);
      }
    }
  }

  /** The first lease that spoils the environment, and what is wrong with it. */
  ghost predicate Blames(ps: Registry, leases: seq<Lease>, i: nat, toEnv: (string, string) -> EnvMapping, e: EnvError)
    requires i < |leases|
  {
    && Composable(ps, leases[..i], toEnv)
    && match e
       case EnvUnknownProvider => leases[i].cred.Some? && leases[i].provider !in ps
       case EnvMalformed =>
         leases[i].cred.Some? && leases[i].provider in ps && toEnv(leases[i].provider, leases[i].cred.value).Malformed?
       case EnvConflict(key) =>
         && Resolvable(ps, leases[i], toEnv) && key in Wanted(leases[i], toEnv)
         && exists j :: 0 <= j < i && key in Wanted(leases[j], toEnv)
              && Wanted(leases[j], toEnv)[key] != Wanted(leases[i], toEnv)[key]
  }

  /** A variable of the environment so far that a lease sets differently is some earlier lease's. */
  lemma ConflictSource(leases: seq<Lease>, i: nat, env: Env, toEnv: (string, string) -> EnvMapping, key: string)
    requires i < |leases| && Union(env, leases[..i], toEnv)
    requires key in env && key in Wanted(leases[i], toEnv) && env[key] != Wanted(leases[i], toEnv)[key]
    ensures exists j :: 0 <= j < i && key in Wanted(leases[j], toEnv)
              && Wanted(leases[j], toEnv)[key] != Wanted(leases[i], toEnv)[key]
  {
    var j :| 0 <= j < i && key in Wanted(leases[..i][j], toEnv);
    assert (key, Wanted(leases[..i][j], toEnv)[key]) in env.Items;
    assert leases[..i][j] == leases[j];
  }

  lemma ClashBlocks(ps: Registry, leases: seq<Lease>, i: nat, toEnv: (string, string) -> EnvMapping)
    requires i < |leases| && !Composable(ps, leases[..i] + [leases[i]], toEnv)
    ensures !Composable(ps, leases, toEnv)
  {
    assert leases[..i] + [leases[i]] == leases[..i + 1];
  }

  /** Fail-closed on every ambiguity: an environment comes back just when all leases resolve and agree. */
  method ContainerEnv(ps: Registry, leases: seq<Lease>, toEnv: (string, string) -> EnvMapping)
    returns (r: Result<Env, EnvError>)
    ensures r.Ok? <==> Composable(ps, leases, toEnv)
    ensures r.Ok? ==> Union(r.value, leases, toEnv)
    ensures r.Err? ==> exists i :: 0 <= i < |leases| && Blames(ps, leases, i, toEnv, r.error)
  {
    var env: Env := map[];
    for i := 0 to |leases|
      invariant Composable(ps, leases[..i], toEnv) && Union(env, leases[..i], toEnv)
    {
      var l := leases[i];
      assert leases[..i + 1] == leases[..i] + [l];
      if l.cred.Some? && (l.provider !in ps || toEnv(l.provider, l.cred.value).Malformed?) {
        assert !Resolvable(ps, leases[i], toEnv);
        r := Err(if l.provider !in ps then EnvUnknownProvider else EnvMalformed);
        assert Blames(ps, leases, i, toEnv, r.error);
        return;
      }
      UnionExtends(ps, env, leases[..i], l, toEnv);
      var merged, clash := Merge(env, Wanted(l, toEnv));
      if clash.Some? {
        ClashBlocks(ps, leases, i, toEnv);
        ConflictSource(leases, i, env, toEnv, clash.value);
        assert Blames(ps, leases, i, toEnv, EnvConflict(clash.value));
        return Err(EnvConflict(clash.value));
      }
      env := merged;
    }
    assert leases[..|leases|] == leases;
    r := Ok(env);
  }

  method Merge(env: Env, vars: Env) returns (merged: Env, clash: Option<string>)
    ensures clash.Some? ==> clash.value in env && clash.value in vars && env[clash.value] != vars[clash.value]
    ensures clash.None? ==> Agree(env, vars) && merged == env + vars
  {
    merged, clash := env, None;
    var todo := vars.Keys;
    while todo != {}
      invariant todo <= vars.Keys
      invariant forall k :: k in vars.Keys - todo && k in env ==> env[k] == vars[k]
      invariant merged == env + (vars - todo)
    {
      var k :| k in todo;
      if k in merged && merged[k] != vars[k] {
        clash := Some(k);
        return;
      }
      merged := merged[k := vars[k]];
      todo := todo - {k};
    }
  }
}
