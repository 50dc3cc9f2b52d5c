/** What the broker answers, and the write lock on memory scopes in every run (membrane/lease.py). */
module WriteLock {
  import opened Base
  import opened Text
  import opened Lease

  lemma LockMeans(p: Provider, scope: string, fold: Fold)
    ensures var text := fold(Strip(scope));
            ScopeAllowed(p, scope, fold) <==>
              !("memory:" <= text && text != "memory:read" && !(p.memoryCloud && p.writeApproved))
  {
    hide Strip;
  }

  // ---- one call --------------------------------------------------------------------

  /**
   * An acquire answers with the first guard that refuses: the provider is unknown; or the scope, stripped and case-folded,
   * is one of the memory's other than `memory:read`, and the provider is not both a memory cloud and write-approved; or the
   * mint raised. Otherwise the lease is what was asked for, with what was minted. A refusal by a guard changes nothing.
   */
  lemma AcquireAnswers(ps: Registry, b: Broker, provider: string, scope: string, fold: Fold, ttl: int, budget: Budget,
                       mint: MintOutcome, now: real)
    ensures var (b', r) := Acquire(ps, b, provider, scope, fold, ttl, budget, mint, now);
            var text := fold(Strip(scope));
            && (r == Err(UnknownProvider) <==> provider !in ps)
            && (provider in ps ==>
                  (r == Err(WriteLocked) <==>
                    "memory:" <= text && text != "memory:read" && !(ps[provider].memoryCloud && ps[provider].writeApproved)))
            && (r in {Err(UnknownProvider), Err(WriteLocked)} ==> b' == b)
            && (r == Err(MintError) ==> mint.MintFails?)
            && (r.Ok? ==>
                  mint.Minted? && provider in ps
                  && r.value == Lease(provider, scope, budget, Some(mint.cred), now + ttl as real, mint.handle, ps[provider].stateful))
  {
    if provider in ps { LockMeans(ps[provider], scope, fold); }
    hide Made, Record, ScopeAllowed, Strip;
  }

  /** A renewal also needs the time: more than the budget has left is refused first; what is granted is spent. */
  lemma RenewAnswers(ps: Registry, b: Broker, l: Lease, fold: Fold, ttl: int, mint: MintOutcome, revoke: RevokeOutcome,
                     now: real)
    ensures var (b', r) := Renew(ps, b, l, fold, ttl, mint, revoke, now);
            var text := fold(Strip(l.scope));
            var enough := ttl <= 0 || l.budget.spent + ttl <= l.budget.total;
            && (r == Err(BudgetExhausted) <==> !enough)
            && (enough ==> (r == Err(UnknownProvider) <==> l.provider !in ps))
            && (enough && l.provider in ps ==>
                  (r == Err(WriteLocked) <==>
                    "memory:" <= text && text != "memory:read"
                    && !(ps[l.provider].memoryCloud && ps[l.provider].writeApproved)))
            && (r in {Err(BudgetExhausted), Err(UnknownProvider), Err(WriteLocked)} ==> b' == b)
            && (r == Err(MintError) ==> mint.MintFails?)
            && (r.Ok? ==>
                  mint.Minted? && l.provider in ps
                  && r.value == Lease(l.provider, l.scope, Budget(l.budget.total, l.budget.spent + ttl), Some(mint.cred),
                                      now + ttl as real, mint.handle, l.stateful))
  {
    if l.provider in ps { LockMeans(ps[l.provider], l.scope, fold); }
    hide Made, Record, Killed, Key, Gone, ScopeAllowed, Strip;
  }

  // ---- every run --------------------------------------------------------------------

  /**
   * The step minted the lease: at a provider it had registered, and for a memory scope other than `memory:read` at a memory
   * cloud that is write-approved.
   */
  predicate MintsFor(a: Action, l: Lease) {
    && (a.DoAcquire? || a.DoRenew?) && l.provider in a.ps
    && var text := a.fold(Strip(l.scope));
       ("memory:" <= text && text != "memory:read" ==> a.ps[l.provider].memoryCloud && a.ps[l.provider].writeApproved)
  }

  /** One step hands out at most one lease, and keeps those before. */
  lemma StepIssues(w: World, a: Action)
    ensures var w' := Step(w, a);
            && |w.issued| <= |w'.issued| <= |w.issued| + 1 && w.issued <= w'.issued
            && (|w'.issued| > |w.issued| && w'.issued[|w.issued|].cred.Some? ==> MintsFor(a, w'.issued[|w.issued|]))
  {
    hide Record, Made, Killed, Sweep, Release, RequiresWriteApproval;
    match a
    case DoAcquire(ps, provider, scope, fold, ttl, budget, mint, now) =>
      AcquireAnswers(ps, w.broker, provider, scope, fold, ttl, budget, mint, now);
      hide Acquire;
    case DoRenew(ps, i, fold, ttl, mint, revoke, now) =>
      if i < |w.issued| { RenewAnswers(ps, w.broker, w.issued[i], fold, ttl, mint, revoke, now); }
      hide Renew;
    case _ =>
  }

  lemma {:induction false} IssuedStays(w: World, actions: seq<Action>)
    ensures w.issued <= Run(w, actions).issued
    decreases |actions|
  {
    hide Step;
    if |actions| != 0 {
      StepIssues(w, actions[0]);
      IssuedStays(Step(w, actions[0]), actions[1..]);
    }
  }

  /** The step that handed the lease out. */
  ghost predicate IssuedAt(w: World, actions: seq<Action>, k: nat, i: nat) {
    k < |actions| && |Run(w, actions[..k]).issued| <= i < |Run(w, actions[..k + 1]).issued|
  }

  lemma IssuedLater(w: World, actions: seq<Action>, k: nat, i: nat)
    requires |actions| > 0 && IssuedAt(Step(w, actions[0]), actions[1..], k, i)
    ensures IssuedAt(w, actions, k + 1, i)
  {
    hide Step;
    assert actions[..k + 1][0] == actions[0] && actions[..k + 1][1..] == actions[1..][..k];
    assert actions[..k + 2][0] == actions[0] && actions[..k + 2][1..] == actions[1..][..k + 1];
  }

  lemma IssuedFirst(w: World, actions: seq<Action>, i: nat)
    requires |actions| > 0 && |w.issued| <= i < |Step(w, actions[0]).issued|
    ensures IssuedAt(w, actions, 0, i)
  {
    hide Step;
    assert actions[..1][0] == actions[0] && actions[..1][1..] == [];
    assert Run(Step(w, actions[0]), []) == Step(w, actions[0]);
    assert actions[..0] == [] && Run(w, []) == w;
  }

  lemma {:induction false} IssuedUnderLockFrom(w: World, actions: seq<Action>, i: nat) returns (k: nat)
    requires |w.issued| <= i < |Run(w, actions).issued| && Run(w, actions).issued[i].cred.Some?
    ensures IssuedAt(w, actions, k, i) && MintsFor(actions[k], Run(w, actions).issued[i])
    decreases |actions|
  {
    hide Step;
    var w' := Step(w, actions[0]);
    StepIssues(w, actions[0]);
    if i < |w'.issued| {
      IssuedStays(w', actions[1..]);
      IssuedFirst(w, actions, i);
      k := 0;
    } else {
      k := IssuedUnderLockFrom(w', actions[1..], i);
      IssuedLater(w, actions, k, i);
      k := k + 1;
    }
  }

  /**
   * In every run from an empty broker, each lease that carries a credential was handed out by some acquire or renewal, and
   * one for a memory scope other than `memory:read` only by a mint at a write-approved memory cloud.
   */
  lemma IssuedUnderLock(actions: seq<Action>, i: nat)
    requires i < |Run(World(Broker(map[], {}), []), actions).issued|
    requires Run(World(Broker(map[], {}), []), actions).issued[i].cred.Some?
    ensures exists k: nat :: IssuedAt(World(Broker(map[], {}), []), actions, k, i)
              && MintsFor(actions[k], Run(World(Broker(map[], {}), []), actions).issued[i])
  {
    var k := IssuedUnderLockFrom(World(Broker(map[], {}), []), actions, i);
  }

  // ---- what a release and a sweep drop ---------------------------------------------------

  /**
   * A stateful lease leaves the ledger exactly when its revoke returned, or failed with 404 or 410; otherwise a release raises
   * and keeps it. A stateless one always leaves.
   */
  lemma ReleaseAnswers(ps: Registry, b: Broker, l: Lease, revoke: RevokeOutcome)
    ensures var (b', r) := Release(ps, b, l, revoke);
            var gone := revoke.Revoked? || revoke.status == Some(404) || revoke.status == Some(410);
            && (r == Err(UnknownProvider) <==> l.stateful && l.provider !in ps)
            && (r == Err(RevokeTransient) <==> l.stateful && l.provider in ps && !gone)
            && b'.open == (if r.Ok? then b.open - {Key(l)} else b.open)
            && Key(l) == l.provider + ":" + (if l.handle.Some? then l.handle.value else "None")
  {
  }

  lemma SweepAnswers(ps: Registry, b: Broker, revoke: string -> RevokeOutcome, k: string)
    ensures var gone := revoke(k).Revoked? || revoke(k).status == Some(404) || revoke(k).status == Some(410);
            k in Sweep(ps, b, revoke).open <==> k in b.open && !(b.open[k].provider in ps && gone)
  {
  }

  // ---- the container's environment ------------------------------------------------------------

  /** The lease has a credential, and its provider maps it to the variable with the value. */
  ghost predicate Sets(l: Lease, toEnv: (string, string) -> EnvMapping, key: string, value: string) {
    l.cred.Some? && toEnv(l.provider, l.cred.value).Vars?
      && key in toEnv(l.provider, l.cred.value).vars && toEnv(l.provider, l.cred.value).vars[key] == value
  }

  /** The leases go together exactly when each with a credential resolves and no two set a variable to different values. */
  lemma ComposableMeans(ps: Registry, leases: seq<Lease>, toEnv: (string, string) -> EnvMapping)
    ensures Composable(ps, leases, toEnv) <==>
              && (forall i :: 0 <= i < |leases| && leases[i].cred.Some? ==>
                    leases[i].provider in ps && !toEnv(leases[i].provider, leases[i].cred.value).Malformed?)
              && (forall i, j :: 0 <= i < j < |leases| ==>
                    forall key, a, b :: Sets(leases[i], toEnv, key, a) && Sets(leases[j], toEnv, key, b) ==> a == b)
  {
    forall i, j | 0 <= i < j < |leases|
      ensures Agree(Wanted(leases[i], toEnv), Wanted(leases[j], toEnv)) <==>
                forall key, a, b :: Sets(leases[i], toEnv, key, a) && Sets(leases[j], toEnv, key, b) ==> a == b
    {
      AgreeMeans(leases[i], leases[j], toEnv);
    }
    hide Wanted, Agree, Sets;
  }

  lemma WantedMeans(l: Lease, toEnv: (string, string) -> EnvMapping, key: string, value: string)
    ensures (key in Wanted(l, toEnv) && Wanted(l, toEnv)[key] == value) <==> Sets(l, toEnv, key, value)
  {
  }

  lemma AgreeMeans(l: Lease, m: Lease, toEnv: (string, string) -> EnvMapping)
    ensures Agree(Wanted(l, toEnv), Wanted(m, toEnv)) <==>
              forall key, a, b :: Sets(l, toEnv, key, a) && Sets(m, toEnv, key, b) ==> a == b
  {
    var x, y := Wanted(l, toEnv), Wanted(m, toEnv);
    forall key, v: string
      ensures (key in x && x[key] == v) <==> Sets(l, toEnv, key, v)
      ensures (key in y && y[key] == v) <==> Sets(m, toEnv, key, v)
    {
      WantedMeans(l, toEnv, key, v);
      WantedMeans(m, toEnv, key, v);
    }
    hide Wanted, Sets;
    if forall key, a, b :: Sets(l, toEnv, key, a) && Sets(m, toEnv, key, b) ==> a == b {
      forall key | key in x && key in y
        ensures x[key] == y[key]
      {
        assert Sets(l, toEnv, key, x[key]) && Sets(m, toEnv, key, y[key]);
      }
    }
  }

  /** The environment that comes back has exactly the variables that some lease sets, with the value it sets. */
  lemma EnvMeans(ps: Registry, env: Env, leases: seq<Lease>, toEnv: (string, string) -> EnvMapping, key: string, value: string)
    requires Composable(ps, leases, toEnv) && Union(env, leases, toEnv)
    ensures (key in env && env[key] == value) <==> exists i :: 0 <= i < |leases| && Sets(leases[i], toEnv, key, value)
  {
    if key in env && env[key] == value {
      var i :| 0 <= i < |leases| && key in Wanted(leases[i], toEnv);
      WantedMeans(leases[i], toEnv, key, Wanted(leases[i], toEnv)[key]);
      assert (key, Wanted(leases[i], toEnv)[key]) in env.Items;
      assert Sets(leases[i], toEnv, key, value);
    }
    if i :| 0 <= i < |leases| && Sets(leases[i], toEnv, key, value) {
      WantedMeans(leases[i], toEnv, key, value);
      assert (key, value) in Wanted(leases[i], toEnv).Items;
      assert (key, value) in env.Items;
    }
  }

  // ---- what is assumed of the providers ----------------------------------------------------------

  /**
   * The assumptions of the ledger's theorems, in full: provider names hold no colon and say whether their tokens are stateful;
   * a stateful mint that returns names a handle; and a revoke that returns, or fails with 404 or 410, means the token is dead.
   * A mint that raises, and a revoke that fails in any other way, may have done anything.
   */
  lemma AssumptionsMean(kind: string -> bool, ps: Registry, provider: string, mint: MintOutcome, revoke: RevokeOutcome)
    ensures Consistent(kind, ps) <==> forall name :: name in ps ==> ':' !in name && (ps[name].stateful <==> kind(name))
    ensures HonestMint(kind, provider, mint) <==> mint.MintFails? || !kind(provider) || mint.handle.Some?
    ensures HonestRevoke(revoke) <==>
              revoke.Revoked? || revoke.died || (revoke.status != Some(404) && revoke.status != Some(410))
  {
  }
}
