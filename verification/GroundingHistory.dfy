/** Every interleaving of grounded runs, memory calls and cascades over one world: the log is exact, and cascades reach. */
module GroundingHistory {
  import opened Base
  import opened MemoryModel
  import opened LocalMemory
  import opened Checkpoints
  import opened BrainSession
  import opened Provenance
  import opened Erasure
  import opened Continuity
  import opened StringOrder

  /**
   * Grounded runs and cascades at the grain of their awaits. A run reads and records, then saves the turn, then writes the
   * summary. A cascade deletes the checkpoint of one session after another, each time then erasing what that session derived,
   * and last the source. Anything may come in between, and a cascade or a run may stop anywhere.
   */
  datatype Step =
    | Ground(session: string, prompt: string)
    | Save(session: string, checkpoint: Checkpoint)
    | Summarize(session: string, prompt: string, result: string)
    | Use(op: Op)
    | DeleteCheckpoint(session: string)
    | EraseSession(id: string, session: string)
    | EraseSource(id: string)

  /** The source's own erasure raises when another cascade took it. */
  function After(cfg: Config, w: World, step: Step): World {
    match step
    case Ground(session, prompt) =>
      World(LocalStep(cfg, w.memory, BootstrapCall(prompt)).0, w.saved,
            Grounded(w.byMemory, cfg, w.memory, session, prompt), GroundedTiers(w.tiers, cfg, w.memory, session, prompt))
    case Save(session, c) => w.(saved := w.saved[session := c])
    case Summarize(session, prompt, result) =>
      w.(memory := LocalStep(cfg, w.memory, SummaryCall(session, prompt, result)).0)
    case Use(op) => w.(memory := LocalStep(cfg, w.memory, op).0)
    case DeleteCheckpoint(session) => w.(saved := w.saved - {session})
    case EraseSession(id, session) =>
      w.(memory := Erase(w.memory, Derived(w.memory.memories, {session}) - {id}), tiers := w.tiers - {session})
    case EraseSource(id) =>
      if HasId(w.memory.memories, id) then w.(memory := Erase(w.memory, {id}), byMemory := w.byMemory - {id}) else w
  }

  /** A grounded run with nothing in between is its steps: the last two only when it completes. */
  lemma RunIsItsSteps(cfg: Config, w: World, session: string, prompt: string, brain: Brain)
    ensures var grounded := After(cfg, w, Ground(session, prompt));
            AfterRun(cfg, w, session, prompt, brain) == match RunOutcome(cfg, w, session, prompt, brain)
              case Completed(result) =>
                After(cfg, After(cfg, grounded, Save(session, result.checkpoint)), Summarize(session, prompt, result.text))
              case _ => grounded
  {
    hide LocalStep, Grounded, GroundedTiers, RunOutcome;
  }

  /** The world after a history. */
  function Reached(cfg: Config, w: World, steps: seq<Step>): World {
    if |steps| == 0 then w else After(cfg, Reached(cfg, w, steps[..|steps| - 1]), steps[|steps| - 1])
  }

  // ---- a cascade is its steps ---------------------------------------------------------------

  function SessionSteps(id: string, sessions: seq<string>): seq<Step> {
    if |sessions| == 0 then []
    else
      var last := sessions[|sessions| - 1];
      SessionSteps(id, sessions[..|sessions| - 1]) + [DeleteCheckpoint(last), EraseSession(id, last)]
  }

  /** The steps of a cascade over the sessions it found when it started. */
  function CascadeSteps(id: string, sessions: seq<string>): seq<Step> {
    SessionSteps(id, sessions) + [EraseSource(id)]
  }

  lemma ReachedOne(cfg: Config, w: World, steps: seq<Step>, step: Step)
    ensures Reached(cfg, w, steps + [step]) == After(cfg, Reached(cfg, w, steps), step)
  {
    hide After;
    assert (steps + [step])[..|steps|] == steps;
  }

  /** What the cascade has done after some sessions. */
  lemma {:induction false} SessionsAreErased(cfg: Config, w: World, id: string, sessions: seq<string>)
    ensures var done := Elements(sessions);
            Reached(cfg, w, SessionSteps(id, sessions)) ==
              World(Erase(w.memory, Derived(w.memory.memories, done) - {id}), w.saved - done, w.byMemory, w.tiers - done)
  {
    if |sessions| == 0 {
      EraseNothing(w.memory);
      assert Elements(sessions) == {} && Derived(w.memory.memories, {}) - {id} == {};
      assert w.saved - {} == w.saved && w.tiers - {} == w.tiers;
    } else {
      var init, last := sessions[..|sessions| - 1], sessions[|sessions| - 1];
      var steps := SessionSteps(id, init);
      SessionsAreErased(cfg, w, id, init);
      assert steps + [DeleteCheckpoint(last), EraseSession(id, last)]
        == steps + [DeleteCheckpoint(last)] + [EraseSession(id, last)];
      ReachedOne(cfg, w, steps, DeleteCheckpoint(last));
      ReachedOne(cfg, w, steps + [DeleteCheckpoint(last)], EraseSession(id, last));
      assert sessions == init + [last];
      ElementsSnoc(init, last);
      hide Reached, SessionSteps, Elements;
      SessionIsErased(cfg, w, id, Elements(init), last);
    }
  }

  lemma SessionIsErased(cfg: Config, w: World, id: string, done: set<string>, session: string)
    ensures var part := World(Erase(w.memory, Derived(w.memory.memories, done) - {id}), w.saved - done, w.byMemory, w.tiers - done);
            var all := done + {session};
            After(cfg, After(cfg, part, DeleteCheckpoint(session)), EraseSession(id, session)) ==
              World(Erase(w.memory, Derived(w.memory.memories, all) - {id}), w.saved - all, w.byMemory, w.tiers - all)
  {
    var ms := w.memory.memories;
    var first := Derived(ms, done) - {id};
    DerivedAfterErase(w.memory, first, {session});
    DerivedGrows(ms, done, session);
    RemoveTwice(w.saved, done, session);
    RemoveTwice(w.tiers, done, session);
    hide Derived, Erase;
    EraseCompose(w.memory, first, Derived(ms, {session}) - first - {id});
    assert first + (Derived(ms, {session}) - first - {id}) == Derived(ms, done + {session}) - {id};
  }

  /** With nothing in between, the steps over the sessions that the log has are the whole cascade. */
  lemma CascadeIsItsSteps(cfg: Config, w: World, id: string)
    requires HasId(w.memory.memories, id)
    ensures Reached(cfg, w, CascadeSteps(id, Sorted(SessionsOf(w.byMemory, id)))) == Cascaded(w, id)
  {
    var sessions := Sorted(SessionsOf(w.byMemory, id));
    assert Elements(sessions) == SessionsOf(w.byMemory, id);
    hide *;
    SessionsAreErased(cfg, w, id, sessions);
    ReachedOne(cfg, w, SessionSteps(id, sessions), EraseSource(id));
    StepsOf(id, sessions);
    SourceIsErased(cfg, w, id);
  }

  lemma StepsOf(id: string, sessions: seq<string>)
    ensures CascadeSteps(id, sessions) == SessionSteps(id, sessions) + [EraseSource(id)]
  {
  }

  /** The last step, after those over all sessions. */
  lemma SourceIsErased(cfg: Config, w: World, id: string)
    requires HasId(w.memory.memories, id)
    ensures var sessions := SessionsOf(w.byMemory, id);
            After(cfg, World(Erase(w.memory, Derived(w.memory.memories, sessions) - {id}), w.saved - sessions, w.byMemory,
                             w.tiers - sessions), EraseSource(id)) == Cascaded(w, id)
  {
    var derived := Derived(w.memory.memories, SessionsOf(w.byMemory, id)) - {id};
    hide Derived, Erase, HasId;
    Survives(w.memory, derived, id);
    EraseCompose(w.memory, derived, {id});
    assert derived + {id} == Erased(w, id);
  }

  // ---- the log ----------------------------------------------------------------------------------

  /** A session start whose prompt shows the memory, in the world as it is then. */
  ghost predicate Shows(cfg: Config, w: World, step: Step, session: string, id: string) {
    step.Ground? && step.session == session && id in IdSet(ShownFor(cfg, w.memory, step.prompt))
  }

  /** A cascade from the memory that completes. */
  predicate Clears(w: World, step: Step, id: string) {
    step.EraseSource? && step.id == id && HasId(w.memory.memories, id)
  }

  ghost predicate ShownAt(cfg: Config, w: World, steps: seq<Step>, k: nat, session: string, id: string)
    requires k < |steps|
  {
    Shows(cfg, Reached(cfg, w, steps[..k]), steps[k], session, id)
  }

  predicate ClearedAt(cfg: Config, w: World, steps: seq<Step>, k: nat, id: string)
    requires k < |steps|
  {
    Clears(Reached(cfg, w, steps[..k]), steps[k], id)
  }

  /** No cascade from the memory completes from step `k` on. */
  ghost predicate KeptFrom(cfg: Config, w: World, steps: seq<Step>, k: nat, id: string) {
    forall j :: k <= j < |steps| ==> !ClearedAt(cfg, w, steps, j, id)
  }

  /** One step on the log: a showing start adds the session, a completed cascade drops the memory, nothing else counts. */
  lemma LogStep(cfg: Config, w: World, step: Step, session: string, id: string)
    ensures session in SessionsOf(After(cfg, w, step).byMemory, id)
      <==> Shows(cfg, w, step, session, id) || (!Clears(w, step, id) && session in SessionsOf(w.byMemory, id))
  {
    hide LocalStep, ShownFor, HasId, GroundedTiers, Derived;
    if step.Ground? {
      var shown := ShownFor(cfg, w.memory, step.prompt);
      RecordedSessions(w.byMemory, step.session, Firsts(Sources(shown)), id);
      ShownIds(shown, id);
    }
  }

  lemma ShownIds(shown: seq<Memory>, id: string)
    ensures id in Firsts(Sources(shown)) <==> id in IdSet(shown)
  {
    var ids := Firsts(Sources(shown));
    if id in ids {
      var i :| 0 <= i < |ids| && ids[i] == id;
      assert shown[i] in shown;
    }
    if m :| m in shown && m.id == id {
      var i :| 0 <= i < |shown| && shown[i] == m;
      assert ids[i] == id;
    }
  }

  /** The session was listed before, or some start of it showed the memory, and no cascade from it completed since. */
  ghost predicate Explained(cfg: Config, w: World, steps: seq<Step>, session: string, id: string) {
    || (session in SessionsOf(w.byMemory, id) && KeptFrom(cfg, w, steps, 0, id))
    || ShownSince(cfg, w, steps, session, id)
  }

  ghost predicate ShownSince(cfg: Config, w: World, steps: seq<Step>, session: string, id: string) {
    exists k: nat :: k < |steps| && ShownAndKept(cfg, w, steps, k, session, id)
  }

  ghost predicate ShownAndKept(cfg: Config, w: World, steps: seq<Step>, k: nat, session: string, id: string)
    requires k < |steps|
  {
    ShownAt(cfg, w, steps, k, session, id) && KeptFrom(cfg, w, steps, k + 1, id)
  }

  /** The log is exact: a session is listed for a memory if and only if the history says so. */
  lemma {:induction false} LogIsExact(cfg: Config, w: World, steps: seq<Step>, session: string, id: string)
    ensures session in SessionsOf(Reached(cfg, w, steps).byMemory, id) <==> Explained(cfg, w, steps, session, id)
  {
    hide Shows, Clears, After, KeptFrom, ShownAt, SessionsOf;
    if |steps| != 0 {
      var init, last := steps[..|steps| - 1], steps[|steps| - 1];
      LogIsExact(cfg, w, init, session, id);
      LogStep(cfg, Reached(cfg, w, init), last, session, id);
      hide Explained;
      ExplainedStep(cfg, w, steps, session, id);
    } else {
      KeptByNothing(cfg, w, id);
    }
  }

  lemma KeptByNothing(cfg: Config, w: World, id: string)
    ensures KeptFrom(cfg, w, [], 0, id)
  {
  }

  lemma ExplainedStep(cfg: Config, w: World, steps: seq<Step>, session: string, id: string)
    requires |steps| > 0
    ensures var before, last := Reached(cfg, w, steps[..|steps| - 1]), steps[|steps| - 1];
            Explained(cfg, w, steps, session, id) <==>
              || Shows(cfg, before, last, session, id)
              || (!Clears(before, last, id) && Explained(cfg, w, steps[..|steps| - 1], session, id))
  {
    var init, n := steps[..|steps| - 1], |steps| - 1;
    assert Shows(cfg, Reached(cfg, w, init), steps[n], session, id) ==> !Clears(Reached(cfg, w, init), steps[n], id);
    hide KeptFrom, ShownSince, Clears, Shows, Reached;
    KeptStep(cfg, w, steps, 0, id);
    if ShownSince(cfg, w, steps, session, id) {
      SinceEarlier(cfg, w, steps, session, id);
    } else if Shows(cfg, Reached(cfg, w, init), steps[n], session, id)
              || (!Clears(Reached(cfg, w, init), steps[n], id) && ShownSince(cfg, w, init, session, id)) {
      SinceLater(cfg, w, steps, session, id);
    }
  }

  lemma SinceLater(cfg: Config, w: World, steps: seq<Step>, session: string, id: string)
    requires |steps| > 0
    requires var before, last := Reached(cfg, w, steps[..|steps| - 1]), steps[|steps| - 1];
      || Shows(cfg, before, last, session, id)
      || (!Clears(before, last, id) && ShownSince(cfg, w, steps[..|steps| - 1], session, id))
    ensures ShownSince(cfg, w, steps, session, id)
  {
    hide Clears, Shows, Reached, ShownAndKept;
    var n, init := |steps| - 1, steps[..|steps| - 1];
    LastShown(cfg, w, steps, session, id);
    if !Shows(cfg, Reached(cfg, w, init), steps[n], session, id) {
      var k: nat :| k < |init| && ShownAndKept(cfg, w, init, k, session, id);
      ShownStep(cfg, w, steps, k, session, id);
    }
  }

  lemma SinceEarlier(cfg: Config, w: World, steps: seq<Step>, session: string, id: string)
    requires |steps| > 0 && ShownSince(cfg, w, steps, session, id)
    ensures var before, last := Reached(cfg, w, steps[..|steps| - 1]), steps[|steps| - 1];
      || Shows(cfg, before, last, session, id)
      || (!Clears(before, last, id) && ShownSince(cfg, w, steps[..|steps| - 1], session, id))
  {
    hide Clears, Shows, Reached, ShownAndKept;
    var n := |steps| - 1;
    LastShown(cfg, w, steps, session, id);
    var k: nat :| k < |steps| && ShownAndKept(cfg, w, steps, k, session, id);
    if k < n { ShownStep(cfg, w, steps, k, session, id); }
  }

  lemma LastShown(cfg: Config, w: World, steps: seq<Step>, session: string, id: string)
    requires |steps| > 0
    ensures var n := |steps| - 1;
            ShownAndKept(cfg, w, steps, n, session, id) <==> Shows(cfg, Reached(cfg, w, steps[..n]), steps[n], session, id)
  {
    hide Shows, Reached;
  }

  lemma ShownStep(cfg: Config, w: World, steps: seq<Step>, k: nat, session: string, id: string)
    requires k < |steps| - 1
    ensures var init, n := steps[..|steps| - 1], |steps| - 1;
            ShownAndKept(cfg, w, steps, k, session, id) <==>
              ShownAndKept(cfg, w, init, k, session, id) && !Clears(Reached(cfg, w, init), steps[n], id)
  {
    hide Shows, Clears, Reached, KeptFrom;
    assert steps[..|steps| - 1][..k] == steps[..k];
    KeptStep(cfg, w, steps, k + 1, id);
  }

  lemma KeptStep(cfg: Config, w: World, steps: seq<Step>, k: nat, id: string)
    requires k < |steps|
    ensures var init, n := steps[..|steps| - 1], |steps| - 1;
            KeptFrom(cfg, w, steps, k, id) <==> KeptFrom(cfg, w, init, k, id) && !Clears(Reached(cfg, w, init), steps[n], id)
  {
    hide Clears, Reached;
    var init, n := steps[..|steps| - 1], |steps| - 1;
    forall j | 0 <= j < n
      ensures ClearedAt(cfg, w, steps, j, id) == ClearedAt(cfg, w, init, j, id)
    {
      assert init[..j] == steps[..j];
    }
    assert ClearedAt(cfg, w, steps, n, id) == Clears(Reached(cfg, w, init), steps[n], id);
  }

  /**
   * Whatever happens between: a cascade from a memory that a session was shown, and that no earlier cascade started
   * from, leaves nothing of that session: no checkpoint, no tiers, no memory under its tag.
   */
  lemma CascadeReachesEveryConsumer(cfg: Config, w: World, steps: seq<Step>, k: nat, session: string, id: string, m: Memory)
    requires k < |steps|
    requires ShownAt(cfg, w, steps, k, session, id) && KeptFrom(cfg, w, steps, k + 1, id)
    requires HasId(Reached(cfg, w, steps).memory.memories, id)
    ensures var now := Reached(cfg, w, steps);
            var end := Reached(cfg, now, CascadeSteps(id, Sorted(SessionsOf(now.byMemory, id))));
            && session !in end.saved && session !in end.tiers
            && (m in end.memory.memories ==> SessionTag(session) !in m.tags)
  {
    var now := Reached(cfg, w, steps);
    assert ShownAndKept(cfg, w, steps, k, session, id);
    assert ShownSince(cfg, w, steps, session, id);
    hide *;
    ShownIsExplained(cfg, w, steps, session, id);
    LogIsExact(cfg, w, steps, session, id);
    CascadeIsItsSteps(cfg, now, id);
    NothingIsLeft(now, id, session, m);
  }

  lemma ShownIsExplained(cfg: Config, w: World, steps: seq<Step>, session: string, id: string)
    requires ShownSince(cfg, w, steps, session, id)
    ensures Explained(cfg, w, steps, session, id)
  {
    hide ShownSince;
  }

  lemma NothingIsLeft(w: World, id: string, session: string, m: Memory)
    requires session in SessionsOf(w.byMemory, id)
    ensures session !in Cascaded(w, id).saved && session !in Cascaded(w, id).tiers
    ensures m in Cascaded(w, id).memory.memories ==> SessionTag(session) !in m.tags
  {
    FilterMembers(w.memory.memories, KeepMemory(Erased(w, id)));
    if m in w.memory.memories && SessionTag(session) in m.tags {
      assert m.id in Derived(w.memory.memories, SessionsOf(w.byMemory, id));
    }
  }

  /**
   * A cascade that completes between a session's start and its save misses what comes later: the session keeps its
   * checkpoint, the log no longer leads from the memory to it, and no cascade can start from the memory again.
   */
  lemma LateSaveSurvives(cfg: Config, w: World, session: string, prompt: string, id: string, c: Checkpoint)
    requires Shows(cfg, w, Ground(session, prompt), session, id)
    requires HasId(After(cfg, w, Ground(session, prompt)).memory.memories, id)
    ensures var started := After(cfg, w, Ground(session, prompt));
            var cascaded := Reached(cfg, started, CascadeSteps(id, Sorted(SessionsOf(started.byMemory, id))));
            var end := After(cfg, cascaded, Save(session, c));
            && session !in cascaded.saved && end.saved[session] == c
            && SessionsOf(end.byMemory, id) == {} && !HasId(end.memory.memories, id)
  {
    var started := After(cfg, w, Ground(session, prompt));
    LogStep(cfg, w, Ground(session, prompt), session, id);
    CascadeIsItsSteps(cfg, started, id);
    hide LocalStep, Grounded, GroundedTiers, Shows, Erase, Derived, Reached, CascadeSteps;
    if HasId(Erase(started.memory, Erased(started, id)).memories, id) {
      SurvivesUnless(started.memory, Erased(started, id), id);
    }
  }

  /**
   * A session that starts and saves while a cascade is under way, before the source goes, is missed too: its entry in the log
   * goes with the source.
   */
  lemma LateStartSurvives(cfg: Config, w: World, session: string, prompt: string, id: string, c: Checkpoint)
    requires HasId(After(cfg, w, Ground(session, prompt)).memory.memories, id)
    ensures var saved := After(cfg, After(cfg, w, Ground(session, prompt)), Save(session, c));
            var end := After(cfg, saved, EraseSource(id));
            end.saved[session] == c && SessionsOf(end.byMemory, id) == {} && !HasId(end.memory.memories, id)
  {
    var started := After(cfg, w, Ground(session, prompt));
    hide LocalStep, Grounded, GroundedTiers, Erase;
    if HasId(Erase(started.memory, {id}).memories, id) { SurvivesUnless(started.memory, {id}, id); }
  }

  // ---- what a session has saved ---------------------------------------------------------------

  predicate Saves(step: Step, session: string) {
    step.Save? && step.session == session
  }

  /** The step of a cascade that deletes the session's checkpoint. */
  predicate Drops(step: Step, session: string) {
    step == DeleteCheckpoint(session)
  }

  /** The step saves the session's turn, and nothing after it drops it. */
  predicate SavedAndKept(steps: seq<Step>, k: nat, session: string)
    requires k < |steps|
  {
    Saves(steps[k], session) && forall j :: k < j < |steps| ==> !Drops(steps[j], session)
  }

  lemma SaveStep(cfg: Config, w: World, step: Step, session: string)
    ensures session in After(cfg, w, step).saved <==> Saves(step, session) || (!Drops(step, session) && session in w.saved)
  {
    hide LocalStep, HasId, Grounded, GroundedTiers, Derived, Erase;
  }

  lemma KeptSnoc(steps: seq<Step>, k: nat, session: string)
    requires k < |steps|
    ensures var init, n := steps[..|steps| - 1], |steps| - 1;
            SavedAndKept(steps, k, session) <==>
              if k == n then Saves(steps[n], session)
              else SavedAndKept(init, k, session) && !Drops(steps[n], session)
  {
    hide Drops, Saves;
    var init, n := steps[..|steps| - 1], |steps| - 1;
    assert forall j :: 0 <= j < n ==> steps[j] == init[j];
  }

  /**
   * Exactly what a cascade cannot take back: after any history from a world without a checkpoint of the session, it has
   * one if and only if some save of it came after the last delete of its checkpoint by a cascade.
   */
  lemma {:induction false} CheckpointIsExact(cfg: Config, w: World, steps: seq<Step>, session: string)
    requires session !in w.saved
    ensures session in Reached(cfg, w, steps).saved <==>
              exists k: nat :: k < |steps| && SavedAndKept(steps, k, session)
  {
    hide After, Saves, Drops, SavedAndKept;
    if |steps| != 0 {
      var init, last := steps[..|steps| - 1], steps[|steps| - 1];
      CheckpointIsExact(cfg, w, init, session);
      SaveStep(cfg, Reached(cfg, w, init), last, session);
      forall k: nat | k < |steps|
        ensures SavedAndKept(steps, k, session) <==>
          if k == |steps| - 1 then Saves(last, session)
          else SavedAndKept(init, k, session) && !Drops(last, session)
      {
        KeptSnoc(steps, k, session);
      }
      assert Reached(cfg, w, steps) == After(cfg, Reached(cfg, w, init), last);
      hide Reached;
      if Saves(last, session) { assert SavedAndKept(steps, |steps| - 1, session); }
      if k: nat :| k < |init| && SavedAndKept(init, k, session) {
        assert !Drops(last, session) ==> SavedAndKept(steps, k, session);
      }
    }
  }
}
