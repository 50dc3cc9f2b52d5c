/** What a grounded run leaves and what a cascade takes, in terms of the records only (patterns/continuity.py, patterns/erasure.py). */
module CascadeAnswers {
  import opened Base
  import opened Text
  import opened MemoryModel
  import opened LocalMemory
  import opened Checkpoints
  import opened BrainSession
  import opened Provenance
  import opened Erasure
  import opened Continuity

  lemma TagsDiffer(a: string, b: string)
    ensures "session:" + a == "session:" + b <==> a == b
    ensures "session:" + a != "task-summary"
  {
    assert ("session:" + a)[8..] == a && ("session:" + b)[8..] == b;
    assert ("session:" + a)[0] == 's';
  }

  // ---- what a cascade takes ---------------------------------------------------------------

  /** A memory all of whose session tags are of sessions that did not consume the source outlives the cascade. */
  lemma OthersOutlive(w: World, id: string, m: Memory)
    requires m in w.memory.memories && m.id != id
    requires forall i, j :: 0 <= i < j < |w.memory.memories| ==> w.memory.memories[i].id != w.memory.memories[j].id
    requires forall s :: id in w.byMemory && s in w.byMemory[id] ==> "session:" + s !in m.tags
    ensures m in Cascaded(w, id).memory.memories
  {
    CascadeSpares(w, id, m);
  }

  // ---- what a run leaves ---------------------------------------------------------------------

  /** The summary of a completed run, as it is stored. */
  function Summary(id: string, sessionId: string, prompt: string, result: string): Memory {
    Memory(id, "Task (session " + sessionId + "): " + prompt + "\nOutcome: " + result,
           ["task-summary", "session:" + sessionId], "quarantine", "on_recall")
  }

  /** A completed run adds its summary, in quarantine and under its own session's tag, and no other memory changes. */
  lemma RunLeavesSummary(cfg: Config, w: World, sessionId: string, prompt: string, brain: Brain)
    requires OwnIds(w.memory.memories, w.memory.nextId)
    ensures var after, outcome := AfterRun(cfg, w, sessionId, prompt, brain), RunOutcome(cfg, w, sessionId, prompt, brain);
            after.memory.memories == w.memory.memories
              + match outcome
                case Completed(result) => [Summary("m" + Dec(w.memory.nextId), sessionId, prompt, result.text)]
                case _ => []
  {
    hide RunOutcome, Grounded, GroundedTiers, Dec, LocalRecall;
    var s := LocalStep(cfg, w.memory, BootstrapCall(prompt)).0;
    StartKeepsMemories(cfg, w.memory, prompt);
    NextIdIsNew(w.memory.memories, w.memory.nextId);
    match RunOutcome(cfg, w, sessionId, prompt, brain)
    case Completed(result) =>
      PutFresh(s.memories, Summary("m" + Dec(w.memory.nextId), sessionId, prompt, result.text));
    case _ =>
  }

  lemma StartKeepsMemories(cfg: Config, s: Local, prompt: string)
    ensures var s' := LocalStep(cfg, s, BootstrapCall(prompt)).0; s'.memories == s.memories && s'.nextId == s.nextId
  {
  }

  /** The summary of a session that did not consume the source outlives a cascade from it. */
  lemma SummaryOutlives(cfg: Config, w: World, sessionId: string, prompt: string, brain: Brain, id: string)
    requires OwnIds(w.memory.memories, w.memory.nextId) && w.memory.nextId >= 1
    requires RunOutcome(cfg, w, sessionId, prompt, brain).Completed?
    requires id != "m" + Dec(w.memory.nextId)
    requires sessionId !in SessionsOf(AfterRun(cfg, w, sessionId, prompt, brain).byMemory, id)
    ensures Summary("m" + Dec(w.memory.nextId), sessionId, prompt, RunOutcome(cfg, w, sessionId, prompt, brain).result.text)
              in Cascaded(AfterRun(cfg, w, sessionId, prompt, brain), id).memory.memories
  {
    var after, text := AfterRun(cfg, w, sessionId, prompt, brain), RunOutcome(cfg, w, sessionId, prompt, brain).result.text;
    var m := Summary("m" + Dec(w.memory.nextId), sessionId, prompt, text);
    RunLeavesSummary(cfg, w, sessionId, prompt, brain);
    hide RunOutcome, AfterRun, Cascaded;
    assert after.memory.memories == w.memory.memories + [m];
    LastOutlives(w, after, sessionId, m, id);
  }

  lemma LastOutlives(w: World, after: World, sessionId: string, m: Memory, id: string)
    requires OwnIds(w.memory.memories, w.memory.nextId) && w.memory.nextId >= 1 && m.id == "m" + Dec(w.memory.nextId)
    requires after.memory.memories == w.memory.memories + [m] && m.id != id
    requires m.tags == ["task-summary", "session:" + sessionId] && sessionId !in SessionsOf(after.byMemory, id)
    ensures m in Cascaded(after, id).memory.memories
  {
    OneMoreId(w.memory.memories, m, w.memory.nextId);
    hide Cascaded, Dec, HandedOut;
    forall s | id in after.byMemory && s in after.byMemory[id]
      ensures "session:" + s !in m.tags
    {
      TagsDiffer(s, sessionId);
    }
    OthersOutlive(after, id, m);
  }

  // ---- what a session is shown -------------------------------------------------------------------

  lemma {:induction false} DistinctStay(ms: seq<Memory>, seen: set<string>)
    requires forall i, j :: 0 <= i < |ms| && 0 <= j < |ms| && ms[i].id == ms[j].id ==> ms[i] == ms[j]
    ensures forall m :: m in ms && m.id !in seen ==> m in Dedup(ms, seen)
    decreases |ms|
  {
    if |ms| != 0 {
      assert ms == [ms[0]] + ms[1..];
      DistinctStay(ms[1..], seen);
      DistinctStay(ms[1..], seen + {ms[0].id});
      forall m | m in ms && m.id !in seen
        ensures m in Dedup(ms, seen)
      {
        var i :| 0 <= i < |ms| && ms[i] == m;
        assert m.id == ms[0].id ==> m == ms[0];
      }
    }
  }

  /**
   * A session is shown the trusted memories that are delivered always, and the first five of a recall of trusted ones by the
   * first 1024 characters of its prompt; nothing else.
   */
  lemma ShownMeans(cfg: Config, s: Local, prompt: string, m: Memory)
    requires forall i, j :: 0 <= i < j < |s.memories| ==> s.memories[i].id != s.memories[j].id
    ensures var query := if 1024 <= |prompt| then prompt[..1024] else prompt;
            var found := LocalStep(cfg, s, Op.Recall(query, true, [])).1;
            && found.Memories?
            && (m in ShownFor(cfg, s, prompt) <==>
                  || (m in s.memories && m.deliveryMode == "always" && m.trustTier == "trusted")
                  || m in found.memories[..if 5 <= |found.memories| then 5 else |found.memories|])
  {
    var query := Take(prompt, BOOTSTRAP_QUERY_MAX);
    var pinned, found := Filter(Filter(s.memories, Pinned()), Trusted()), LocalRecall(cfg, s, query, true, []).1;
    FilterMembers(s.memories, Pinned());
    FilterMembers(Filter(s.memories, Pinned()), Trusted());
    RecalledAreStored(cfg, s, query);
    LanesAre(cfg, s, prompt);
    hide LocalRecall, Filter, Dedup, Flatten, ShownFor, LocalStep;
    var recalled := Take(found, MAX_GROUNDING);
    assert m in pinned + recalled <==> m in pinned || m in recalled;
    DedupKeeps(s.memories, pinned + recalled, m);
  }

  lemma DedupKeeps(ms: seq<Memory>, all: seq<Memory>, m: Memory)
    requires forall i, j :: 0 <= i < j < |ms| ==> ms[i].id != ms[j].id
    requires forall x :: x in all ==> x in ms
    ensures m in Dedup(all, {}) <==> m in all
  {
    hide Dedup;
    StoredAreDistinct(ms, all);
    DedupFrom(all, {});
    DistinctStay(all, {});
  }

  lemma RecalledAreStored(cfg: Config, s: Local, query: string)
    ensures forall m :: m in LocalRecall(cfg, s, query, true, []).1 ==> m in s.memories
  {
    var matches := Filter(s.memories, Matching(cfg, query, true, []));
    FilterMembers(s.memories, Matching(cfg, query, true, []));
    hide Filter, Ranked, Matching;
    RankedFrom(cfg, matches, LocalScores(s, matches), s.drawn);
  }

  lemma LanesAre(cfg: Config, s: Local, prompt: string)
    ensures var found := LocalRecall(cfg, s, Take(prompt, BOOTSTRAP_QUERY_MAX), true, []).1;
            && ShownFor(cfg, s, prompt)
              == Dedup(Filter(Filter(s.memories, Pinned()), Trusted()) + Take(found, MAX_GROUNDING), {})
            && LocalStep(cfg, s, Op.Recall(Take(prompt, BOOTSTRAP_QUERY_MAX), true, [])).1 == Memories(found)
  {
    hide LocalRecall, Filter, Dedup, Flatten, Take;
    var b := BootstrapFor(cfg, s, prompt);
    FlattenThree(b.pinned, b.recall, b.upcoming);
    assert b.upcoming == [] && b.pinned + b.recall + [] == b.pinned + b.recall;
  }

  lemma StoredAreDistinct(ms: seq<Memory>, all: seq<Memory>)
    requires forall i, j :: 0 <= i < j < |ms| ==> ms[i].id != ms[j].id
    requires forall m :: m in all ==> m in ms
    ensures forall i, j :: 0 <= i < |all| && 0 <= j < |all| && all[i].id == all[j].id ==> all[i] == all[j]
  {
    forall i, j | 0 <= i < |all| && 0 <= j < |all| && all[i].id == all[j].id
      ensures all[i] == all[j]
    {
      assert all[i] in ms && all[j] in ms;
      var k :| 0 <= k < |ms| && ms[k] == all[i];
      var l :| 0 <= l < |ms| && ms[l] == all[j];
    }
  }
}
