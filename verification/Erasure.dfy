/** The host-side erasure cascade: completeness, frame, and resumption after a failed run. */
module Erasure {
  import opened Base
  import opened MemoryModel
  import opened LocalMemory
  import opened Checkpoints
  import opened Provenance
  import opened StringOrder

  /** Everything the cascade may touch. */
  datatype World = World(memory: Local, saved: map<string, Checkpoint>, byMemory: ByMemory, tiers: Tiers)

  datatype CascadeResult = CascadeResult(
    source: string, sessions: seq<string>, forgotten: seq<string>, deletedCheckpoints: seq<string>)

  datatype CascadeError = UnknownSource(id: string) | DeleteFailed(session: string)

  /** What one checkpoint delete did: it worked, or it raised with the checkpoint gone or not. */
  datatype DeleteOutcome = Deleted | Raised(removed: bool)

  function SessionTag(session: string): string {
    "session:" + session
  }

  /** The memories derived from `sessions`, by their session tag. */
  function Derived(ms: seq<Memory>, sessions: set<string>): set<string> {
    set i, s | 0 <= i < |ms| && s in sessions && SessionTag(s) in ms[i].tags :: ms[i].id
  }

  function Erased(w: World, id: string): set<string> {
    Derived(w.memory.memories, SessionsOf(w.byMemory, id)) + {id}
  }

  /** The state a completed cascade must leave. */
  function Cascaded(w: World, id: string): World {
    var sessions := SessionsOf(w.byMemory, id);
    World(Erase(w.memory, Erased(w, id)), w.saved - sessions, w.byMemory - {id}, w.tiers - sessions)
  }

  /** A state an interrupted cascade may leave: some of the derived side is gone, the source is not. */
  ghost predicate Interrupted(w: World, w': World, id: string) {
    exists ids: set<string>, gone: set<string>, untiered: set<string> ::
      InterruptedBy(w, w', id, ids, gone, untiered)
  }

  ghost predicate InterruptedBy(w: World, w': World, id: string, ids: set<string>, gone: set<string>, untiered: set<string>) {
    var sessions := SessionsOf(w.byMemory, id);
    && ids <= Derived(w.memory.memories, sessions) - {id}
    && gone <= sessions && untiered <= sessions
    && w' == World(Erase(w.memory, ids), w.saved - gone, w.byMemory, w.tiers - untiered)
  }

  // ---- the cascade -------------------------------------------------------------------

  method ForgetCascade(id: string, memory: LocalMemoryClient, checkpoints: CheckpointStore,
                       provenance: ProvenanceLog, outcome: string -> DeleteOutcome)
    returns (r: Result<CascadeResult, CascadeError>)
    modifies memory, checkpoints, provenance
    ensures var before := old(World(memory.State(), checkpoints.saved, provenance.byMemory, provenance.tiersBySession));
            var after := World(memory.State(), checkpoints.saved, provenance.byMemory, provenance.tiersBySession);
            var sessions := SessionsOf(before.byMemory, id);
            match r
            case Err(UnknownSource(x)) => x == id && !HasId(before.memory.memories, id) && after == before
            case Err(DeleteFailed(s)) =>
              && HasId(before.memory.memories, id) && s in sessions && outcome(s).Raised?
              && Interrupted(before, after, id)
            case Ok(result) =>
              && HasId(before.memory.memories, id) && (forall s :: s in sessions ==> outcome(s).Deleted?)
              && after == Cascaded(before, id)
              && result.source == id
              && result.sessions == result.deletedCheckpoints == Sorted(sessions)
              && (forall x :: x in result.forgotten <==> x in Erased(before, id))
              && NoRepeats(result.forgotten)
    ensures var before, ms := old(World(memory.State(), checkpoints.saved, provenance.byMemory, provenance.tiersBySession)), memory.memories;
            r.Ok? && (forall i, j :: 0 <= i < j < |before.memory.memories| ==>
                        before.memory.memories[i].id != before.memory.memories[j].id) ==>
              forall m :: m in before.memory.memories ==>
                (m in ms <==> m.id != id && !(id in before.byMemory && exists s :: s in before.byMemory[id] && "session:" + s in m.tags))
  {
    hide Filter, Erase, Derived, HasId, Interrupted;
    ghost var w := World(memory.State(), checkpoints.saved, provenance.byMemory, provenance.tiersBySession);
    var known := memory.HasMemory(id);
    if !known {
      return Err(UnknownSource(id));
    }
    var consumers := provenance.SessionsFor(id);
    var sessions := Sorted(consumers);
    var forgotten, failed := ForgetSessions(id, sessions, memory, checkpoints, provenance, outcome, w);
    assert Elements(sessions) == consumers;
    if failed.Some? {
      return Err(DeleteFailed(failed.value));
    }
    Survives(w.memory, Elements(forgotten), id);
    var out := memory.Forget(id);
    EraseCompose(w.memory, Elements(forgotten), {id});
    assert Elements(forgotten) + {id} == Erased(w, id);
    ElementsSnoc(forgotten, id);
    forgotten := forgotten + [id];
    provenance.ForgetMemory(id);
    assert forall x :: x in forgotten <==> x in Elements(forgotten);
    r := Ok(CascadeResult(id, sessions, forgotten, sessions));
    SparesAll(w, id);
  }

  /** `CascadeSpares` for every memory. */
  lemma SparesAll(w: World, id: string)
    ensures (forall i, j :: 0 <= i < j < |w.memory.memories| ==> w.memory.memories[i].id != w.memory.memories[j].id) ==>
              forall m :: m in w.memory.memories ==>
                (m in Cascaded(w, id).memory.memories <==>
                  m.id != id && !(id in w.byMemory && exists s :: s in w.byMemory[id] && "session:" + s in m.tags))
  {
    hide Cascaded;
    if forall i, j :: 0 <= i < j < |w.memory.memories| ==> w.memory.memories[i].id != w.memory.memories[j].id {
      forall m | m in w.memory.memories
        ensures m in Cascaded(w, id).memory.memories <==>
                  m.id != id && !(id in w.byMemory && exists s :: s in w.byMemory[id] && "session:" + s in m.tags)
      {
        CascadeSpares(w, id, m);
      }
    }
  }

  /** The loop over consuming sessions; stops at the first checkpoint delete that raises. */
  method ForgetSessions(id: string, sessions: seq<string>, memory: LocalMemoryClient, checkpoints: CheckpointStore,
                        provenance: ProvenanceLog, outcome: string -> DeleteOutcome, ghost w: World)
    returns (forgotten: seq<string>, failed: Option<string>)
    requires w == World(memory.State(), checkpoints.saved, provenance.byMemory, provenance.tiersBySession)
    requires Elements(sessions) == SessionsOf(w.byMemory, id)
    modifies memory, checkpoints, provenance`tiersBySession
    ensures var after := World(memory.State(), checkpoints.saved, provenance.byMemory, provenance.tiersBySession);
            match failed
            case Some(s) => s in sessions && outcome(s).Raised? && Interrupted(w, after, id)
            case None =>
              && (forall s :: s in sessions ==> outcome(s).Deleted?)
              && after == World(Erase(w.memory, Elements(forgotten)), w.saved - Elements(sessions),
                                w.byMemory, w.tiers - Elements(sessions))
              && Elements(forgotten) == Derived(w.memory.memories, Elements(sessions)) - {id}
              && NoRepeats(forgotten)
  {
    hide Filter, Erase;
    forgotten, failed := [], None;
    EraseNothing(w.memory);
    assert Elements<string>([]) == {};
    ghost var done: set<string> := {};
    for i := 0 to |sessions|
      invariant done <= Elements(sessions) && done == Elements(sessions[..i])
      invariant forall s :: s in done ==> outcome(s).Deleted?
      invariant checkpoints.saved == w.saved - done
      invariant provenance.byMemory == w.byMemory && provenance.tiersBySession == w.tiers - done
      invariant Elements(forgotten) == Derived(w.memory.memories, done) - {id}
      invariant NoRepeats(forgotten)
      invariant memory.State() == Erase(w.memory, Elements(forgotten))
    {
      var session := sessions[i];
      assert session in sessions;
      RemoveTwice(w.saved, done, session);
      if outcome(session).Raised? {
        if outcome(session).removed {
          checkpoints.Delete(session);
        }
        DerivedMonotone(w.memory.memories, done, Elements(sessions));
        assert InterruptedBy(w, World(memory.State(), checkpoints.saved, provenance.byMemory, provenance.tiersBySession),
          id, Elements(forgotten), if outcome(session).removed then done + {session} else done, done);
        failed := Some(session);
        return;
      }
      checkpoints.Delete(session);
      forgotten := ForgetTagged(id, session, memory, forgotten, w.memory);
      provenance.ForgetSessionTiers(session);
      RemoveTwice(w.tiers, done, session);
      DerivedGrows(w.memory.memories, done, session);
      ElementsSnoc(sessions[..i], session);
      done := done + {session};
      assert sessions[..i + 1] == sessions[..i] + [session];
    }
    assert sessions[..|sessions|] == sessions;
  }

  lemma RemoveTwice<V>(m: map<string, V>, a: set<string>, x: string)
    ensures m - a - {x} == m - (a + {x})
  {
  }

  /** The inner loop over what carries this session's tag. */
  method ForgetTagged(id: string, session: string, memory: LocalMemoryClient, done: seq<string>, ghost start: Local)
    returns (forgotten: seq<string>)
    requires memory.State() == Erase(start, Elements(done))
    requires NoRepeats(done)
    modifies memory
    ensures memory.State() == Erase(start, Elements(forgotten))
    ensures NoRepeats(forgotten)
    ensures Elements(forgotten) == Elements(done) + (Derived(start.memories, {session}) - {id})
  {
    forgotten := done;
    var ids := memory.IdsWithTag(SessionTag(session));
    TaggedIds(start, Elements(done), session, ids);
    for j := 0 to |ids|
      invariant memory.State() == Erase(start, Elements(forgotten))
      invariant NoRepeats(forgotten)
      invariant Elements(forgotten) == Elements(done) + (Elements(ids[..j]) - {id})
    {
      assert ids[..j + 1] == ids[..j] + [ids[j]] && ids[j] in ids;
      ElementsSnoc(ids[..j], ids[j]);
      forgotten := ForgetSummary(id, ids[j], memory, forgotten, start);
    }
    assert ids[..|ids|] == ids;
  }

  /** Skip the source, and skip what an earlier session already erased. */
  method ForgetSummary(id: string, summary: string, memory: LocalMemoryClient, done: seq<string>, ghost start: Local)
    returns (forgotten: seq<string>)
    requires memory.State() == Erase(start, Elements(done))
    requires NoRepeats(done) && HasId(start.memories, summary)
    modifies memory
    ensures memory.State() == Erase(start, Elements(forgotten))
    ensures NoRepeats(forgotten)
    ensures Elements(forgotten) == Elements(done) + ({summary} - {id})
  {
    forgotten := done;
    var present := memory.HasMemory(summary);
    if summary != id {
      if present {
        SurvivesUnless(start, Elements(done), summary);
        EraseCompose(start, Elements(done), {summary});
        var _ := memory.Forget(summary);
        ElementsSnoc(done, summary);
        forgotten := done + [summary];
      } else if summary !in Elements(done) {
        Survives(start, Elements(done), summary);
      }
    }
  }

  // ---- facts about erased stores --------------------------------------------------------

  lemma SurvivesUnless(s: Local, ids: set<string>, id: string)
    requires HasId(Erase(s, ids).memories, id)
    ensures id !in ids
  {
    FilterMembers(s.memories, KeepMemory(ids));
    var i :| 0 <= i < |Erase(s, ids).memories| && Erase(s, ids).memories[i].id == id;
    assert Erase(s, ids).memories[i] in Erase(s, ids).memories;
  }

  lemma Survives(s: Local, ids: set<string>, id: string)
    requires HasId(s.memories, id) && id !in ids
    ensures HasId(Erase(s, ids).memories, id)
  {
    var i :| 0 <= i < |s.memories| && s.memories[i].id == id;
    FilterMembers(s.memories, KeepMemory(ids));
    assert s.memories[i] in s.memories && KeepMemory(ids)(s.memories[i]);
    assert s.memories[i] in Erase(s, ids).memories;
  }

  /** The ids the tag scan finds in a partly erased store. */
  lemma TaggedIds(s: Local, ids: set<string>, session: string, found: seq<string>)
    requires found == Map(Filter(Erase(s, ids).memories, Tagged(SessionTag(session))), IdOf())
    ensures Elements(found) == Derived(s.memories, {session}) - ids
    ensures forall x :: x in found ==> HasId(s.memories, x)
  {
    var kept := Erase(s, ids).memories;
    var tagged := Filter(kept, Tagged(SessionTag(session)));
    FilterMembers(s.memories, KeepMemory(ids));
    FilterMembers(kept, Tagged(SessionTag(session)));
    assert kept == Filter(s.memories, KeepMemory(ids));
    hide Filter, Erase;
    forall x | x in found
      ensures x in Derived(s.memories, {session}) - ids && HasId(s.memories, x)
    {
      var i :| 0 <= i < |found| && found[i] == x;
      assert tagged[i] in tagged && tagged[i] in kept && tagged[i] in s.memories;
    }
    forall x | x in Derived(s.memories, {session}) - ids
      ensures x in found
    {
      var i :| 0 <= i < |s.memories| && SessionTag(session) in s.memories[i].tags && s.memories[i].id == x;
      assert s.memories[i] in kept && s.memories[i] in tagged;
      var j :| 0 <= j < |tagged| && tagged[j] == s.memories[i];
      assert found[j] == x;
    }
  }

  lemma DerivedMonotone(ms: seq<Memory>, a: set<string>, b: set<string>)
    requires a <= b
    ensures Derived(ms, a) <= Derived(ms, b)
  {
  }

  lemma DerivedGrows(ms: seq<Memory>, a: set<string>, session: string)
    ensures Derived(ms, a + {session}) == Derived(ms, a) + Derived(ms, {session})
  {
  }

  /**
   * Every memory but the source survives a cascade exactly when it carries no tag `session:` of a session that the log has
   * for the source. Ids are distinct, as the dict keeps them.
   */
  lemma CascadeSpares(w: World, id: string, m: Memory)
    requires m in w.memory.memories
    requires forall i, j :: 0 <= i < j < |w.memory.memories| ==> w.memory.memories[i].id != w.memory.memories[j].id
    ensures m in Cascaded(w, id).memory.memories <==>
              m.id != id && !(id in w.byMemory && exists s :: s in w.byMemory[id] && "session:" + s in m.tags)
  {
    var ms, sessions := w.memory.memories, SessionsOf(w.byMemory, id);
    FilterMembers(ms, KeepMemory(Erased(w, id)));
    var k :| 0 <= k < |ms| && ms[k] == m;
    forall i | 0 <= i < |ms| && ms[i].id == m.id
      ensures i == k
    {
    }
    hide Filter;
    if s :| s in sessions && "session:" + s in m.tags {
      assert SessionTag(s) in ms[k].tags;
      assert m.id in Derived(ms, sessions);
    }
    if m.id in Derived(ms, sessions) {
      var i, s :| 0 <= i < |ms| && s in sessions && SessionTag(s) in ms[i].tags && ms[i].id == m.id;
      assert "session:" + s in m.tags;
    }
  }

  // ---- completeness, frame, resumption ---------------------------------------------------

  /** Outside the log nothing that names an erased id is left, and nothing else is touched; the log loses the source's entry. */
  lemma CascadeCompleteAndFramed(w: World, id: string, m: Memory, src: string)
    ensures var w' := Cascaded(w, id);
            && (m in w'.memory.memories <==> m in w.memory.memories && m.id !in Erased(w, id))
            && (src in Erased(w, id) ==> Listed(w'.memory.edges, src) == [] && Listed(w'.memory.feedback, src) == [])
            && (forall e :: e in Listed(w'.memory.edges, src) <==>
                 e in Listed(w.memory.edges, src) && src !in Erased(w, id) && e.0 !in Erased(w, id))
            && (src !in Erased(w, id) ==> Listed(w'.memory.feedback, src) == Listed(w.memory.feedback, src))
            && (src in w'.saved <==> src in w.saved && src !in SessionsOf(w.byMemory, id))
            && (src in w'.tiers <==> src in w.tiers && src !in SessionsOf(w.byMemory, id))
            && SessionsOf(w'.byMemory, src) == if src == id then {} else SessionsOf(w.byMemory, src)
  {
    FilterMembers(w.memory.memories, KeepMemory(Erased(w, id)));
    if src in w.memory.edges { FilterMembers(w.memory.edges[src], KeepTarget(Erased(w, id))); }
  }

  /** The cascade is one level deep: an erased summary keeps its log entry, and no cascade can start from it any more. */
  lemma SummariesAreOutOfReach(w: World, id: string, summary: string)
    requires summary in Erased(w, id) && summary != id
    ensures var w' := Cascaded(w, id);
            SessionsOf(w'.byMemory, summary) == SessionsOf(w.byMemory, summary) && !HasId(w'.memory.memories, summary)
  {
    if HasId(Erase(w.memory, Erased(w, id)).memories, summary) {
      SurvivesUnless(w.memory, Erased(w, id), summary);
    }
  }

  lemma DerivedAfterErase(s: Local, ids: set<string>, sessions: set<string>)
    ensures Derived(Erase(s, ids).memories, sessions) == Derived(s.memories, sessions) - ids
  {
    var kept := Erase(s, ids).memories;
    FilterMembers(s.memories, KeepMemory(ids));
    assert kept == Filter(s.memories, KeepMemory(ids));
    hide Filter, Erase;
    forall x | x in Derived(kept, sessions)
      ensures x in Derived(s.memories, sessions) - ids
    {
      var i, t :| 0 <= i < |kept| && t in sessions && SessionTag(t) in kept[i].tags && kept[i].id == x;
      assert kept[i] in kept && kept[i] in s.memories;
    }
    forall x | x in Derived(s.memories, sessions) - ids
      ensures x in Derived(kept, sessions)
    {
      var i, t :| 0 <= i < |s.memories| && t in sessions && SessionTag(t) in s.memories[i].tags && s.memories[i].id == x;
      assert s.memories[i] in kept;
    }
  }

  /** A run that stopped part-way and is repeated to the end leaves what one clean run leaves. */
  lemma RerunCompletes(w: World, w': World, id: string)
    requires HasId(w.memory.memories, id) && Interrupted(w, w', id)
    ensures HasId(w'.memory.memories, id)
    ensures Cascaded(w', id) == Cascaded(w, id)
  {
    var ids, gone, untiered :| InterruptedBy(w, w', id, ids, gone, untiered);
    var sessions := SessionsOf(w.byMemory, id);
    Survives(w.memory, ids, id);
    DerivedAfterErase(w.memory, ids, sessions);
    EraseCompose(w.memory, ids, Erased(w', id));
    assert ids + Erased(w', id) == Erased(w, id);
    assert w.saved - gone - sessions == w.saved - sessions;
    assert w.tiers - untiered - sessions == w.tiers - sessions;
  }
}
